/** Records of the wallet ledger: users, products, investments and transactions,
    the balance a user's successful transactions add up to, the newest-first
    history a user sees, and the lookup the admin confirm/reject handlers share. */
module Ledger {

  type UserId = nat
  type ProductId = nat
  /** A transaction's identity is its position in the ledger. */
  type TxId = nat

  /** One payout period, in milliseconds. Calendar-day arithmetic is abstracted
      to this fixed increment. */
  const DAY: nat := 86_400_000

  /** Smallest accepted top-up and withdrawal request (Rp100.000). */
  const MIN_AMOUNT: nat := 100_000

  datatype Option<T> = None | Some(value: T)

  datatype Error =
    | Validation          // missing or too small input
    | InsufficientFunds   // balance below price or amount
    | NotFound            // no product, or no transaction of the expected type
    | AlreadyProcessed    // transaction is no longer pending
    | NoBankAccount       // withdrawal without a saved bank account
    | UnknownUser         // the handler dereferences a user record that does not exist

  datatype Result<T> = Ok(value: T) | Err(error: Error)

  datatype BankAccount = BankAccount(kind: string, number: string, name: string)

  datatype User = User(saldo: nat, rekening: Option<BankAccount>)

  datatype Product = Product(name: string, price: nat, dailyIncome: nat, cycleDays: nat, totalIncome: nat)

  /** One purchase of a product. `nextPayoutAt` is unset until the first claim. */
  datatype Investment = Investment(
    userId: UserId,
    productId: ProductId,
    startAt: int,
    daysPaid: nat,
    nextPayoutAt: Option<int>,
    finished: bool)

  datatype TxKind = Topup | Withdraw | Buy | Payout

  datatype TxStatus = Pending | Success | Failed

  datatype Tx = Tx(userId: UserId, kind: TxKind, amount: nat, status: TxStatus, note: string, createdAt: int)

  /** What one transaction contributes to user `u`'s balance: successful top-ups and
      payouts add, successful withdrawals and purchases subtract, anything else is 0. */
  function Effect(t: Tx, u: UserId): int {
    if t.userId != u || t.status != Success then 0
    else match t.kind
      case Topup => t.amount
      case Payout => t.amount
      case Withdraw => -(t.amount as int)
      case Buy => -(t.amount as int)
  }

  /** The balance that the ledger `txs` justifies for user `u`. */
  function Net(txs: seq<Tx>, u: UserId): int {
    if txs == [] then 0 else Net(txs[..|txs| - 1], u) + Effect(txs[|txs| - 1], u)
  }

  lemma NetSnoc(txs: seq<Tx>, t: Tx, u: UserId)
    ensures Net(txs + [t], u) == Net(txs, u) + Effect(t, u)
  {
    assert (txs + [t])[..|txs|] == txs;
  }

  lemma {:induction false} NetConcat(s: seq<Tx>, t: seq<Tx>, u: UserId)
    ensures Net(s + t, u) == Net(s, u) + Net(t, u)
    decreases |t|
  {
    if t == [] {
      assert s + t == s;
    } else {
      var init, last := t[..|t| - 1], t[|t| - 1];
      assert t == init + [last];
      assert s + t == (s + init) + [last];
      NetSnoc(s + init, last, u);
      NetConcat(s, init, u);
      NetSnoc(init, last, u);
    }
  }

  /** Rewriting one record (a status change by the admin) moves the sum by exactly
      the difference of the two records' effects. */
  lemma {:induction false} NetUpdate(s: seq<Tx>, i: nat, t: Tx, u: UserId)
    requires i < |s|
    ensures Net(s[i := t], u) == Net(s, u) - Effect(s[i], u) + Effect(t, u)
    decreases |s|
  {
    var init, last := s[..|s| - 1], s[|s| - 1];
    assert s == init + [last];
    NetSnoc(init, last, u);
    if i == |s| - 1 {
      assert s[i := t] == init + [t];
      NetSnoc(init, t, u);
    } else {
      assert s[i := t] == init[i := t] + [last];
      NetSnoc(init[i := t], last, u);
      NetUpdate(init, i, t, u);
    }
  }

  /** `n` copies of `t`, in creation order. */
  function Repeat(t: Tx, n: nat): (r: seq<Tx>)
    ensures |r| == n
    ensures forall i :: 0 <= i < n ==> r[i] == t
  {
    if n == 0 then [] else Repeat(t, n - 1) + [t]
  }

  lemma {:induction false} NetRepeat(t: Tx, n: nat, u: UserId)
    ensures Net(Repeat(t, n), u) == n * Effect(t, u)
  {
    if n > 0 {
      var e := Effect(t, u);
      NetRepeat(t, n - 1, u);
      NetSnoc(Repeat(t, n - 1), t, u);
      assert n * e == (n - 1) * e + e;
    }
  }

  /** The history handler: user `u`'s transactions, newest first. The ledger is kept
      in creation order, so the newest is the last one; records created at the same
      instant are listed latest-created first. */
  function HistoryOf(txs: seq<Tx>, u: UserId): (h: seq<Tx>)
    ensures forall t :: t in h <==> t in txs && t.userId == u
  {
    if txs == [] then []
    else
      var init, last := txs[..|txs| - 1], txs[|txs| - 1];
      assert txs == init + [last];
      (if last.userId == u then [last] else []) + HistoryOf(init, u)
  }

  /** The history holds every one of the user's records as often as the ledger does,
      and nobody else's. */
  lemma {:induction false} HistoryCounts(txs: seq<Tx>, u: UserId)
    ensures forall t :: multiset(HistoryOf(txs, u))[t] == if t.userId == u then multiset(txs)[t] else 0
  {
    if txs != [] {
      var init, last := txs[..|txs| - 1], txs[|txs| - 1];
      assert txs == init + [last];
      HistoryCounts(init, u);
      assert multiset(txs) == multiset(init) + multiset{last};
    }
  }

  ghost predicate Chronological(txs: seq<Tx>) {
    forall i, j :: 0 <= i < j < |txs| ==> txs[i].createdAt <= txs[j].createdAt
  }

  ghost predicate NewestFirst(h: seq<Tx>) {
    forall i, j :: 0 <= i < j < |h| ==> h[i].createdAt >= h[j].createdAt
  }

  lemma ConsNewestFirst(x: Tx, rest: seq<Tx>)
    requires NewestFirst(rest)
    requires forall t :: t in rest ==> t.createdAt <= x.createdAt
    ensures NewestFirst([x] + rest)
  {
    var h := [x] + rest;
    forall i, j | 0 <= i < j < |h| ensures h[i].createdAt >= h[j].createdAt {
      assert h[j] == rest[j - 1];
      if i > 0 {
        assert h[i] == rest[i - 1];
      }
    }
  }

  /** When the ledger's timestamps never decrease, the history is sorted newest first. */
  lemma {:induction false} HistoryNewestFirst(txs: seq<Tx>, u: UserId)
    requires Chronological(txs)
    ensures NewestFirst(HistoryOf(txs, u))
  {
    if txs != [] {
      var init, last := txs[..|txs| - 1], txs[|txs| - 1];
      assert Chronological(init);
      HistoryNewestFirst(init, u);
      var rest := HistoryOf(init, u);
      forall t | t in rest ensures t.createdAt <= last.createdAt {
        assert t in init;
        var k :| 0 <= k < |init| && init[k] == t;
        assert txs[k] == t;
      }
      if last.userId == u {
        ConsNewestFirst(last, rest);
      } else {
        assert HistoryOf(txs, u) == rest;
      }
    }
  }

  /** The shared guard of the four admin handlers: the transaction must exist and be
      of the handler's type (else NotFound), and must still be pending (else
      AlreadyProcessed). */
  function CheckPending(txs: seq<Tx>, id: TxId, kind: TxKind): (r: Result<Tx>)
    ensures r.Ok? <==> id < |txs| && txs[id].kind == kind && txs[id].status == Pending
    ensures r.Ok? ==> r.value == txs[id]
    ensures r == Err(NotFound) <==> !(id < |txs| && txs[id].kind == kind)
    ensures r == Err(AlreadyProcessed) <==> id < |txs| && txs[id].kind == kind && txs[id].status != Pending
  {
    if id >= |txs| || txs[id].kind != kind then Err(NotFound)
    else if txs[id].status != Pending then Err(AlreadyProcessed)
    else Ok(txs[id])
  }
}
