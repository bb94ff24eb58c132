/** The lazy daily payout engine as functions of (state, now): what one claim does
    to each investment, which payout records it creates and how much it credits. */
module Accrual {
  import opened Ledger
  import opened Catalog

  function Min(a: int, b: int): int { if a <= b then a else b }

  /** First evaluation of an investment: an unset cursor becomes one day after the
      purchase, so nothing is paid at purchase time. */
  function Prepare(inv: Investment): (r: Investment)
    ensures r.nextPayoutAt.Some?
    ensures inv.nextPayoutAt.Some? ==> r == inv
  {
    if inv.nextPayoutAt.None? then inv.(nextPayoutAt := Some(inv.startAt + DAY)) else inv
  }

  /** One pass of the catch-up loop body, after its payout record: count the day,
      then either finish or move the cursor on by one day. */
  function Step(inv: Investment, p: Product): (r: Investment)
    requires inv.nextPayoutAt.Some?
    ensures r.nextPayoutAt.Some? && r.daysPaid == inv.daysPaid + 1
    ensures !inv.finished ==> (r.finished <==> r.daysPaid >= p.cycleDays)
    ensures r.finished && !inv.finished ==> r.nextPayoutAt == inv.nextPayoutAt
    ensures !r.finished ==> r.nextPayoutAt.value == inv.nextPayoutAt.value + DAY
  {
    var paid := inv.(daysPaid := inv.daysPaid + 1);
    if paid.daysPaid >= p.cycleDays then paid.(finished := true)
    else paid.(nextPayoutAt := Some(paid.nextPayoutAt.value + DAY))
  }

  datatype CatchUpResult = CatchUpResult(inv: Investment, count: nat)

  /** The catch-up loop: pay while the investment is unfinished and its cursor is due.
      `count` is the number of payouts made. */
  function Accrue(inv: Investment, p: Product, now: int): (r: CatchUpResult)
    requires inv.nextPayoutAt.Some?
    ensures r.inv.nextPayoutAt.Some?
    ensures r.inv.userId == inv.userId && r.inv.productId == inv.productId && r.inv.startAt == inv.startAt
    ensures r.inv.daysPaid == inv.daysPaid + r.count
    ensures r.inv.finished || r.inv.nextPayoutAt.value > now
    ensures inv.finished || inv.nextPayoutAt.value > now ==> r == CatchUpResult(inv, 0)
    ensures r.count > 0 ==> inv.nextPayoutAt.value <= now
    ensures !inv.finished && inv.daysPaid < p.cycleDays ==>
      r.inv.daysPaid <= p.cycleDays && (r.inv.finished <==> r.inv.daysPaid == p.cycleDays)
    decreases if inv.finished then 0 else 1, p.cycleDays - inv.daysPaid
  {
    if inv.finished || inv.nextPayoutAt.value > now then CatchUpResult(inv, 0)
    else
      var rest := Accrue(Step(inv, p), p, now);
      CatchUpResult(rest.inv, rest.count + 1)
  }

  /** How many payout periods starting at cursor `n` (the periods n, n + DAY, ...)
      are due at `now`. */
  function DueFrom(n: int, now: int): nat {
    if now < n then 0 else (now - n) / DAY + 1
  }

  lemma DueFromSpec(n: int, now: int, j: nat)
    ensures n + j * DAY <= now <==> j < DueFrom(n, now)
  {
    if now >= n {
      var q, r := (now - n) / DAY, (now - n) % DAY;
      assert now - n == q * DAY + r && 0 <= r < DAY;
      if j <= q {
        assert j * DAY <= q * DAY;
      } else {
        assert j * DAY >= q * DAY + DAY;
      }
    }
  }

  lemma DueFromNext(n: int, now: int)
    requires n <= now
    ensures DueFrom(n + DAY, now) == DueFrom(n, now) - 1
  {
    var d := DueFrom(n, now);
    DueFromSpec(n, now, d);
    DueFromSpec(n, now, d - 1);
    var e := DueFrom(n + DAY, now);
    DueFromSpec(n + DAY, now, e);
    if e > 0 {
      DueFromSpec(n + DAY, now, e - 1);
    }
    assert n + DAY + (d - 1) * DAY == n + d * DAY;
    if e > 0 {
      assert n + DAY + (e - 1) * DAY == n + e * DAY;
      DueFromSpec(n, now, e);
    }
    DueFromSpec(n + DAY, now, d - 1);
  }

  /** Closed form of the catch-up loop: an unfinished investment with `d < cycleDays`
      days paid and cursor `n` receives min(cycleDays - d, periods due) payouts; the
      cursor has moved one day per payout except on the payout that finishes it. */
  lemma {:induction false} AccrueCount(inv: Investment, p: Product, now: int)
    requires inv.nextPayoutAt.Some? && !inv.finished && inv.daysPaid < p.cycleDays
    ensures var r := Accrue(inv, p, now);
      var n := inv.nextPayoutAt.value;
      && r.count == Min(p.cycleDays - inv.daysPaid, DueFrom(n, now))
      && (r.inv.finished ==> r.count >= 1 && r.inv.nextPayoutAt.value == n + (r.count - 1) * DAY)
      && (!r.inv.finished ==> r.inv.nextPayoutAt.value == n + r.count * DAY)
    decreases p.cycleDays - inv.daysPaid
  {
    var n := inv.nextPayoutAt.value;
    if n <= now {
      DueFromNext(n, now);
      var s := Step(inv, p);
      if !s.finished {
        AccrueCount(s, p, now);
      }
    }
  }

  /** The investment is being accrued for user `u`: it is theirs, unfinished, and
      its product still exists. Anything else is skipped by a claim. */
  predicate Eligible(inv: Investment, products: map<ProductId, Product>, u: UserId) {
    inv.userId == u && !inv.finished && inv.productId in products
  }

  function PayoutTx(u: UserId, p: Product, now: int): Tx {
    Tx(u, Payout, p.dailyIncome, Success, "Payout " + p.name, now)
  }

  /** What a claim does to one investment: the saved investment, the payout records
      created for it and the amount they add up to. */
  datatype Outcome = Outcome(inv: Investment, payouts: seq<Tx>, total: nat)

  function ClaimOne(inv: Investment, products: map<ProductId, Product>, u: UserId, now: int): (r: Outcome)
    ensures !Eligible(inv, products, u) ==> r == Outcome(inv, [], 0)
    ensures Eligible(inv, products, u) ==>
      var p := products[inv.productId];
      var a := Accrue(Prepare(inv), p, now);
      r.inv == a.inv && r.payouts == Repeat(PayoutTx(u, p, now), a.count) && r.total == a.count * p.dailyIncome
    ensures r.inv.userId == inv.userId && r.inv.productId == inv.productId && r.inv.startAt == inv.startAt
    ensures r.total == |r.payouts| * (if inv.productId in products then products[inv.productId].dailyIncome else 0)
  {
    if !Eligible(inv, products, u) then Outcome(inv, [], 0)
    else
      var p := products[inv.productId];
      var a := Accrue(Prepare(inv), p, now);
      Outcome(a.inv, Repeat(PayoutTx(u, p, now), a.count), a.count * p.dailyIncome)
  }

  /** The number of day boundaries startAt + k * DAY, k >= 1, that have passed at `now`. */
  function DueCount(startAt: int, now: int): nat {
    DueFrom(startAt + DAY, now)
  }

  lemma DueCountSpec(startAt: int, now: int, k: nat)
    requires k >= 1
    ensures startAt + k * DAY <= now <==> k <= DueCount(startAt, now)
  {
    DueFromSpec(startAt + DAY, now, k - 1);
    assert startAt + DAY + (k - 1) * DAY == startAt + k * DAY;
  }

  /** Exact catch-up for a freshly bought investment: one payout per day boundary
      passed since the purchase, capped at the cycle length, and the credit is that
      count times the daily income. The investment finishes exactly when the cap
      is reached. */
  lemma FreshCatchUp(inv: Investment, products: map<ProductId, Product>, u: UserId, now: int)
    requires Eligible(inv, products, u) && ValidProduct(products[inv.productId])
    requires inv.daysPaid == 0 && inv.nextPayoutAt.None?
    ensures var p := products[inv.productId];
      var r := ClaimOne(inv, products, u, now);
      var k := Min(DueCount(inv.startAt, now), p.cycleDays);
      && r.payouts == Repeat(PayoutTx(u, p, now), k)
      && r.total == k * p.dailyIncome
      && r.inv.daysPaid == k
      && (r.inv.finished <==> DueCount(inv.startAt, now) >= p.cycleDays)
  {
    var p := products[inv.productId];
    AccrueCount(Prepare(inv), p, now);
  }

  /** Claiming long after the whole cycle has elapsed pays exactly the product's
      advertised total and finishes the investment. */
  lemma FullCycle(inv: Investment, products: map<ProductId, Product>, u: UserId, now: int)
    requires Eligible(inv, products, u) && ValidProduct(products[inv.productId])
    requires inv.daysPaid == 0 && inv.nextPayoutAt.None?
    requires now >= inv.startAt + products[inv.productId].cycleDays * DAY
    ensures var r := ClaimOne(inv, products, u, now);
      r.total == products[inv.productId].totalIncome && r.inv.finished
      && |r.payouts| == products[inv.productId].cycleDays
  {
    var p := products[inv.productId];
    DueCountSpec(inv.startAt, now, p.cycleDays);
    FreshCatchUp(inv, products, u, now);
  }

  /** Nothing more is owed at `now`: skipped, finished, or its cursor in the future. */
  predicate Settled(inv: Investment, products: map<ProductId, Product>, u: UserId, now: int) {
    Eligible(inv, products, u) ==> inv.nextPayoutAt.Some? && inv.nextPayoutAt.value > now
  }

  lemma ClaimOneSettles(inv: Investment, products: map<ProductId, Product>, u: UserId, now: int)
    ensures Settled(ClaimOne(inv, products, u, now).inv, products, u, now)
  {
  }

  lemma SettledIsFixed(inv: Investment, products: map<ProductId, Product>, u: UserId, now: int)
    requires Settled(inv, products, u, now)
    ensures ClaimOne(inv, products, u, now) == Outcome(inv, [], 0)
  {
  }

  /** The schedule invariant of a purchase: at most `cycleDays` days paid, finished
      exactly when all are paid, an unset cursor only before the first payout, and a
      set cursor at startAt + (daysPaid + 1) days while running, startAt + daysPaid
      days once finished. */
  predicate Consistent(inv: Investment, p: Product) {
    && inv.daysPaid <= p.cycleDays
    && (inv.finished <==> inv.daysPaid == p.cycleDays)
    && (inv.nextPayoutAt.None? ==> inv.daysPaid == 0)
    && (inv.nextPayoutAt.Some? ==>
          inv.nextPayoutAt.value == inv.startAt + (inv.daysPaid + if inv.finished then 0 else 1) * DAY)
  }

  lemma {:induction false} AccrueKeepsConsistent(inv: Investment, p: Product, now: int)
    requires inv.nextPayoutAt.Some? && Consistent(inv, p)
    ensures Consistent(Accrue(inv, p, now).inv, p)
    decreases if inv.finished then 0 else 1, p.cycleDays - inv.daysPaid
  {
    if !inv.finished && inv.nextPayoutAt.value <= now {
      var s := Step(inv, p);
      assert Consistent(s, p);
      AccrueKeepsConsistent(s, p, now);
    }
  }

  lemma ClaimOneKeepsConsistent(inv: Investment, products: map<ProductId, Product>, u: UserId, now: int)
    requires inv.productId in products && ValidProduct(products[inv.productId])
    requires Consistent(inv, products[inv.productId])
    ensures Consistent(ClaimOne(inv, products, u, now).inv, products[inv.productId])
  {
    if Eligible(inv, products, u) {
      AccrueKeepsConsistent(Prepare(inv), products[inv.productId], now);
    }
  }

  /** A whole claim: the investments, the payout records in creation order, and the
      grand total credited. */
  datatype Claim = Claim(invs: seq<Investment>, payouts: seq<Tx>, total: nat)

  /** The claim after visiting the first `k` investments. */
  function ClaimUpTo(invs: seq<Investment>, products: map<ProductId, Product>, u: UserId, now: int, k: nat): (c: Claim)
    requires k <= |invs|
    ensures |c.invs| == |invs|
    ensures forall j :: k <= j < |invs| ==> c.invs[j] == invs[j]
    ensures forall j :: 0 <= j < k ==> c.invs[j] == ClaimOne(invs[j], products, u, now).inv
    decreases k
  {
    if k == 0 then Claim(invs, [], 0)
    else
      var c := ClaimUpTo(invs, products, u, now, k - 1);
      var o := ClaimOne(invs[k - 1], products, u, now);
      Claim(c.invs[k - 1 := o.inv], c.payouts + o.payouts, c.total + o.total)
  }

  function ClaimAll(invs: seq<Investment>, products: map<ProductId, Product>, u: UserId, now: int): Claim {
    ClaimUpTo(invs, products, u, now, |invs|)
  }

  /** Every payout record of a claim belongs to the claiming user and together they
      add exactly the claim's total to that user's balance and nothing to anyone else's. */
  lemma {:induction false} ClaimNet(invs: seq<Investment>, products: map<ProductId, Product>, u: UserId, now: int, k: nat, v: UserId)
    requires k <= |invs|
    ensures var c := ClaimUpTo(invs, products, u, now, k);
      Net(c.payouts, v) == if v == u then c.total else 0
    decreases k
  {
    if k > 0 {
      var c := ClaimUpTo(invs, products, u, now, k - 1);
      var o := ClaimOne(invs[k - 1], products, u, now);
      ClaimNet(invs, products, u, now, k - 1, v);
      NetConcat(c.payouts, o.payouts, v);
      if Eligible(invs[k - 1], products, u) {
        var p := products[invs[k - 1].productId];
        var a := Accrue(Prepare(invs[k - 1]), p, now);
        NetRepeat(PayoutTx(u, p, now), a.count, v);
      }
    }
  }

  lemma {:induction false} SettledUpTo(invs: seq<Investment>, products: map<ProductId, Product>, u: UserId, now: int, k: nat)
    requires k <= |invs|
    requires forall j :: 0 <= j < |invs| ==> Settled(invs[j], products, u, now)
    ensures ClaimUpTo(invs, products, u, now, k) == Claim(invs, [], 0)
    decreases k
  {
    if k > 0 {
      SettledUpTo(invs, products, u, now, k - 1);
      SettledIsFixed(invs[k - 1], products, u, now);
    }
  }

  /** Idempotence per day boundary: a second claim at the same `now` changes no
      investment, creates no payout and credits nothing. */
  lemma ClaimIdempotent(invs: seq<Investment>, products: map<ProductId, Product>, u: UserId, now: int)
    ensures var c := ClaimAll(invs, products, u, now);
      ClaimAll(c.invs, products, u, now) == Claim(c.invs, [], 0)
  {
    var c := ClaimAll(invs, products, u, now);
    forall j | 0 <= j < |c.invs| ensures Settled(c.invs[j], products, u, now) {
      ClaimOneSettles(invs[j], products, u, now);
    }
    SettledUpTo(c.invs, products, u, now, |c.invs|);
  }
}
