/** The store behind the API: the User, Product, Investment and Tx collections as
    fields of one object, and each request handler as one atomic method on it. */
module Wallet {
  import opened Ledger
  import opened Catalog
  import opened Accrual

  /** The catch-up loop of one investment: while it is unfinished and its cursor is
      due, append one payout record of the daily income to the ledger, count the
      day, and either finish or move the cursor on by one day. Returns the
      investment to be saved, the extended ledger and the amount paid out. */
  method CatchUp(ledger0: seq<Tx>, userId: UserId, prod: Product, inv0: Investment, now: int) returns (inv: Investment, ledger: seq<Tx>, paid: nat)
    requires inv0.nextPayoutAt.Some?
    ensures var a := Accrue(inv0, prod, now);
      inv == a.inv && paid == a.count * prod.dailyIncome
      && ledger == ledger0 + Repeat(PayoutTx(userId, prod, now), a.count)
  {
    inv, ledger, paid := inv0, ledger0, 0;
    ghost var steps: nat := 0;
    while !inv.finished && inv.nextPayoutAt.value <= now
      invariant inv.nextPayoutAt.Some?
      invariant Accrue(inv, prod, now).inv == Accrue(inv0, prod, now).inv
      invariant steps + Accrue(inv, prod, now).count == Accrue(inv0, prod, now).count
      invariant ledger == ledger0 + Repeat(PayoutTx(userId, prod, now), steps)
      invariant paid == steps * prod.dailyIncome
      decreases if inv.finished then 0 else 1, prod.cycleDays - inv.daysPaid
    {
      ghost var before := inv;
      ledger := ledger + [PayoutTx(userId, prod, now)];
      paid := paid + prod.dailyIncome;
      inv := inv.(daysPaid := inv.daysPaid + 1);
      if inv.daysPaid >= prod.cycleDays {
        inv := inv.(finished := true);
      } else {
        inv := inv.(nextPayoutAt := Some(inv.nextPayoutAt.value + DAY));
      }
      assert inv == Step(before, prod);
      assert (steps + 1) * prod.dailyIncome == steps * prod.dailyIncome + prod.dailyIncome;
      steps := steps + 1;
    }
  }

  /** The loop over the investments of one claim: each unfinished investment of
      `userId` whose product exists gets its cursor initialised if unset, is caught
      up, and is saved; the others are skipped. Returns the saved investments, the
      new payout records in creation order, and the grand total. */
  method AccruePayouts(invs0: seq<Investment>, products: map<ProductId, Product>, userId: UserId, now: int) returns (invs: seq<Investment>, payouts: seq<Tx>, totalPaid: nat)
    ensures var c := ClaimAll(invs0, products, userId, now);
      invs == c.invs && payouts == c.payouts && totalPaid == c.total
  {
      invs, payouts := invs0, [];
      totalPaid := 0;
      var i := 0;
      while i < |invs|
        invariant 0 <= i <= |invs| == |invs0|
        invariant var c := ClaimUpTo(invs0, products, userId, now, i);
          invs == c.invs && payouts == c.payouts && totalPaid == c.total
      {
        var inv := invs[i];
        ghost var c := ClaimUpTo(invs0, products, userId, now, i);
        ghost var o := ClaimOne(invs0[i], products, userId, now);
        assert ClaimUpTo(invs0, products, userId, now, i + 1) == Claim(c.invs[i := o.inv], c.payouts + o.payouts, c.total + o.total);
        if inv.userId == userId && !inv.finished && inv.productId in products {
          var prod := products[inv.productId];
          if inv.nextPayoutAt.None? {
            inv := inv.(nextPayoutAt := Some(inv.startAt + DAY));
          }
          assert inv == Prepare(invs0[i]);
          var paid;
          inv, payouts, paid := CatchUp(payouts, userId, prod, inv, now);
          assert inv == o.inv && paid == o.total && payouts == c.payouts + o.payouts;
          totalPaid := totalPaid + paid;
          invs := invs[i := inv];
        } else {
          assert o == Outcome(inv, [], 0);
          assert c.invs[i := o.inv] == c.invs;
          assert c.payouts + o.payouts == c.payouts;
          assert o.total == 0;
        }
        i := i + 1;
      }
  }

  class Store {
    var users: map<UserId, User>
    var products: map<ProductId, Product>
    /** Investments in creation order; an investment's identity is its position. */
    var investments: seq<Investment>
    /** The transaction ledger in creation order; a transaction's id is its position. */
    var txs: seq<Tx>

    /** Every balance is the sum of the user's successful transactions. */
    ghost predicate Reconciled()
      reads this
    {
      forall u :: u in users ==> users[u].saldo == Net(txs, u)
    }

    /** The store's invariant: the catalog is well formed, every investment refers to
        a product of the catalog and keeps its schedule invariant, and the ledger
        justifies every balance. */
    ghost predicate Valid()
      reads this
    {
      && (forall id :: id in products ==> ValidProduct(products[id]))
      && (forall i :: 0 <= i < |investments| ==>
            investments[i].productId in products &&
            Consistent(investments[i], products[investments[i].productId]))
      && Reconciled()
    }

    /** A store whose registered users all start with a zero balance and no bank
        account, with an empty catalog, no investments and an empty ledger. */
    constructor (accounts: set<UserId>)
      ensures Valid()
      ensures users == map u | u in accounts :: User(0, None)
      ensures products == map[] && investments == [] && txs == []
    {
      users := map u | u in accounts :: User(0, None);
      products := map[];
      investments := [];
      txs := [];
    }

    /** Seeds the eleven catalog products, with ids 0 to 10, when the catalog is empty. */
    method SeedProductsIfEmpty()
      requires Valid()
      modifies this
      ensures Valid()
      ensures products == if |old(products)| > 0 then old(products)
                          else map i | 0 <= i < |SeedCatalog()| :: SeedCatalog()[i]
      ensures users == old(users) && investments == old(investments) && txs == old(txs)
    {
      if |products| > 0 {
        return;
      }
      var list := SeedCatalog();
      products := map i | 0 <= i < |list| :: list[i];
    }

    /** Saves the user's bank account; every field is required. An unknown user is
        silently left untouched. */
    method SaveBankAccount(userId: UserId, kind: string, number: string, name: string) returns (r: Result<()>)
      requires Valid()
      modifies this
      ensures Valid()
      ensures r.Ok? <==> kind != "" && number != "" && name != ""
      ensures r.Err? ==> r.error == Validation
      ensures users == if r.Ok? && userId in old(users)
                       then old(users)[userId := old(users)[userId].(rekening := Some(BankAccount(kind, number, name)))]
                       else old(users)
      ensures products == old(products) && investments == old(investments) && txs == old(txs)
    {
      if kind == "" || number == "" || name == "" {
        return Err(Validation);
      }
      if userId in users {
        users := users[userId := users[userId].(rekening := Some(BankAccount(kind, number, name)))];
      }
      r := Ok(());
    }

    /** The lazy payout claim for `userId` at time `now`: every unfinished investment
        of the user whose product exists is caught up day by day and saved; the
        payout records are appended in order; the balance is credited once with the
        grand total, and only when it is positive. */
    method ClaimDailyPayouts(userId: UserId, now: int) returns (totalPaid: nat)
      requires Valid()
      modifies this
      ensures Valid()
      ensures var c := ClaimAll(old(investments), old(products), userId, now);
        investments == c.invs && txs == old(txs) + c.payouts && totalPaid == c.total
      ensures users == if totalPaid > 0 && userId in old(users)
                       then old(users)[userId := old(users)[userId].(saldo := old(users)[userId].saldo + totalPaid)]
                       else old(users)
      ensures products == old(products)
    {
      var invs, payouts;
      invs, payouts, totalPaid := AccruePayouts(investments, products, userId, now);
      investments, txs := invs, txs + payouts;
      if totalPaid > 0 && userId in users {
        users := users[userId := users[userId].(saldo := users[userId].saldo + totalPaid)];
      }
      ClaimKeepsValid(old(investments), old(txs), old(users), userId, now);
    }

    /** The new state ClaimDailyPayouts computes from a valid one is valid again. */
    lemma ClaimKeepsValid(invs0: seq<Investment>, txs0: seq<Tx>, users0: map<UserId, User>, userId: UserId, now: int)
      requires var c := ClaimAll(invs0, products, userId, now);
        investments == c.invs && txs == txs0 + c.payouts
        && users == if c.total > 0 && userId in users0
                    then users0[userId := users0[userId].(saldo := users0[userId].saldo + c.total)]
                    else users0
      requires forall id :: id in products ==> ValidProduct(products[id])
      requires forall i :: 0 <= i < |invs0| ==>
            invs0[i].productId in products && Consistent(invs0[i], products[invs0[i].productId])
      requires forall u :: u in users0 ==> users0[u].saldo == Net(txs0, u)
      ensures Valid()
    {
      var c := ClaimAll(invs0, products, userId, now);
      forall i | 0 <= i < |investments|
        ensures investments[i].productId in products
        ensures Consistent(investments[i], products[investments[i].productId])
      {
        ClaimOneKeepsConsistent(invs0[i], products, userId, now);
      }
      forall u | u in users ensures users[u].saldo == Net(txs, u) {
        NetConcat(txs0, c.payouts, u);
        ClaimNet(invs0, products, userId, now, |invs0|, u);
      }
    }

    /** Buying a product: it must exist, and the buyer's balance must cover its price.
        On success the price is debited, an investment is opened with nothing paid and
        no payout scheduled yet, and a successful `buy` record of the price is
        appended. On failure nothing changes. */
    method BuyProduct(userId: UserId, productId: ProductId, now: int) returns (r: Result<()>)
      requires Valid()
      modifies this
      ensures Valid()
      ensures productId !in products ==> r == Err(NotFound)
      ensures productId in products && userId !in old(users) ==> r == Err(UnknownUser)
      ensures (productId in products && userId in old(users) && old(users)[userId].saldo < products[productId].price)
              ==> r == Err(InsufficientFunds)
      ensures r.Ok? <==> productId in products && userId in old(users) && old(users)[userId].saldo >= products[productId].price
      ensures r.Err? ==> users == old(users) && investments == old(investments) && txs == old(txs)
      ensures r.Ok? ==>
        var p := products[productId];
        var buyer := old(users)[userId];
        && users == old(users)[userId := buyer.(saldo := buyer.saldo - p.price)]
        && investments == old(investments) + [Investment(userId, productId, now, 0, None, false)]
        && txs == old(txs) + [Tx(userId, Buy, p.price, Success, "Beli " + p.name, now)]
      ensures products == old(products)
    {
      if productId !in products {
        return Err(NotFound);
      }
      var prod := products[productId];
      if userId !in users {
        return Err(UnknownUser);
      }
      var user := users[userId];
      if user.saldo < prod.price {
        return Err(InsufficientFunds);
      }
      users := users[userId := user.(saldo := user.saldo - prod.price)];
      investments := investments + [Investment(userId, productId, now, 0, None, false)];
      var t := Tx(userId, Buy, prod.price, Success, "Beli " + prod.name, now);
      forall u | u in users ensures users[u].saldo == Net(txs + [t], u) {
        NetSnoc(txs, t, u);
      }
      txs := txs + [t];
      r := Ok(());
    }

    /** A top-up request: at least MIN_AMOUNT, recorded as a pending `topup` whose note
        names the payment method (SeaBank when none is given). The balance is only
        credited when an admin confirms. Returns the new record's id. */
    method RequestTopup(userId: UserId, amount: nat, payMethod: string, now: int) returns (r: Result<TxId>)
      requires Valid()
      modifies this
      ensures Valid()
      ensures r.Ok? <==> amount >= MIN_AMOUNT
      ensures r.Err? ==> r.error == Validation && txs == old(txs)
      ensures r.Ok? ==>
        && r.value == |old(txs)|
        && txs == old(txs) + [Tx(userId, Topup, amount, Pending,
                                 "Metode: " + (if payMethod == "" then "seabank" else payMethod), now)]
      ensures users == old(users) && products == old(products) && investments == old(investments)
    {
      if amount < MIN_AMOUNT {
        return Err(Validation);
      }
      var t := Tx(userId, Topup, amount, Pending, "Metode: " + (if payMethod == "" then "seabank" else payMethod), now);
      forall u | u in users ensures users[u].saldo == Net(txs + [t], u) {
        NetSnoc(txs, t, u);
      }
      r := Ok(|txs|);
      txs := txs + [t];
    }

    /** A withdrawal request: the user needs a saved bank account, at least MIN_AMOUNT
        and a balance that covers it; checked in that order. It is recorded as a
        pending `withdraw` addressed to the account; the balance is only debited when
        an admin confirms. Returns the new record's id. */
    method RequestWithdraw(userId: UserId, amount: nat, now: int) returns (r: Result<TxId>)
      requires Valid()
      modifies this
      ensures Valid()
      ensures userId !in old(users) ==> r == Err(UnknownUser)
      ensures userId in old(users) && old(users)[userId].rekening.None? ==> r == Err(NoBankAccount)
      ensures userId in old(users) && old(users)[userId].rekening.Some? && amount < MIN_AMOUNT ==> r == Err(Validation)
      ensures (userId in old(users) && old(users)[userId].rekening.Some? && amount >= MIN_AMOUNT
               && old(users)[userId].saldo < amount) ==> r == Err(InsufficientFunds)
      ensures r.Ok? <==> userId in old(users) && old(users)[userId].rekening.Some?
                         && amount >= MIN_AMOUNT && old(users)[userId].saldo >= amount
      ensures r.Err? ==> txs == old(txs)
      ensures r.Ok? ==>
        var acct := old(users)[userId].rekening.value;
        && r.value == |old(txs)|
        && txs == old(txs) + [Tx(userId, Withdraw, amount, Pending,
                              "Tarik ke " + acct.kind + " • " + acct.number + " • " + acct.name, now)]
      ensures users == old(users) && products == old(products) && investments == old(investments)
    {
      if userId !in users {
        return Err(UnknownUser);
      }
      var user := users[userId];
      if user.rekening.None? {
        return Err(NoBankAccount);
      }
      if amount < MIN_AMOUNT {
        return Err(Validation);
      }
      if user.saldo < amount {
        return Err(InsufficientFunds);
      }
      var acct := user.rekening.value;
      var t := Tx(userId, Withdraw, amount, Pending, "Tarik ke " + acct.kind + " • " + acct.number + " • " + acct.name, now);
      forall u | u in users ensures users[u].saldo == Net(txs + [t], u) {
        NetSnoc(txs, t, u);
      }
      r := Ok(|txs|);
      txs := txs + [t];
    }

    /** Admin confirmation of a pending top-up: credits its amount to its owner (if the
        owner still exists) and marks it successful. */
    method ConfirmTopup(id: TxId) returns (r: Result<()>)
      requires Valid()
      modifies this
      ensures Valid()
      ensures r.Ok? <==> CheckPending(old(txs), id, Topup).Ok?
      ensures r.Err? ==> r.error == CheckPending(old(txs), id, Topup).error
                         && users == old(users) && txs == old(txs)
      ensures r.Ok? ==>
        var t := old(txs)[id];
        && txs == old(txs)[id := t.(status := Success, note := t.note + " | confirmed")]
        && users == if t.userId in old(users)
                    then old(users)[t.userId := old(users)[t.userId].(saldo := old(users)[t.userId].saldo + t.amount)]
                    else old(users)
      ensures products == old(products) && investments == old(investments)
    {
      var found := CheckPending(txs, id, Topup);
      if found.Err? {
        return Err(found.error);
      }
      var t := found.value;
      if t.userId in users {
        users := users[t.userId := users[t.userId].(saldo := users[t.userId].saldo + t.amount)];
      }
      var t' := t.(status := Success, note := t.note + " | confirmed");
      forall u | u in users ensures users[u].saldo == Net(txs[id := t'], u) {
        NetUpdate(txs, id, t', u);
      }
      txs := txs[id := t'];
      r := Ok(());
    }

    /** Admin rejection of a pending top-up: marks it failed; no balance changes. */
    method RejectTopup(id: TxId) returns (r: Result<()>)
      requires Valid()
      modifies this
      ensures Valid()
      ensures r.Ok? <==> CheckPending(old(txs), id, Topup).Ok?
      ensures r.Err? ==> r.error == CheckPending(old(txs), id, Topup).error && txs == old(txs)
      ensures r.Ok? ==>
        var t := old(txs)[id];
        txs == old(txs)[id := t.(status := Failed, note := t.note + " | rejected")]
      ensures users == old(users) && products == old(products) && investments == old(investments)
    {
      var found := CheckPending(txs, id, Topup);
      if found.Err? {
        return Err(found.error);
      }
      var t := found.value;
      var t' := t.(status := Failed, note := t.note + " | rejected");
      forall u | u in users ensures users[u].saldo == Net(txs[id := t'], u) {
        NetUpdate(txs, id, t', u);
      }
      txs := txs[id := t'];
      r := Ok(());
    }

    /** Admin confirmation of a pending withdrawal: its owner must exist and still
        have a balance that covers it; then the amount is debited and the record
        marked paid. On any failure nothing changes. */
    method ConfirmWithdraw(id: TxId) returns (r: Result<()>)
      requires Valid()
      modifies this
      ensures Valid()
      ensures CheckPending(old(txs), id, Withdraw).Err? ==> r == Err(CheckPending(old(txs), id, Withdraw).error)
      ensures CheckPending(old(txs), id, Withdraw).Ok? && old(txs)[id].userId !in old(users) ==> r == Err(UnknownUser)
      ensures (CheckPending(old(txs), id, Withdraw).Ok? && old(txs)[id].userId in old(users)
               && old(users)[old(txs)[id].userId].saldo < old(txs)[id].amount) ==> r == Err(InsufficientFunds)
      ensures r.Ok? <==> CheckPending(old(txs), id, Withdraw).Ok? && old(txs)[id].userId in old(users)
                         && old(users)[old(txs)[id].userId].saldo >= old(txs)[id].amount
      ensures r.Err? ==> users == old(users) && txs == old(txs)
      ensures r.Ok? ==>
        var t := old(txs)[id];
        var owner := old(users)[t.userId];
        && txs == old(txs)[id := t.(status := Success, note := t.note + " | paid")]
        && users == old(users)[t.userId := owner.(saldo := owner.saldo - t.amount)]
      ensures products == old(products) && investments == old(investments)
    {
      var found := CheckPending(txs, id, Withdraw);
      if found.Err? {
        return Err(found.error);
      }
      var t := found.value;
      if t.userId !in users {
        return Err(UnknownUser);
      }
      var owner := users[t.userId];
      if owner.saldo < t.amount {
        return Err(InsufficientFunds);
      }
      users := users[t.userId := owner.(saldo := owner.saldo - t.amount)];
      var t' := t.(status := Success, note := t.note + " | paid");
      forall u | u in users ensures users[u].saldo == Net(txs[id := t'], u) {
        NetUpdate(txs, id, t', u);
      }
      txs := txs[id := t'];
      r := Ok(());
    }

    /** Admin rejection of a pending withdrawal: marks it failed; no balance changes. */
    method RejectWithdraw(id: TxId) returns (r: Result<()>)
      requires Valid()
      modifies this
      ensures Valid()
      ensures r.Ok? <==> CheckPending(old(txs), id, Withdraw).Ok?
      ensures r.Err? ==> r.error == CheckPending(old(txs), id, Withdraw).error && txs == old(txs)
      ensures r.Ok? ==>
        var t := old(txs)[id];
        txs == old(txs)[id := t.(status := Failed, note := t.note + " | rejected")]
      ensures users == old(users) && products == old(products) && investments == old(investments)
    {
      var found := CheckPending(txs, id, Withdraw);
      if found.Err? {
        return Err(found.error);
      }
      var t := found.value;
      var t' := t.(status := Failed, note := t.note + " | rejected");
      forall u | u in users ensures users[u].saldo == Net(txs[id := t'], u) {
        NetUpdate(txs, id, t', u);
      }
      txs := txs[id := t'];
      r := Ok(());
    }
  }
}

/** Concrete walks through the API with the seeded catalog. */
module Scenario {
  import opened Ledger
  import opened Catalog
  import opened Accrual
  import opened Wallet

  /** A user tops up 500.000, an admin confirms it (a second confirmation is
      refused), and the user buys Paket C for 200.000. */
  method BuyFlow() {
    var store := new Store({7});
    store.SeedProductsIfEmpty();
    var catalog := SeedCatalog();
    assert store.products == map i | 0 <= i < |catalog| :: catalog[i];
    assert 2 in store.products && store.products[2] == catalog[2];
    var topup := store.RequestTopup(7, 500_000, "", 0);
    var confirmed := store.ConfirmTopup(topup.value);
    assert store.users[7].saldo == 500_000;
    var again := store.ConfirmTopup(topup.value);
    assert again == Err(AlreadyProcessed);
    var bought := store.BuyProduct(7, 2, 10);
    assert store.products[2] == WithTotal(SeedEntries[2]);
    assert store.products[2].price == 200_000;
    assert bought.Ok? && store.users[7].saldo == 300_000;
    assert store.investments == [Investment(7, 2, 10, 0, None, false)];
  }

  /** Paket C bought at time 10 and claimed three days later: three payouts of 6.500,
      and the investment keeps running. */
  lemma ThreeDaysAfterPurchase()
    ensures var products := map[2 := WithTotal(SeedEntries[2])];
      var c := ClaimAll([Investment(7, 2, 10, 0, None, false)], products, 7, 10 + 3 * DAY);
      && c.total == 19_500 && c.payouts == Repeat(PayoutTx(7, products[2], 10 + 3 * DAY), 3)
      && c.invs == [Investment(7, 2, 10, 3, Some(10 + 4 * DAY), false)]
  {
    var products := map[2 := WithTotal(SeedEntries[2])];
    var inv := Investment(7, 2, 10, 0, None, false);
    FreshCatchUp(inv, products, 7, 10 + 3 * DAY);
    AccrueCount(Prepare(inv), products[2], 10 + 3 * DAY);
    assert DueCount(10, 10 + 3 * DAY) == 3;
  }
}
