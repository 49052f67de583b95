/**
 * The economy as the services run it: one object holding the tables, whose
 * methods update them in place the way the controllers and services do, and
 * an outbox standing for the notifications sent over the user channels.
 * Every method is proved to do exactly what its operation's specification
 * function says, so the properties proved about those functions hold of it.
 */
module Economy {
  import opened Wrappers
  import opened Entities
  import opened Ledger
  import opened FixedPoint
  import Admin
  import Transactions
  import GameStore
  import Progression
  import Packages

  class Economy {
    var users: map<int, User>
    var txs: map<int, Tx>
    var purchases: map<int, Purchase>
    const items: map<int, StoreItem>
    const packages: map<int, Package>
    var nextTxId: int
    var nextPurchaseId: int
    /** Every notification pushed so far, oldest first. */
    var outbox: seq<Event>

    /** The tables as one value. */
    function Tables(): State
      reads this
    {
      State(users, txs, purchases, items, packages, nextTxId, nextPurchaseId)
    }

    predicate Valid()
      reads this
    {
      Ledger.Valid(Tables()) && OpenDepositsUnique(Tables())
    }

    /** The registered accounts and the seeded catalogue and packages; no transaction or purchase yet. */
    constructor (users: map<int, User>, items: map<int, StoreItem>, packages: map<int, Package>)
      requires Ledger.Valid(State(users, map[], map[], items, packages, 0, 0))
      ensures Tables() == State(users, map[], map[], items, packages, 0, 0) && outbox == []
      ensures Valid()
    {
      this.users := users;
      this.txs := map[];
      this.purchases := map[];
      this.items := items;
      this.packages := packages;
      this.nextTxId := 0;
      this.nextPurchaseId := 0;
      this.outbox := [];
    }

    // ------------------------------------------------------------ admin

    /** `PATCH admin/transactions/:id/confirm`. */
    method Confirm(id: int) returns (r: Result<TxStatus, Error>)
      requires Valid()
      modifies this
      ensures Valid()
      ensures var o := Admin.Confirm(old(Tables()), id);
        r == o.result && Tables() == o.state && outbox == old(outbox) + o.events
    {
      ghost var s := Tables();
      ghost var after := Admin.Confirm(s, id).state;
      assert Ledger.Valid(after) && OpenDepositsUnique(after) by {
        Admin.ConfirmKeepsInvariants(s, id);
      }
      if !(id in txs && txs[id].status == Created) {
        return Failure(TxNotFound);
      }
      txs := txs[id := txs[id].(status := Pending)];
      r := Success(Pending);
    }

    /** `DELETE admin/transactions/:id/cancel`: no refund. */
    method Cancel(id: int) returns (r: Result<(), Error>)
      requires Valid()
      modifies this
      ensures Valid()
      ensures var o := Admin.Cancel(old(Tables()), id);
        r == o.result && Tables() == o.state && outbox == old(outbox) + o.events
    {
      ghost var s := Tables();
      ghost var after := Admin.Cancel(s, id).state;
      assert Ledger.Valid(after) && OpenDepositsUnique(after) by {
        Admin.CancelKeepsInvariants(s, id);
      }
      if !(id in txs && txs[id].status == Pending) {
        return Failure(TxNotFound);
      }
      txs := txs - {id};
      r := Success(());
    }

    /** `PATCH admin/transactions/:id/approve`: a deposit is credited to its owner. */
    method Approve(id: int) returns (r: Result<TxStatus, Error>)
      requires Valid()
      modifies this
      ensures Valid()
      ensures var o := Admin.Approve(old(Tables()), id);
        r == o.result && Tables() == o.state && outbox == old(outbox) + o.events
    {
      ghost var s := Tables();
      ghost var after := Admin.Approve(s, id).state;
      assert Ledger.Valid(after) && OpenDepositsUnique(after) by {
        Admin.ApproveKeepsInvariants(s, id);
      }
      if !(id in txs && txs[id].status == Pending) {
        return Failure(TxNotFound);
      }
      var t := txs[id];
      if t.userId !in users {
        return Failure(UserNotFound);
      }
      var owner := users[t.userId];
      var moved := t.kind == Deposit;
      var owner' := if moved then owner.(balance := owner.balance + t.amount) else owner;
      users, txs := users[t.userId := owner'], txs[id := t.(status := Approved)];
      outbox := outbox + (if moved then [BalanceUpdate(t.userId, owner'.balance)] else [])
                       + [TransactionUpdate(t.userId, id, Approved)];
      assert Tables() == Admin.Settle(s, id, Approved, Deposit).state;
      r := Success(Approved);
    }

    /** `PATCH admin/transactions/:id/reject`: a withdrawal is refunded to its owner. */
    method Reject(id: int) returns (r: Result<TxStatus, Error>)
      requires Valid()
      modifies this
      ensures Valid()
      ensures var o := Admin.Reject(old(Tables()), id);
        r == o.result && Tables() == o.state && outbox == old(outbox) + o.events
    {
      ghost var s := Tables();
      ghost var after := Admin.Reject(s, id).state;
      assert Ledger.Valid(after) && OpenDepositsUnique(after) by {
        Admin.RejectKeepsInvariants(s, id);
      }
      if !(id in txs && txs[id].status == Pending) {
        return Failure(TxNotFound);
      }
      var t := txs[id];
      if t.userId !in users {
        return Failure(UserNotFound);
      }
      var owner := users[t.userId];
      var moved := t.kind == Withdrawal;
      var owner' := if moved then owner.(balance := owner.balance + t.amount) else owner;
      users, txs := users[t.userId := owner'], txs[id := t.(status := Rejected)];
      outbox := outbox + (if moved then [BalanceUpdate(t.userId, owner'.balance)] else [])
                       + [TransactionUpdate(t.userId, id, Rejected)];
      assert Tables() == Admin.Settle(s, id, Rejected, Withdrawal).state;
      r := Success(Rejected);
    }

    // ----------------------------------------------------- transactions

    /** `POST transactions/deposit`; `rate` is what the price service answered. */
    method CreateDeposit(userId: int, amount: int, payMethod: Option<TxMethod>, rate: Option<int>, now: int)
      returns (r: Result<Transactions.DepositReceipt, Error>)
      requires Valid()
      modifies this
      ensures Valid()
      ensures var o := Transactions.CreateDeposit(old(Tables()), userId, amount, payMethod, rate, now);
        r == o.result && Tables() == o.state && outbox == old(outbox) + o.events
    {
      ghost var s := Tables();
      ghost var after := Transactions.CreateDeposit(s, userId, amount, payMethod, rate, now).state;
      assert Ledger.Valid(after) && OpenDepositsUnique(after) by {
        Transactions.CreateDepositKeepsInvariants(s, userId, amount, payMethod, rate, now);
      }
      if amount <= 0 {
        return Failure(InvalidAmount);
      }
      if payMethod != Some(Tonkeeper) {
        return Failure(UnsupportedMethod);
      }
      if HasCreatedDeposit(Tables(), userId) {
        return Failure(DuplicateActiveDeposit);
      }
      if userId !in users {
        return Failure(UserNotFound);
      }
      if rate.None? || rate.value == 0 {
        return Failure(RateUnavailable);
      }
      var ton := Transactions.TonAmount(amount, rate.value);
      var id := nextTxId;
      txs := txs[id := Tx(userId, Deposit, amount, Some(Tonkeeper), Created, Some(ton), None, None, now)];
      nextTxId := nextTxId + 1;
      r := Success(Transactions.DepositReceipt(id, ton, Created));
    }

    /** `POST transactions/withdraw`: the amount is reserved at once. */
    method RequestWithdrawal(userId: int, amount: int, payMethod: Option<TxMethod>, recipient: Option<string>, now: int)
      returns (r: Result<Transactions.WithdrawalReceipt, Error>)
      requires Valid()
      modifies this
      ensures Valid()
      ensures var o := Transactions.RequestWithdrawal(old(Tables()), userId, amount, payMethod, recipient, now);
        r == o.result && Tables() == o.state && outbox == old(outbox) + o.events
    {
      ghost var s := Tables();
      ghost var after := Transactions.RequestWithdrawal(s, userId, amount, payMethod, recipient, now).state;
      assert Ledger.Valid(after) && OpenDepositsUnique(after) by {
        Transactions.RequestWithdrawalKeepsInvariants(s, userId, amount, payMethod, recipient, now);
      }
      if amount <= 0 {
        return Failure(InvalidAmount);
      }
      if payMethod != Some(Card) {
        return Failure(UnsupportedMethod);
      }
      if Transactions.RecipientMissing(recipient) {
        return Failure(MissingRecipient);
      }
      if userId !in users {
        return Failure(UserNotFound);
      }
      if users[userId].balance < amount {
        return Failure(InsufficientFunds);
      }
      Withdraw(userId, amount, recipient, now);
      r := Success(Transactions.WithdrawalReceipt(amount, recipient.value, Pending));
    }

    /** The accepted withdrawal: the balance is debited and the PENDING card row is inserted. */
    method Withdraw(userId: int, amount: int, recipient: Option<string>, now: int)
      requires userId in users
      modifies this
      ensures Tables() == Transactions.Withdrawn(old(Tables()), userId, amount, recipient, now)
      ensures outbox == old(outbox)
    {
      var u := users[userId];
      users := users[userId := u.(balance := u.balance - amount)];
      txs := txs[nextTxId := Tx(userId, Withdrawal, amount, Some(Card), Pending, None, recipient, None, now)];
      nextTxId := nextTxId + 1;
    }

    /** `DELETE transactions/:id/cancel`: only the caller's own unpaid deposit. */
    method CancelDeposit(userId: int, id: int) returns (r: Result<(), Error>)
      requires Valid()
      modifies this
      ensures Valid()
      ensures var o := Transactions.CancelDeposit(old(Tables()), userId, id);
        r == o.result && Tables() == o.state && outbox == old(outbox) + o.events
    {
      ghost var s := Tables();
      ghost var after := Transactions.CancelDeposit(s, userId, id).state;
      assert Ledger.Valid(after) && OpenDepositsUnique(after) by {
        Transactions.CancelDepositKeepsInvariants(s, userId, id);
      }
      if !(id in txs && txs[id].userId == userId && txs[id].kind == Deposit && txs[id].status == Created) {
        return Failure(TxNotFound);
      }
      txs := txs - {id};
      r := Success(());
    }

    // ------------------------------------------------------- game store

    /** The refusals of `buyItem`, in the handler's order; Success when the purchase may go ahead. */
    method CheckPurchase(userId: int, itemId: int, now: int) returns (r: Result<(), Error>)
      ensures r == GameStore.BuyItem(Tables(), userId, itemId, now).result
    {
      if userId !in users {
        return Failure(UserNotFound);
      }
      if itemId !in items {
        return Failure(ItemNotFound);
      }
      var u, item := users[userId], items[itemId];
      if u.gameBalance < item.price * 100 {
        return Failure(InsufficientFunds);
      }
      if item.kind == ReferralLimitBoost {
        if PackageOf(Tables(), u).None? {
          return Failure(NoActivePackage);
        }
        if GameStore.OwnsBoost(Tables(), userId) {
          return Failure(BoostAlreadyOwned);
        }
      }
      if item.kind == Multiplier && HasActiveMultiplier(Tables(), userId, now) {
        return Failure(ActiveMultiplierExists);
      }
      if item.kind == Skin {
        var inOrder := GameStore.IsNextSkinInCatalogue(items, u.skinId, itemId);
        if !inOrder {
          return Failure(OutOfSequence);
        }
      }
      r := Success(());
    }

    /** `buyItem`: the checks, then the account update and the purchase row. */
    method BuyItem(userId: int, itemId: int, now: int) returns (r: Result<(), Error>)
      requires Valid()
      modifies this
      ensures Valid()
      ensures var o := GameStore.BuyItem(old(Tables()), userId, itemId, now);
        r == o.result && Tables() == o.state && outbox == old(outbox) + o.events
    {
      ghost var s := Tables();
      ghost var after := GameStore.BuyItem(s, userId, itemId, now).state;
      assert Ledger.Valid(after) && OpenDepositsUnique(after) by {
        GameStore.BuyItemKeepsInvariants(s, userId, itemId, now);
      }
      r := CheckPurchase(userId, itemId, now);
      if r.Failure? {
        return;
      }
      RecordPurchase(userId, itemId, now);
    }

    /** The accepted purchase: the account is debited and upgraded, and the purchase row is stored. */
    method RecordPurchase(userId: int, itemId: int, now: int)
      requires userId in users && itemId in items
      requires items[itemId].kind == ReferralLimitBoost ==> PackageOf(Tables(), users[userId]).Some?
      modifies this
      ensures var s := old(Tables());
        Tables() == AddPurchase(s.(users := s.users[userId := GameStore.Bought(s, s.users[userId], itemId)]),
                                Purchase(userId, itemId, now, GameStore.ExpiryFor(s.items[itemId], now)))
      ensures outbox == old(outbox)
    {
      ghost var s := Tables();
      var u, item := users[userId], items[itemId];
      if item.kind == ReferralLimitBoost {
        var limit := packages[u.packageId.value].earningsLimit;
        u := u.(personalEarningsLimit := GameStore.BoostedLimit(u.personalEarningsLimit, limit, item.bonus));
      }
      if item.kind == Skin {
        u := u.(skinId := itemId);
      }
      u := u.(gameBalance := u.gameBalance - item.price * 100);
      assert u == GameStore.Bought(s, s.users[userId], itemId);
      users := users[userId := u];
      purchases := purchases[nextPurchaseId := Purchase(userId, itemId, now, GameStore.ExpiryFor(item, now))];
      nextPurchaseId := nextPurchaseId + 1;
    }

    /** `checkExpiredBoosters`: removes the expired purchases of uid one by one. */
    method CheckExpiredBoosters(uid: int, now: int)
      requires Valid()
      modifies this
      ensures Valid()
      ensures var o := GameStore.CheckExpiredBoosters(old(Tables()), uid, now);
        Tables() == o.state && outbox == old(outbox) + o.events
    {
      ghost var s := Tables();
      ghost var after := GameStore.CheckExpiredBoosters(s, uid, now).state;
      assert Ledger.Valid(after) && OpenDepositsUnique(after) by {
        GameStore.CheckExpiredKeepsInvariants(s, uid, now);
      }
      var kept, found := ExpiredPurchases(uid, now);
      if found {
        outbox := outbox + [BoosterExpired(uid)];
        purchases := kept;
      } else {
        assert forall k :: k in s.purchases ==> k in kept && kept[k] == s.purchases[k];
        assert kept == purchases;
      }
    }

    /**
     * The `find` of the sweep, one row at a time: the purchases that survive,
     * and whether any of uid's had expired.
     */
    method ExpiredPurchases(uid: int, now: int) returns (kept: map<int, Purchase>, found: bool)
      ensures kept == GameStore.CheckExpiredBoosters(Tables(), uid, now).state.purchases
      ensures found <==> exists k :: k in purchases && GameStore.Expired(Tables(), k, uid, now)
    {
      var s := Tables();
      var todo := purchases.Keys;
      kept := purchases;
      found := false;
      while todo != {}
        invariant todo <= s.purchases.Keys && kept.Keys <= s.purchases.Keys
        invariant forall k :: k in s.purchases ==> (k in kept <==> k in todo || !GameStore.Expired(s, k, uid, now))
        invariant forall k :: k in kept ==> kept[k] == s.purchases[k]
        invariant found <==> exists k :: k in s.purchases && k !in todo && GameStore.Expired(s, k, uid, now)
        decreases |todo|
      {
        GameStore.NonEmpty(todo);
        var k :| k in todo;
        var p := purchases[k];
        if p.userId == uid && p.expiresAt.Some? && p.expiresAt.value < now {
          kept := kept - {k};
          found := true;
        }
        todo := todo - {k};
      }
      ghost var o := GameStore.CheckExpiredBoosters(s, uid, now);
      assert forall k :: k in s.purchases ==> (k in kept <==> k in o.state.purchases);
      assert kept.Keys == o.state.purchases.Keys;
    }

    // ------------------------------------------------------------ click

    /** `handleClick`: the multipliers are looked up, then clicks, balance and level are updated in turn. */
    method HandleClick(userId: int, now: int) returns (r: Progression.ClickResult)
      requires Valid()
      modifies this
      ensures Valid()
      ensures var o := Progression.HandleClick(old(Tables()), userId, now);
        o.result == Success(r) && Tables() == o.state && outbox == old(outbox) + o.events
    {
      ghost var s := Tables();
      ghost var after := Progression.HandleClick(s, userId, now).state;
      assert Ledger.Valid(after) && OpenDepositsUnique(after) by {
        Progression.HandleClickKeepsInvariants(s, userId, now);
      }
      if userId !in users {
        return Progression.ClickResult(0, 10000);
      }
      var u := users[userId];
      var skin := Progression.SkinMultiplier(Tables(), u);
      var boost := RunningMultiplier(userId, now);
      var clickValue := skin * boost;
      var clicks := u.clicks + 1;
      var gameBalance := RoundHalfAway(100 * u.gameBalance + clickValue, 100);
      var level := u.level;
      if clicks >= Progression.LevelThreshold(u.level) {
        level := u.level + 1;
        var bonus := u.level * 1000;
        gameBalance := gameBalance + bonus;
        outbox := outbox + [LevelUp(userId, level, gameBalance, bonus)];
      }
      assert u.(clicks := clicks, gameBalance := gameBalance, level := level) == Progression.Click(u, clickValue);
      users := users[userId := u.(clicks := clicks, gameBalance := gameBalance, level := level)];
      r := Progression.ClickResult(gameBalance, clickValue);
    }

    /** The `findOne` for a running multiplier, scanning purchases in id order; 1.0 when none runs. */
    method RunningMultiplier(userId: int, now: int) returns (boost: int)
      requires Valid()
      ensures boost == Progression.BoostMultiplier(Tables(), userId, now)
    {
      var k := 0;
      while k < nextPurchaseId && !IsActiveMultiplier(Tables(), k, userId, now)
        invariant 0 <= k <= nextPurchaseId
        invariant Progression.FirstActiveMultiplier(Tables(), userId, now, k)
               == Progression.FirstActiveMultiplier(Tables(), userId, now, 0)
        decreases nextPurchaseId - k
      {
        k := k + 1;
      }
      boost := if k < nextPurchaseId then items[purchases[k].itemId].multiplier.GetOr(100) else 100;
    }

    // --------------------------------------------------------- packages

    /** `POST packages/buy`: the buyer pays, then the referrer may be paid its bonus. */
    method BuyPackage(userId: int, packageId: int, now: int) returns (r: Result<string, Error>)
      requires Valid()
      modifies this
      ensures Valid()
      ensures var o := Packages.BuyPackage(old(Tables()), userId, packageId, now);
        r == o.result && Tables() == o.state && outbox == old(outbox) + o.events
    {
      ghost var s := Tables();
      ghost var after := Packages.BuyPackage(s, userId, packageId, now).state;
      assert Ledger.Valid(after) && OpenDepositsUnique(after) by {
        Packages.BuyPackageKeepsInvariants(s, userId, packageId, now);
      }
      if userId !in users {
        return Failure(UserNotFound);
      }
      var u := users[userId];
      if PackageOf(Tables(), u).Some? {
        return Failure(AlreadyHasPackage);
      }
      if packageId !in packages {
        return Failure(PackageNotFound);
      }
      var p := packages[packageId];
      if u.balance < p.price {
        return Failure(InsufficientFunds);
      }
      RecordPackagePurchase(userId, packageId, now);
      PayReferralBonus(userId, p.referralBonus, now);
      r := Success(p.name);
    }

    /** The buyer's side of `buyPackage`: debited, given the package, and an APPROVED purchase row saved. */
    method RecordPackagePurchase(userId: int, packageId: int, now: int)
      requires userId in users && packageId in packages
      modifies this
      ensures Tables() == Packages.Purchased(old(Tables()), userId, packageId, now)
      ensures outbox == old(outbox)
    {
      var u, p := users[userId], packages[packageId];
      users := users[userId := u.(balance := u.balance - p.price, packageId := Some(packageId))];
      txs := txs[nextTxId := Tx(userId, PackagePurchase, p.price, None, Approved, None, None, None, now)];
      nextTxId := nextTxId + 1;
    }

    /** The referral branch of `buyPackage`: the referrer is credited when its cap is not reached. */
    method PayReferralBonus(buyerId: int, bonus: int, now: int)
      requires buyerId in users
      modifies this
      ensures Tables() == Packages.PayReferralBonus(old(Tables()), buyerId, bonus, now)
      ensures outbox == old(outbox)
    {
      if Packages.BonusDue(Tables(), users[buyerId]) {
        var referrerId := users[buyerId].referrerId.value;
        var referrer := users[referrerId];
        users := users[referrerId := referrer.(balance := referrer.balance + bonus)];
        txs := txs[nextTxId := NewTx(referrerId, ReferralBonus, bonus, now).(referralId := Some(buyerId))];
        nextTxId := nextTxId + 1;
      }
    }
  }
}
