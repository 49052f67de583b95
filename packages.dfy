/**
 * Buying a referral package with real balance, and the bonus this pays to
 * the buyer's referrer while the referrer's earnings are under its cap.
 */
module Packages {
  import opened Wrappers
  import opened Entities
  import opened Ledger

  /** The referrer's cap: its package's earnings limit plus its personal limit. */
  function ReferralCap(s: State, r: User): (cap: int)
    requires PackageOf(s, r).Some?
    ensures Valid(s) && UserValid(r) ==> cap >= PackageOf(s, r).value.earningsLimit
  {
    PackageOf(s, r).value.earningsLimit + r.personalEarningsLimit
  }

  /** The buyer names a referrer (a non-zero id) that exists and holds a package. */
  predicate ReferrerEligible(s: State, buyer: User)
  {
    && buyer.referrerId.Some? && buyer.referrerId.value != 0
    && buyer.referrerId.value in s.users
    && PackageOf(s, s.users[buyer.referrerId.value]).Some?
  }

  /** The bonus is paid when the referrer is eligible and has earned less than its cap. */
  predicate BonusDue(s: State, buyer: User)
  {
    ReferrerEligible(s, buyer)
    && Earned(s, buyer.referrerId.value) < ReferralCap(s, s.users[buyer.referrerId.value])
  }

  /**
   * Credits `bonus` to the buyer's referrer and records it as a REFERRAL_BONUS
   * (created PENDING, as the column default) that names the buyer.
   */
  function PayReferralBonus(s: State, buyerId: int, bonus: int, now: int): (s': State)
    requires buyerId in s.users
    ensures !BonusDue(s, s.users[buyerId]) ==> s' == s
    ensures BonusDue(s, s.users[buyerId]) ==>
      var r := s.users[buyerId].referrerId.value;
      && s'.users.Keys == s.users.Keys
      && s'.users[r] == s.users[r].(balance := s.users[r].balance + bonus)
      && (forall v :: v in s.users && v != r ==> s'.users[v] == s.users[v])
      && s'.txs.Keys == s.txs.Keys + {s.nextTxId}
      && (forall k :: k in s.txs && k != s.nextTxId ==> s'.txs[k] == s.txs[k])
      && s'.txs[s.nextTxId] == Tx(r, ReferralBonus, bonus, None, Pending, None, None, Some(buyerId), now)
      && s'.nextTxId == s.nextTxId + 1
      && s'.purchases == s.purchases && s'.nextPurchaseId == s.nextPurchaseId
  {
    var buyer := s.users[buyerId];
    if BonusDue(s, buyer) then
      var r := buyer.referrerId.value;
      var ref := s.users[r];
      AddTx(s.(users := s.users[r := ref.(balance := ref.balance + bonus)]),
            NewTx(r, ReferralBonus, bonus, now).(referralId := Some(buyerId)))
    else s
  }

  /** The tables right after the buyer paid: balance debited, package set, purchase recorded as APPROVED. */
  function Purchased(s: State, userId: int, packageId: int, now: int): (s1: State)
    requires userId in s.users && packageId in s.packages
    ensures s1.users.Keys == s.users.Keys
    ensures s1.users[userId] == s.users[userId].(balance := s.users[userId].balance - s.packages[packageId].price,
                                                 packageId := Some(packageId))
    ensures forall v :: v in s.users && v != userId ==> s1.users[v] == s.users[v]
    ensures s1.txs == s.txs[s.nextTxId := Tx(userId, PackagePurchase, s.packages[packageId].price, None, Approved, None, None, None, now)]
    ensures s1 == s.(users := s1.users, txs := s1.txs, nextTxId := s.nextTxId + 1)
  {
    var u, p := s.users[userId], s.packages[packageId];
    AddTx(s.(users := s.users[userId := u.(balance := u.balance - p.price, packageId := Some(packageId))]),
          Tx(userId, PackagePurchase, p.price, None, Approved, None, None, None, now))
  }

  /** `POST packages/buy`: answers the package's name. */
  function BuyPackage(s: State, userId: int, packageId: int, now: int): (o: Step<string>)
    ensures o.events == []
    ensures o.result.Failure? ==> o.state == s
    ensures userId !in s.users ==> o.result == Failure(UserNotFound)
    ensures userId in s.users && PackageOf(s, s.users[userId]).Some? ==> o.result == Failure(AlreadyHasPackage)
    ensures userId in s.users && PackageOf(s, s.users[userId]).None? && packageId !in s.packages
      ==> o.result == Failure(PackageNotFound)
    ensures (userId in s.users && PackageOf(s, s.users[userId]).None? && packageId in s.packages
             && s.users[userId].balance < s.packages[packageId].price) ==> o.result == Failure(InsufficientFunds)
    ensures o.result.Success? <==>
      userId in s.users && PackageOf(s, s.users[userId]).None? && packageId in s.packages
      && s.users[userId].balance >= s.packages[packageId].price
    ensures o.result.Success? ==>
      var s1 := Purchased(s, userId, packageId, now);
      && o.result.value == s.packages[packageId].name
      && o.state == PayReferralBonus(s1, userId, s.packages[packageId].referralBonus, now)
  {
    if userId !in s.users then Fail(s, UserNotFound)
    else if PackageOf(s, s.users[userId]).Some? then Fail(s, AlreadyHasPackage)
    else if packageId !in s.packages then Fail(s, PackageNotFound)
    else if s.users[userId].balance < s.packages[packageId].price then Fail(s, InsufficientFunds)
    else
      var p := s.packages[packageId];
      var s1 := Purchased(s, userId, packageId, now);
      Step(Success(p.name), PayReferralBonus(s1, userId, p.referralBonus, now), [])
  }

  /** A package is bought once. */
  lemma BuyPackageOnce(s: State, userId: int, packageId: int, packageId2: int, now: int, later: int)
    requires BuyPackage(s, userId, packageId, now).result.Success?
    ensures BuyPackage(BuyPackage(s, userId, packageId, now).state, userId, packageId2, later).result
         == Failure(AlreadyHasPackage)
  {
    var s1 := Purchased(s, userId, packageId, now);
    var s' := BuyPackage(s, userId, packageId, now).state;
    assert s1.users[userId].packageId == Some(packageId);
    assert s'.users[userId].packageId == Some(packageId);
  }

  /** Paying for the package leaves every user's referral earnings as they were. */
  lemma PurchasedKeepsEarned(s: State, userId: int, packageId: int, now: int, v: int)
    requires Valid(s) && userId in s.users && packageId in s.packages
    ensures Earned(Purchased(s, userId, packageId, now), v) == Earned(s, v)
  {
    var u, p := s.users[userId], s.packages[packageId];
    var s0 := s.(users := s.users[userId := u.(balance := u.balance - p.price, packageId := Some(packageId))]);
    EarnedFrame(s, s0, v);
    EarnedAfterAdd(s0, Tx(userId, PackagePurchase, p.price, None, Approved, None, None, None, now), v);
  }

  /** Who gains what from PayReferralBonus: the referrer gains the bonus when it is due, nobody else anything. */
  lemma PayoutLaw(s1: State, buyerId: int, bonus: int, now: int, v: int)
    requires buyerId in s1.users
    requires 0 <= s1.nextTxId && forall k :: k in s1.txs ==> k < s1.nextTxId
    ensures var s' := PayReferralBonus(s1, buyerId, bonus, now);
      var gain := if BonusDue(s1, s1.users[buyerId]) && s1.users[buyerId].referrerId == Some(v) then bonus else 0;
      && s'.users.Keys == s1.users.Keys
      && (v in s1.users ==> s'.users[v] == s1.users[v].(balance := s1.users[v].balance + gain))
      && Earned(s', v) == Earned(s1, v) + gain
  {
    if BonusDue(s1, s1.users[buyerId]) {
      var r := s1.users[buyerId].referrerId.value;
      var s2 := s1.(users := s1.users[r := s1.users[r].(balance := s1.users[r].balance + bonus)]);
      EarnedFrame(s1, s2, v);
      EarnedAfterAdd(s2, NewTx(r, ReferralBonus, bonus, now).(referralId := Some(buyerId)), v);
    }
  }

  /**
   * The payout rule. With s1 the tables right after the buyer paid and r the
   * buyer's referrer: when the bonus is due, r alone gains the package's
   * bonus, in balance and in recorded earnings; otherwise no balance and no
   * earnings change. Whether it is due is decided on r's earnings before the
   * purchase, and a payout overshoots the cap by less than one bonus.
   */
  lemma ReferralBonusLaw(s: State, userId: int, packageId: int, now: int, v: int)
    requires Valid(s)
    requires BuyPackage(s, userId, packageId, now).result.Success?
    ensures var s1, s' := Purchased(s, userId, packageId, now), BuyPackage(s, userId, packageId, now).state;
      var bonus := s.packages[packageId].referralBonus;
      var due := BonusDue(s1, s1.users[userId]);
      var gain := if due && s.users[userId].referrerId == Some(v) then bonus else 0;
      && (due <==> ReferrerEligible(s1, s1.users[userId])
                   && Earned(s, s.users[userId].referrerId.value) < ReferralCap(s1, s1.users[s.users[userId].referrerId.value]))
      && (v in s.users ==> s'.users[v].balance == s1.users[v].balance + gain)
      && Earned(s', v) == Earned(s, v) + gain
      && (due && s.users[userId].referrerId == Some(v) ==> Earned(s', v) < ReferralCap(s1, s1.users[v]) + bonus)
  {
    var s1 := Purchased(s, userId, packageId, now);
    var u := s.users[userId];
    PurchasedKeepsEarned(s, userId, packageId, now, v);
    if u.referrerId.Some? {
      PurchasedKeepsEarned(s, userId, packageId, now, u.referrerId.value);
    }
    PayoutLaw(s1, userId, s.packages[packageId].referralBonus, now, v);
  }

  lemma PurchasedKeepsInvariants(s: State, userId: int, packageId: int, now: int)
    requires Valid(s) && OpenDepositsUnique(s)
    requires userId in s.users && packageId in s.packages && PackageOf(s, s.users[userId]).None?
    requires s.users[userId].balance >= s.packages[packageId].price
    ensures var s1 := Purchased(s, userId, packageId, now);
      Valid(s1) && OpenDepositsUnique(s1) && RespectsLifecycle(s, s1) && AccountsAdvance(s, s1)
  {
    var u, p := s.users[userId], s.packages[packageId];
    var u' := u.(balance := u.balance - p.price, packageId := Some(packageId));
    var t := Tx(userId, PackagePurchase, p.price, None, Approved, None, None, None, now);
    assert Purchased(s, userId, packageId, now) == AddTx(s.(users := s.users[userId := u']), t);
    assert PackageValid(p) && UserValid(u);
    SetUserThenAddTxKeeps(s, userId, u', t);
  }

  lemma PayoutKeepsInvariants(s1: State, buyerId: int, bonus: int, now: int)
    requires Valid(s1) && OpenDepositsUnique(s1)
    requires buyerId in s1.users && bonus >= 0
    ensures var s' := PayReferralBonus(s1, buyerId, bonus, now);
      Valid(s') && OpenDepositsUnique(s') && RespectsLifecycle(s1, s') && AccountsAdvance(s1, s')
      && forall id :: id in s1.users ==> s'.users[id].skinId == s1.users[id].skinId
  {
    if BonusDue(s1, s1.users[buyerId]) {
      var r := s1.users[buyerId].referrerId.value;
      var ref := s1.users[r].(balance := s1.users[r].balance + bonus);
      var t := NewTx(r, ReferralBonus, bonus, now).(referralId := Some(buyerId));
      assert PayReferralBonus(s1, buyerId, bonus, now) == AddTx(s1.(users := s1.users[r := ref]), t);
      assert UserValid(s1.users[r]);
      SetUserThenAddTxKeeps(s1, r, ref, t);
    }
  }

  lemma BuyPackageKeepsInvariants(s: State, userId: int, packageId: int, now: int)
    requires Valid(s) && OpenDepositsUnique(s)
    ensures var s' := BuyPackage(s, userId, packageId, now).state;
      Valid(s') && OpenDepositsUnique(s') && RespectsLifecycle(s, s') && AccountsAdvance(s, s')
  {
    if BuyPackage(s, userId, packageId, now).result.Success? {
      PurchasedKeepsInvariants(s, userId, packageId, now);
      var s1 := Purchased(s, userId, packageId, now);
      assert PackageValid(s.packages[packageId]);
      PayoutKeepsInvariants(s1, userId, s.packages[packageId].referralBonus, now);
      Chain(s, s1, BuyPackage(s, userId, packageId, now).state);
    }
  }
}
