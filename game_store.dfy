/**
 * The in-game store: buying skins in catalogue order, time-limited click
 * multipliers and a one-off referral-limit boost, paid from the game
 * balance; and the sweep that deletes expired purchases.
 */
module GameStore {
  import opened Wrappers
  import opened Entities
  import opened Ledger
  import opened FixedPoint

  const MillisPerHour: int := 3_600_000

  /** `item.duration ? now + duration hours : null`: a zero or absent duration never expires. */
  function ExpiryFor(item: StoreItem, now: int): (e: Option<int>)
    ensures e.Some? <==> item.duration.Some? && item.duration.value != 0
    ensures e.Some? ==> e.value == now + item.duration.value * MillisPerHour
    ensures e.Some? && item.duration.value > 0 ==> e.value > now
  {
    if item.duration.Some? && item.duration.value != 0 then Some(now + item.duration.value * MillisPerHour) else None
  }

  /** uid holds a purchase of some REFERRAL_LIMIT_BOOST item. */
  predicate OwnsBoost(s: State, uid: int)
  {
    exists k :: k in s.purchases && s.purchases[k].userId == uid
      && s.purchases[k].itemId in s.items && s.items[s.purchases[k].itemId].kind == ReferralLimitBoost
  }

  // ------------------------------------------------------- skin catalogue

  /** A non-empty set has a member. */
  lemma NonEmpty(ids: set<int>)
    requires ids != {}
    ensures exists k :: k in ids
  {
    if forall k :: k !in ids {
      assert false;
    }
  }

  /** The smallest id of a non-empty set. */
  ghost function Least(ids: set<int>): (m: int)
    requires ids != {}
    ensures m in ids && forall k :: k in ids ==> m <= k
    decreases |ids|
  {
    NonEmpty(ids);
    var x :| x in ids;
    if ids == {x} then x
    else
      var m := Least(ids - {x});
      assert forall k :: k in ids ==> k == x || k in ids - {x};
      if x < m then x else m
  }

  predicate StrictlyIncreasing(r: seq<int>)
  {
    forall i, j :: 0 <= i < j < |r| ==> r[i] < r[j]
  }

  /** The ids in ascending order, as `ORDER BY id ASC` lists them. */
  ghost function Ascending(ids: set<int>): (r: seq<int>)
    ensures StrictlyIncreasing(r)
    ensures forall i :: 0 <= i < |r| ==> r[i] in ids
    ensures forall k :: k in ids ==> k in r
    decreases |ids|
  {
    if ids == {} then []
    else
      var m := Least(ids);
      var rest := Ascending(ids - {m});
      assert forall i :: 0 <= i < |rest| ==> m < rest[i];
      [m] + rest
  }

  /** `findIndex(x => x === v)`: the first position of v, or -1. */
  function IndexOf(r: seq<int>, v: int): (i: int)
    ensures -1 <= i < |r|
    ensures i >= 0 ==> r[i] == v && forall j :: 0 <= j < i ==> r[j] != v
    ensures i == -1 ==> v !in r
  {
    if r == [] then -1
    else if r[0] == v then 0
    else var j := IndexOf(r[1..], v); if j == -1 then -1 else j + 1
  }

  /**
   * The handler's skin test: the current skin is found in the ascending list
   * of skins and the item is the entry right after it.
   */
  ghost predicate SkinInSequence(items: map<int, StoreItem>, cur: int, next: int)
  {
    FollowsIn(Ascending(SkinIds(items)), cur, next)
  }

  /** `cur` is found in r and `next` is the entry right after it. */
  predicate FollowsIn(r: seq<int>, cur: int, next: int)
  {
    var i := IndexOf(r, cur);
    i != -1 && i + 1 < |r| && r[i + 1] == next
  }

  /** In a strictly increasing list, a smaller value sits at an earlier position. */
  lemma IncreasingOrder(r: seq<int>, i: int, j: int)
    requires StrictlyIncreasing(r) && 0 <= i < |r| && 0 <= j < |r|
    ensures r[i] < r[j] <==> i < j
  {
  }

  /** The soundness argument on an arbitrary ascending listing of the ids. */
  lemma ListingNextIsLeastAbove(r: seq<int>, ids: set<int>, cur: int, next: int)
    requires StrictlyIncreasing(r)
    requires forall i :: 0 <= i < |r| ==> r[i] in ids
    requires forall k :: k in ids ==> k in r
    requires FollowsIn(r, cur, next)
    ensures cur in ids && next in ids && cur < next
    ensures forall k :: k in ids && cur < k ==> next <= k
  {
    var i := IndexOf(r, cur);
    IncreasingOrder(r, i, i + 1);
    forall k | k in ids && cur < k
      ensures next <= k
    {
      var j :| 0 <= j < |r| && r[j] == k;
      IncreasingOrder(r, i, j);
      if j != i + 1 {
        IncreasingOrder(r, i + 1, j);
      }
    }
  }

  lemma SkinSequenceSound(items: map<int, StoreItem>, cur: int, next: int)
    requires SkinInSequence(items, cur, next)
    ensures IsNextSkin(items, cur, next)
  {
    var ids := SkinIds(items);
    ListingNextIsLeastAbove(Ascending(ids), ids, cur, next);
  }

  /** In a strictly increasing list, the least entry above r[i] sits right after it. */
  lemma SuccessorPosition(r: seq<int>, i: int, j: int)
    requires StrictlyIncreasing(r) && 0 <= i < j < |r|
    requires forall k :: 0 <= k < |r| && r[i] < r[k] ==> r[j] <= r[k]
    ensures j == i + 1
  {
    IncreasingOrder(r, i, i + 1);
    IncreasingOrder(r, i + 1, j);
  }

  /** The completeness argument on an arbitrary ascending listing of the ids. */
  lemma NextFollowsInListing(r: seq<int>, ids: set<int>, cur: int, next: int)
    requires StrictlyIncreasing(r)
    requires forall i :: 0 <= i < |r| ==> r[i] in ids
    requires forall k :: k in ids ==> k in r
    requires cur in ids && next in ids && cur < next
    requires forall k :: k in ids && cur < k ==> next <= k
    ensures FollowsIn(r, cur, next)
  {
    assert cur in r && next in r;
    var i := IndexOf(r, cur);
    var j :| 0 <= j < |r| && r[j] == next;
    IncreasingOrder(r, i, j);
    forall k | 0 <= k < |r| && r[i] < r[k]
      ensures r[j] <= r[k]
    {
      assert r[k] in ids;
    }
    SuccessorPosition(r, i, j);
  }

  lemma SkinSequenceComplete(items: map<int, StoreItem>, cur: int, next: int)
    requires IsNextSkin(items, cur, next)
    ensures SkinInSequence(items, cur, next)
  {
    var ids := SkinIds(items);
    var r := Ascending(ids);
    assert cur in ids && next in ids && cur < next;
    assert forall k :: k in ids && cur < k ==> next <= k;
    NextFollowsInListing(r, ids, cur, next);
  }

  /** Walking the sorted list is the same as asking for the least skin id above the current one. */
  lemma SkinSequenceLaw(items: map<int, StoreItem>, cur: int, next: int)
    ensures SkinInSequence(items, cur, next) <==> IsNextSkin(items, cur, next)
  {
    if SkinInSequence(items, cur, next) {
      SkinSequenceSound(items, cur, next);
    }
    if IsNextSkin(items, cur, next) {
      SkinSequenceComplete(items, cur, next);
    }
  }

  /** The skin test without sorting: one pass over the catalogue. */
  method IsNextSkinInCatalogue(items: map<int, StoreItem>, cur: int, next: int) returns (ok: bool)
    ensures ok <==> IsNextSkin(items, cur, next)
  {
    if !(cur in items && items[cur].kind == Skin && next in items && items[next].kind == Skin && cur < next) {
      return false;
    }
    var todo := items.Keys;
    ok := true;
    while todo != {}
      invariant todo <= items.Keys
      invariant ok <==> forall k :: k in items.Keys - todo && items[k].kind == Skin && cur < k ==> next <= k
      decreases |todo|
    {
      NonEmpty(todo);
      var k :| k in todo;
      if items[k].kind == Skin && cur < k < next {
        ok := false;
      }
      todo := todo - {k};
    }
  }

  // ------------------------------------------------------------- buy item

  /**
   * `parseFloat((limit + earnings_limit * bonus / 100).toFixed(2))` in cents:
   * the personal limit grows by bonus percent of the package limit.
   */
  function BoostedLimit(limit: int, packageLimit: int, bonus: Option<int>): (r: int)
    ensures 2 * (100 * r) - 100 <= 2 * (100 * limit + packageLimit * bonus.GetOr(0)) < 2 * (100 * r) + 100
      || 100 * limit + packageLimit * bonus.GetOr(0) < 0
    ensures packageLimit >= 0 && bonus.GetOr(0) >= 0 ==> r >= limit
  {
    var n := 100 * limit + packageLimit * bonus.GetOr(0);
    RoundHalfUpShift(limit, packageLimit * bonus.GetOr(0), 100);
    RoundHalfAway(n, 100)
  }

  /** The user's row after the purchase of item itemId. */
  ghost function Bought(s: State, u: User, itemId: int): User
    requires itemId in s.items
  {
    var item := s.items[itemId];
    var u1 := if item.kind == ReferralLimitBoost && PackageOf(s, u).Some?
              then u.(personalEarningsLimit := BoostedLimit(u.personalEarningsLimit, PackageOf(s, u).value.earningsLimit, item.bonus))
              else u;
    var u2 := if item.kind == Skin then u1.(skinId := itemId) else u1;
    u2.(gameBalance := u2.gameBalance - item.price * 100)
  }

  /**
   * `buyItem`: checks in the handler's order, then the user pays the price
   * (whole coins, so price * 100 cents) and the purchase row is stored.
   */
  ghost function BuyItem(s: State, userId: int, itemId: int, now: int): (o: Step<()>)
    ensures o.events == []
    ensures o.result.Failure? ==> o.state == s
    ensures userId !in s.users ==> o.result == Failure(UserNotFound)
    ensures userId in s.users && itemId !in s.items ==> o.result == Failure(ItemNotFound)
    ensures userId in s.users && itemId in s.items && s.users[userId].gameBalance < s.items[itemId].price * 100
      ==> o.result == Failure(InsufficientFunds)
    ensures o.result.Success? <==>
      && userId in s.users && itemId in s.items
      && s.users[userId].gameBalance >= s.items[itemId].price * 100
      && (s.items[itemId].kind == ReferralLimitBoost ==> PackageOf(s, s.users[userId]).Some? && !OwnsBoost(s, userId))
      && (s.items[itemId].kind == Multiplier ==> !HasActiveMultiplier(s, userId, now))
      && (s.items[itemId].kind == Skin ==> IsNextSkin(s.items, s.users[userId].skinId, itemId))
    ensures (o.result.Failure? && userId in s.users && itemId in s.items
             && s.users[userId].gameBalance >= s.items[itemId].price * 100) ==>
      o.result.error == match s.items[itemId].kind
        case ReferralLimitBoost => if PackageOf(s, s.users[userId]).None? then NoActivePackage else BoostAlreadyOwned
        case Multiplier => ActiveMultiplierExists
        case Skin => OutOfSequence
    ensures o.result.Success? ==>
      o.state == AddPurchase(s.(users := s.users[userId := Bought(s, s.users[userId], itemId)]),
                             Purchase(userId, itemId, now, ExpiryFor(s.items[itemId], now)))
  {
    SkinSequenceLaw(s.items, if userId in s.users then s.users[userId].skinId else 0, itemId);
    if userId !in s.users then Fail(s, UserNotFound)
    else if itemId !in s.items then Fail(s, ItemNotFound)
    else
      var u, item := s.users[userId], s.items[itemId];
      if u.gameBalance < item.price * 100 then Fail(s, InsufficientFunds)
      else if item.kind == ReferralLimitBoost && PackageOf(s, u).None? then Fail(s, NoActivePackage)
      else if item.kind == ReferralLimitBoost && OwnsBoost(s, userId) then Fail(s, BoostAlreadyOwned)
      else if item.kind == Multiplier && HasActiveMultiplier(s, userId, now) then Fail(s, ActiveMultiplierExists)
      else if item.kind == Skin && !SkinInSequence(s.items, u.skinId, itemId) then Fail(s, OutOfSequence)
      else
        Step(Success(()),
             AddPurchase(s.(users := s.users[userId := Bought(s, u, itemId)]),
                         Purchase(userId, itemId, now, ExpiryFor(item, now))),
             [])
  }

  /** The limit boost can be bought once. */
  lemma BoostOnlyOnce(s: State, userId: int, itemId: int, itemId2: int, now: int, later: int)
    requires BuyItem(s, userId, itemId, now).result.Success?
    requires s.items[itemId].kind == ReferralLimitBoost
    requires itemId2 in s.items && s.items[itemId2].kind == ReferralLimitBoost
    ensures BuyItem(BuyItem(s, userId, itemId, now).state, userId, itemId2, later).result.Failure?
    ensures var s' := BuyItem(s, userId, itemId, now).state;
      s'.users[userId].gameBalance >= s.items[itemId2].price * 100 ==>
        BuyItem(s', userId, itemId2, later).result == Failure(BoostAlreadyOwned)
  {
    var s' := BuyItem(s, userId, itemId, now).state;
    assert s'.purchases[s.nextPurchaseId].userId == userId;
    assert OwnsBoost(s', userId);
    assert s'.users[userId].packageId == s.users[userId].packageId;
  }

  /** While a bought multiplier runs, no second multiplier can be bought. */
  lemma MultiplierWhileActive(s: State, userId: int, itemId: int, itemId2: int, now: int, later: int)
    requires BuyItem(s, userId, itemId, now).result.Success?
    requires s.items[itemId].kind == Multiplier
    requires s.items[itemId].duration.Some? && s.items[itemId].duration.value > 0
    requires itemId2 in s.items && s.items[itemId2].kind == Multiplier
    requires later < now + s.items[itemId].duration.value * MillisPerHour
    ensures BuyItem(BuyItem(s, userId, itemId, now).state, userId, itemId2, later).result.Failure?
    ensures var s' := BuyItem(s, userId, itemId, now).state;
      s'.users[userId].gameBalance >= s.items[itemId2].price * 100 ==>
        BuyItem(s', userId, itemId2, later).result == Failure(ActiveMultiplierExists)
  {
    var s' := BuyItem(s, userId, itemId, now).state;
    assert IsActiveMultiplier(s', s.nextPurchaseId, userId, later);
  }

  /** Buying skins walks the catalogue: the skin after a purchase is the next skin. */
  lemma SkinPurchaseAdvances(s: State, userId: int, itemId: int, now: int)
    requires BuyItem(s, userId, itemId, now).result.Success?
    requires s.items[itemId].kind == Skin
    ensures IsNextSkin(s.items, s.users[userId].skinId, BuyItem(s, userId, itemId, now).state.users[userId].skinId)
  {
  }

  /**
   * What a successful purchase does: the buyer pays exactly the price and
   * keeps a non-negative balance, only a skin moves the skin, only the boost
   * raises the personal limit, the new row records the purchase, and no
   * other account and no transaction changes.
   */
  lemma BuyItemEffect(s: State, userId: int, itemId: int, now: int)
    requires BuyItem(s, userId, itemId, now).result.Success?
    ensures var s', u, item := BuyItem(s, userId, itemId, now).state, s.users[userId], s.items[itemId];
      var u' := s'.users[userId];
      && u'.gameBalance == u.gameBalance - item.price * 100 >= 0
      && u'.skinId == (if item.kind == Skin then itemId else u.skinId)
      && u'.personalEarningsLimit ==
           (if item.kind == ReferralLimitBoost
            then BoostedLimit(u.personalEarningsLimit, s.packages[u.packageId.value].earningsLimit, item.bonus)
            else u.personalEarningsLimit)
      && u' == u.(gameBalance := u'.gameBalance, skinId := u'.skinId, personalEarningsLimit := u'.personalEarningsLimit)
      && s'.users.Keys == s.users.Keys
      && (forall v :: v in s.users && v != userId ==> s'.users[v] == s.users[v])
      && s'.txs == s.txs
      && s'.purchases == s.purchases[s.nextPurchaseId := Purchase(userId, itemId, now, ExpiryFor(item, now))]
  {
  }

  /** The buyer's row after a successful purchase is a valid advance of the old one. */
  lemma BoughtAdvances(s: State, userId: int, itemId: int, now: int)
    requires Valid(s)
    requires BuyItem(s, userId, itemId, now).result.Success?
    ensures var u, u' := s.users[userId], Bought(s, s.users[userId], itemId);
      UserValid(u') && (u'.packageId.Some? ==> u'.packageId.value in s.packages) && AccountAdvances(s.items, u, u')
  {
    var u := s.users[userId];
    var item := s.items[itemId];
    assert ItemValid(item);
    if item.kind == ReferralLimitBoost {
      var p := u.packageId.value;
      assert p in s.packages;
      assert forall id :: id in s.packages ==> PackageValid(s.packages[id]);
      assert PackageValid(s.packages[p]);
    }
  }

  lemma BuyItemKeepsInvariants(s: State, userId: int, itemId: int, now: int)
    requires Valid(s) && OpenDepositsUnique(s)
    ensures var s' := BuyItem(s, userId, itemId, now).state;
      Valid(s') && OpenDepositsUnique(s') && RespectsLifecycle(s, s') && AccountsAdvance(s, s')
  {
    if BuyItem(s, userId, itemId, now).result.Success? {
      var u' := Bought(s, s.users[userId], itemId);
      var s1 := s.(users := s.users[userId := u']);
      BoughtAdvances(s, userId, itemId, now);
      SetUserKeeps(s, userId, u');
      AddPurchaseKeeps(s1, Purchase(userId, itemId, now, ExpiryFor(s.items[itemId], now)));
      Chain(s, s1, BuyItem(s, userId, itemId, now).state);
    }
  }

  // ------------------------------------------------------ expired boosters

  /** Purchase k of uid has an expiry earlier than now (`expiresAt < now`; a null expiry never matches). */
  predicate Expired(s: State, k: int, uid: int, now: int)
    requires k in s.purchases
  {
    s.purchases[k].userId == uid && s.purchases[k].expiresAt.Some? && s.purchases[k].expiresAt.value < now
  }

  /** `checkExpiredBoosters`: deletes every expired purchase of uid and notifies uid when there was one. */
  function CheckExpiredBoosters(s: State, uid: int, now: int): (o: Step<()>)
    ensures o.result == Success(())
    ensures o.state.purchases.Keys <= s.purchases.Keys
    ensures forall k :: k in s.purchases ==> (k in o.state.purchases <==> !Expired(s, k, uid, now))
    ensures forall k :: k in o.state.purchases ==> o.state.purchases[k] == s.purchases[k]
    ensures o.state == s.(purchases := o.state.purchases)
    ensures o.events == if exists k :: k in s.purchases && Expired(s, k, uid, now) then [BoosterExpired(uid)] else []
  {
    var kept := map k | k in s.purchases && !Expired(s, k, uid, now) :: s.purchases[k];
    var events := if exists k :: k in s.purchases && Expired(s, k, uid, now) then [BoosterExpired(uid)] else [];
    Step(Success(()), s.(purchases := kept), events)
  }

  /** A second sweep at the same time removes nothing and sends nothing. */
  lemma CheckExpiredIdempotent(s: State, uid: int, now: int)
    ensures var s' := CheckExpiredBoosters(s, uid, now).state;
      CheckExpiredBoosters(s', uid, now).state == s' && CheckExpiredBoosters(s', uid, now).events == []
  {
    var s' := CheckExpiredBoosters(s, uid, now).state;
    assert CheckExpiredBoosters(s', uid, now).state.purchases == s'.purchases;
  }

  /** The sweep never takes away a multiplier that is still running, nor anyone else's purchase. */
  lemma CheckExpiredKeepsActive(s: State, uid: int, now: int, k: int, v: int)
    ensures var s' := CheckExpiredBoosters(s, uid, now).state;
      (IsActiveMultiplier(s', k, v, now) <==> IsActiveMultiplier(s, k, v, now))
      && (k in s.purchases && s.purchases[k].userId != uid ==> k in s'.purchases)
  {
  }

  lemma CheckExpiredKeepsInvariants(s: State, uid: int, now: int)
    requires Valid(s) && OpenDepositsUnique(s)
    ensures var s' := CheckExpiredBoosters(s, uid, now).state;
      Valid(s') && OpenDepositsUnique(s') && RespectsLifecycle(s, s') && AccountsAdvance(s, s')
  {
  }
}
