/**
 * The clicker: every click adds the click value (skin multiplier times the
 * running multiplier) to the game balance, and enough clicks raise the
 * level and pay a level bonus.
 */
module Progression {
  import opened Wrappers
  import opened Entities
  import opened Ledger
  import opened FixedPoint

  /** `Math.floor(100 * Math.pow(1.3, level - 1))`, computed exactly as 100 * 13^k / 10^k. */
  function LevelThreshold(level: int): (t: int)
    ensures level >= 1 ==>
      t * Pow(10, level - 1) <= 100 * Pow(13, level - 1) < (t + 1) * Pow(10, level - 1)
    ensures level < 1 ==>
      t * Pow(13, 1 - level) <= 100 * Pow(10, 1 - level) < (t + 1) * Pow(13, 1 - level)
  {
    if level >= 1 then
      PowPositive(10, level - 1);
      FloorDiv(100 * Pow(13, level - 1), Pow(10, level - 1))
    else
      PowPositive(13, 1 - level);
      FloorDiv(100 * Pow(10, 1 - level), Pow(13, 1 - level))
  }

  /** Floor division characterised by its bounds. */
  function FloorDiv(n: int, d: int): (q: int)
    requires d > 0
    ensures q * d <= n < (q + 1) * d
  {
    n / d
  }

  lemma LevelThresholdValues()
    ensures LevelThreshold(1) == 100 && LevelThreshold(2) == 130 && LevelThreshold(3) == 169
  {
    assert Pow(10, 1) == 10 && Pow(13, 1) == 13;
    assert Pow(10, 2) == 100 && Pow(13, 2) == 169;
  }

  /** Each level needs more clicks than the one before. */
  lemma LevelThresholdGrows(level: int)
    requires level >= 1
    ensures LevelThreshold(level) < LevelThreshold(level + 1)
  {
    var k := level - 1;
    var t, t' := LevelThreshold(level), LevelThreshold(level + 1);
    var a, b := Pow(10, k), Pow(13, k);
    PowPositive(10, k);
    PowPositive(13, k);
    PowTenBelowThirteen(k);
    assert Pow(10, k + 1) == 10 * a && Pow(13, k + 1) == 13 * b;
    assert t * a <= 100 * b;
    assert 100 * (13 * b) < (t' + 1) * (10 * a);
    NextFloorLarger(a, b, t, t');
  }

  /**
   * With 0 < a <= b, t = floor(100b / a) and t' = floor(1300b / 10a):
   * (t + 1) * 10a <= 1000b + 10a <= 1300b < (t' + 1) * 10a, so t < t'.
   */
  lemma NextFloorLarger(a: int, b: int, t: int, t': int)
    requires 0 < a <= b
    requires t * a <= 100 * b
    requires 100 * (13 * b) < (t' + 1) * (10 * a)
    ensures t < t'
  {
    var ta := t * a;
    assert (10 * a) * (t + 1) == 10 * ta + 10 * a;
    assert 10 * ta + 10 * a <= 1300 * b;
    MulCancel(10 * a, t + 1, t' + 1);
  }

  /** 10^k never exceeds 13^k. */
  lemma {:induction false} PowTenBelowThirteen(k: nat)
    ensures Pow(10, k) <= Pow(13, k)
  {
    if k > 0 {
      PowTenBelowThirteen(k - 1);
      PowPositive(10, k - 1);
    }
  }

  /** A positive factor can be cancelled from a strict inequality. */
  lemma MulCancel(d: int, x: int, y: int)
    requires d > 0 && d * x < d * y
    ensures x < y
  {
    if x >= y {
      MulMonotone(d, y, x);
    }
  }

  // ------------------------------------------------------------ one click

  /** What `handleClick` answers: the new game balance and the click value. */
  datatype ClickResult = ClickResult(gameBalance: int, clickValue: int)

  /**
   * One click on an account with click value `clickValue` (ten-thousandths
   * of a coin). The balance is rounded to cents, as toFixed(2) does; the level
   * test compares the new click count with the threshold of the old level,
   * and a level-up pays (new level - 1) * 10 coins.
   */
  function Click(u: User, clickValue: int): (u': User)
    ensures u' == u.(clicks := u'.clicks, level := u'.level, gameBalance := u'.gameBalance)
    ensures u'.clicks == u.clicks + 1
    ensures u'.level == if u.clicks + 1 >= LevelThreshold(u.level) then u.level + 1 else u.level
    ensures u'.gameBalance == RoundHalfAway(100 * u.gameBalance + clickValue, 100)
                               + (if u'.level > u.level then u.level * 1000 else 0)
    ensures u.gameBalance >= 0 && clickValue >= 0 && u.level >= 0 ==> u'.gameBalance >= u.gameBalance
  {
    RoundHalfUpShift(u.gameBalance, clickValue, 100);
    var u1 := u.(clicks := u.clicks + 1, gameBalance := RoundHalfAway(100 * u.gameBalance + clickValue, 100));
    if u1.clicks >= LevelThreshold(u.level) then
      u1.(level := u.level + 1, gameBalance := u1.gameBalance + u.level * 1000)
    else u1
  }

  /** The multiplier of the user's skin, 1.0 when it is not a skin of the catalogue or has none. */
  function SkinMultiplier(s: State, u: User): (m: int)
    ensures Valid(s) ==> m >= 0
    ensures u.skinId !in s.items || s.items[u.skinId].kind != Skin ==> m == 100
    ensures u.skinId in s.items && s.items[u.skinId].kind == Skin && s.items[u.skinId].multiplier.Some? ==>
      m == s.items[u.skinId].multiplier.value
  {
    if u.skinId in s.items && s.items[u.skinId].kind == Skin then s.items[u.skinId].multiplier.GetOr(100) else 100
  }

  /** The least purchase id in [from, nextPurchaseId) that is a running multiplier of uid. */
  function FirstActiveMultiplier(s: State, uid: int, now: int, from: int): (r: Option<int>)
    ensures r.Some? ==> from <= r.value && IsActiveMultiplier(s, r.value, uid, now)
    ensures r.Some? ==> forall k :: from <= k < r.value ==> !IsActiveMultiplier(s, k, uid, now)
    ensures r.None? ==> forall k :: from <= k < s.nextPurchaseId ==> !IsActiveMultiplier(s, k, uid, now)
    decreases s.nextPurchaseId - from
  {
    if from >= s.nextPurchaseId then None
    else if IsActiveMultiplier(s, from, uid, now) then Some(from)
    else FirstActiveMultiplier(s, uid, now, from + 1)
  }

  /** The running multiplier's factor, 1.0 when none runs (or its item has none). */
  function BoostMultiplier(s: State, uid: int, now: int): (m: int)
    ensures Valid(s) ==> m >= 0
    ensures Valid(s) && !HasActiveMultiplier(s, uid, now) ==> m == 100
    ensures Valid(s) && HasActiveMultiplier(s, uid, now) ==>
      exists k :: IsActiveMultiplier(s, k, uid, now) && m == s.items[s.purchases[k].itemId].multiplier.GetOr(100)
  {
    match FirstActiveMultiplier(s, uid, now, 0)
    case None =>
      assert Valid(s) ==> !HasActiveMultiplier(s, uid, now);
      100
    case Some(k) => s.items[s.purchases[k].itemId].multiplier.GetOr(100)
  }

  /** `handleClick`. An unknown user gets balance 0 and click value 1.0, and nothing changes. */
  function HandleClick(s: State, userId: int, now: int): (o: Step<ClickResult>)
    ensures o.result.Success?
    ensures userId !in s.users ==> o.result.value == ClickResult(0, 10000) && o.state == s && o.events == []
    ensures userId in s.users ==>
      var u := s.users[userId];
      var cv := SkinMultiplier(s, u) * BoostMultiplier(s, userId, now);
      var u' := Click(u, cv);
      && o.state == s.(users := s.users[userId := u'])
      && o.result.value == ClickResult(u'.gameBalance, cv)
      && o.events == if u'.level > u.level then [LevelUp(userId, u'.level, u'.gameBalance, u.level * 1000)] else []
  {
    if userId !in s.users then Step(Success(ClickResult(0, 10000)), s, [])
    else
      var u := s.users[userId];
      var cv := SkinMultiplier(s, u) * BoostMultiplier(s, userId, now);
      var u' := Click(u, cv);
      var events := if u'.level > u.level then [LevelUp(userId, u'.level, u'.gameBalance, u.level * 1000)] else [];
      Step(Success(ClickResult(u'.gameBalance, cv)), s.(users := s.users[userId := u']), events)
  }

  lemma HandleClickKeepsInvariants(s: State, userId: int, now: int)
    requires Valid(s) && OpenDepositsUnique(s)
    ensures var s' := HandleClick(s, userId, now).state;
      Valid(s') && OpenDepositsUnique(s') && RespectsLifecycle(s, s') && AccountsAdvance(s, s')
  {
    if userId in s.users {
      var u := s.users[userId];
      var sm, bm := SkinMultiplier(s, u), BoostMultiplier(s, userId, now);
      assert sm * bm >= 0;
      SetUserKeeps(s, userId, Click(u, sm * bm));
    }
  }

  /** The multiplier lookup reads purchases and items only. */
  lemma {:induction false} FirstActiveIgnoresUsers(s: State, users: map<int, User>, uid: int, now: int, from: int)
    ensures FirstActiveMultiplier(s.(users := users), uid, now, from) == FirstActiveMultiplier(s, uid, now, from)
    decreases s.nextPurchaseId - from
  {
    if from < s.nextPurchaseId {
      FirstActiveIgnoresUsers(s, users, uid, now, from + 1);
    }
  }

  /**
   * The click value depends on the skin and the running multiplier only:
   * an account with other balances, level or clicks but the same skin gets
   * the same value.
   */
  lemma ClickValueIgnoresProgress(s: State, userId: int, now: int, u2: User)
    requires userId in s.users && u2.skinId == s.users[userId].skinId
    ensures HandleClick(s.(users := s.users[userId := u2]), userId, now).result.value.clickValue
         == HandleClick(s, userId, now).result.value.clickValue
  {
    FirstActiveIgnoresUsers(s, s.users[userId := u2], userId, now, 0);
  }

  // ------------------------------------------------------ many clicks

  /** n clicks at a fixed click value. */
  function Clicks(u: User, clickValue: int, n: nat): User
  {
    if n == 0 then u else Click(Clicks(u, clickValue, n - 1), clickValue)
  }

  /** Before the hundredth click a new player stays on level 1 and earns one coin per click. */
  lemma {:induction false} FirstClicks(login: string, referrerId: Option<int>, n: nat)
    requires n < 100
    ensures var u := Clicks(NewUser(login, referrerId), 10000, n);
      u.clicks == n && u.level == 1 && u.gameBalance == 100 * n
  {
    LevelThresholdValues();
    if n > 0 {
      FirstClicks(login, referrerId, n - 1);
      RoundHalfUpShift(100 * (n - 1), 0, 100);
      assert RoundHalfUp(0, 100) == 0;
    }
  }

  /** A new player at click value 1.0 reaches level 2 on the hundredth click, with 100 + 10 coins. */
  lemma HundredClicks(login: string, referrerId: Option<int>)
    ensures var u := Clicks(NewUser(login, referrerId), 10000, 100);
      u.clicks == 100 && u.level == 2 && u.gameBalance == 11000
  {
    FirstClicks(login, referrerId, 99);
    LevelThresholdValues();
    RoundHalfUpShift(9900, 0, 100);
    assert RoundHalfUp(0, 100) == 0;
  }
}
