/**
 * The profile screen (`GET users/me`, src/users/users.controller.ts): the
 * account's own fields, its package as {id, name}, and its referral limit.
 * It reads the state and changes nothing.
 */
module Profile {
  import opened Wrappers
  import opened Entities
  import opened Ledger
  import opened FixedPoint
  import Packages
  import Referrals

  datatype PackageRef = PackageRef(id: int, name: string)

  /** How much referral income the account may still earn. */
  datatype ReferralLimit = ReferralLimit(totalLimit: int, used: int, remaining: int)

  datatype Me = Me(
    id: int,
    login: string,
    balance: int,
    referrerId: Option<int>,
    package: Option<PackageRef>,
    gameBalance: int,
    skinId: int,
    level: int,
    clicks: int,
    referralLimit: ReferralLimit)

  /** The package limit (none counts as 0) plus the personal limit bought in the store. */
  function TotalLimit(s: State, u: User): int
  {
    (if PackageOf(s, u).Some? then PackageOf(s, u).value.earningsLimit else 0) + u.personalEarningsLimit
  }

  /** The limit block: the total, what bonuses used of it, and what is left (never below 0). */
  function LimitOf(s: State, uid: int, u: User): (l: ReferralLimit)
    ensures l.totalLimit == TotalLimit(s, u) && l.used == Earned(s, uid)
    ensures l.remaining >= 0
    ensures l.remaining > 0 <==> l.used < l.totalLimit
    ensures l.remaining > 0 ==> l.used + l.remaining == l.totalLimit
    ensures l.used >= 0 ==> l.remaining <= l.totalLimit || l.totalLimit < 0
  {
    var total := TotalLimit(s, u);
    var used := Earned(s, uid);
    ReferralLimit(total, used, Max(total - used, 0))
  }

  /** `GET users/me`: None stands for the "user not found" message. */
  function GetMe(s: State, uid: int): (r: Option<Me>)
    ensures r.None? <==> uid !in s.users
    ensures r.Some? ==>
      var u := s.users[uid];
      && r.value.id == uid && r.value.login == u.login && r.value.balance == u.balance
      && r.value.referrerId == u.referrerId && r.value.gameBalance == u.gameBalance
      && r.value.skinId == u.skinId && r.value.level == u.level && r.value.clicks == u.clicks
      && (r.value.package.Some? <==> PackageOf(s, u).Some?)
      && (r.value.package.Some? ==>
            r.value.package.value == PackageRef(u.packageId.value, s.packages[u.packageId.value].name))
      && r.value.referralLimit == LimitOf(s, uid, u)
  {
    if uid !in s.users then None
    else
      var u := s.users[uid];
      var package := if PackageOf(s, u).Some? then Some(PackageRef(u.packageId.value, PackageOf(s, u).value.name)) else None;
      Some(Me(uid, u.login, u.balance, u.referrerId, package, u.gameBalance, u.skinId, u.level, u.clicks,
              LimitOf(s, uid, u)))
  }

  // --------------------------------------------------------------- lemmas

  /**
   * For an account with a package the profile's total limit is exactly the cap
   * the payout rule uses, so "something remaining" on the profile means the
   * next package bought by anyone this account referred pays a bonus.
   */
  lemma ProfileLimitIsPayoutCap(s: State, uid: int, buyerId: int)
    requires uid in s.users && PackageOf(s, s.users[uid]).Some? && uid != 0
    requires buyerId in s.users && s.users[buyerId].referrerId == Some(uid)
    ensures GetMe(s, uid).value.referralLimit.totalLimit == Packages.ReferralCap(s, s.users[uid])
    ensures GetMe(s, uid).value.referralLimit.remaining > 0 <==> Packages.BonusDue(s, s.users[buyerId])
  {
  }

  /**
   * The stats card and the profile disagree exactly by the personal limit:
   * the card never shows more remaining than the profile, and both agree
   * when the account bought no limit boost.
   */
  lemma StatsNeverExceedProfile(s: State, uid: int)
    requires Valid(s) && uid in s.users
    ensures Referrals.GetReferralStats(s, uid).remainingLimit <= GetMe(s, uid).value.referralLimit.remaining
    ensures s.users[uid].personalEarningsLimit == 0 ==>
      Referrals.GetReferralStats(s, uid).remainingLimit == GetMe(s, uid).value.referralLimit.remaining
    ensures Referrals.GetReferralStats(s, uid).earningsLimit
         == GetMe(s, uid).value.referralLimit.totalLimit - s.users[uid].personalEarningsLimit
  {
    assert UserValid(s.users[uid]);
  }

  /** With the invariant, what is left never exceeds the total. */
  lemma ProfileRemainingBounded(s: State, uid: int)
    requires Valid(s) && uid in s.users
    ensures 0 <= GetMe(s, uid).value.referralLimit.remaining <= GetMe(s, uid).value.referralLimit.totalLimit
  {
    EarnedNonNegative(s, uid);
    var u := s.users[uid];
    assert UserValid(u);
    if PackageOf(s, u).Some? {
      var p := u.packageId.value;
      assert p in s.packages;
      assert forall id :: id in s.packages ==> PackageValid(s.packages[id]);
      assert PackageValid(s.packages[p]);
    }
  }
}
