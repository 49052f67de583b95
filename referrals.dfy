/**
 * The read-only referral screens (src/referrals/referrals.controller.ts):
 * the list of invited users, the counters and limit of the stats card, and
 * the list of bonuses earned, newest first. Nothing here changes the state.
 */
module Referrals {
  import opened Wrappers
  import opened Entities
  import opened Ledger
  import opened FixedPoint
  import Packages

  /** Shown instead of a package name for a referral without a package. */
  const NoPackageLabel: string := "Без пакета"

  /** The users who registered with uid as their referrer (`WHERE referrer_id = uid`). */
  function ReferralIds(s: State, uid: int): set<int>
  {
    set id | id in s.users && s.users[id].referrerId == Some(uid)
  }

  /** Those of them whose package column is filled in (`AND package_id IS NOT NULL`). */
  function ReferralIdsWithPackage(s: State, uid: int): set<int>
  {
    set id | id in s.users && s.users[id].referrerId == Some(uid) && s.users[id].packageId.Some?
  }

  // ------------------------------------------------------ GET referrals

  /** One entry of the list: the referral's login and its package's name. */
  datatype ReferralView = ReferralView(login: string, package: string)

  /** The name of the package loaded through the relation, or the placeholder. */
  function PackageLabel(s: State, u: User): string
  {
    if PackageOf(s, u).Some? then PackageOf(s, u).value.name else NoPackageLabel
  }

  /** `GET referrals`: every referral of uid by id, with login and package name. */
  function GetReferrals(s: State, uid: int): (r: map<int, ReferralView>)
    ensures r.Keys == ReferralIds(s, uid)
    ensures forall id :: id in r ==>
      && r[id].login == s.users[id].login
      && (PackageOf(s, s.users[id]).Some? ==> r[id].package == s.packages[s.users[id].packageId.value].name)
      && (PackageOf(s, s.users[id]).None? ==> r[id].package == NoPackageLabel)
  {
    map id | id in ReferralIds(s, uid) :: ReferralView(s.users[id].login, PackageLabel(s, s.users[id]))
  }

  // ---------------------------------------------------- GET referrals/stats

  datatype Stats = Stats(
    totalReferrals: nat,
    referralsWithPackages: nat,
    totalEarnings: int,
    earningsLimit: int,
    remainingLimit: int)

  /**
   * The limit the stats card shows: the package's earnings limit, or 0 for an
   * unknown user or one without a package. The personal limit is not added.
   */
  function StatsLimit(s: State, uid: int): int
  {
    if uid in s.users && PackageOf(s, s.users[uid]).Some? then PackageOf(s, s.users[uid]).value.earningsLimit else 0
  }

  /** `GET referrals/stats`. */
  function GetReferralStats(s: State, uid: int): (r: Stats)
    ensures r.totalReferrals == |ReferralIds(s, uid)|
    ensures r.referralsWithPackages == |ReferralIdsWithPackage(s, uid)|
    ensures r.referralsWithPackages <= r.totalReferrals
    ensures r.totalEarnings == Earned(s, uid)
    ensures r.earningsLimit == StatsLimit(s, uid)
    ensures r.remainingLimit >= 0
    ensures r.remainingLimit > 0 <==> r.totalEarnings < r.earningsLimit
    ensures r.remainingLimit > 0 ==> r.totalEarnings + r.remainingLimit == r.earningsLimit
  {
    var all, withPackage := ReferralIds(s, uid), ReferralIdsWithPackage(s, uid);
    assert all == withPackage + (all - withPackage);
    var earned := Earned(s, uid);
    var limit := StatsLimit(s, uid);
    Stats(|all|, |withPackage|, earned, limit, Max(limit - earned, 0))
  }

  // ------------------------------------------------- GET referrals/earnings

  /** One REFERRAL_BONUS row left-joined with the referral it names. */
  datatype EarningRow = EarningRow(referralId: Option<int>, referralLogin: Option<string>, bonus: int, date: int)

  /** The join: the referral's id and login when referral_id names an existing user, nulls otherwise. */
  function RowOf(s: State, t: Tx): (e: EarningRow)
    ensures e.bonus == t.amount && e.date == t.createdAt
    ensures e.referralId.Some? <==> t.referralId.Some? && t.referralId.value in s.users
    ensures e.referralId.Some? ==> e.referralId == t.referralId && e.referralLogin == Some(s.users[t.referralId.value].login)
    ensures e.referralId.None? ==> e.referralLogin.None?
  {
    if t.referralId.Some? && t.referralId.value in s.users then
      EarningRow(t.referralId, Some(s.users[t.referralId.value].login), t.amount, t.createdAt)
    else
      EarningRow(None, None, t.amount, t.createdAt)
  }

  /** Row k contributes to uid's earnings list. */
  predicate IsBonusOf(s: State, uid: int, k: int)
  {
    k in s.txs && s.txs[k].userId == uid && s.txs[k].kind == ReferralBonus
  }

  /** uid's rows among the transactions with id below n, in id order. */
  function BonusRows(s: State, uid: int, n: int): seq<EarningRow>
    decreases n
  {
    if n <= 0 then []
    else BonusRows(s, uid, n - 1) + (if IsBonusOf(s, uid, n - 1) then [RowOf(s, s.txs[n - 1])] else [])
  }

  /** The sum of the bonus column. */
  function Total(rows: seq<EarningRow>): int
  {
    if rows == [] then 0 else rows[0].bonus + Total(rows[1..])
  }

  /** `ORDER BY created_at DESC`. */
  predicate NewestFirst(rows: seq<EarningRow>)
  {
    forall i, j :: 0 <= i < j < |rows| ==> rows[i].date >= rows[j].date
  }

  /** Puts x in front of the first row that is not newer than it. */
  function InsertByDate(x: EarningRow, rows: seq<EarningRow>): (r: seq<EarningRow>)
    ensures multiset(r) == multiset(rows) + multiset{x}
    ensures Total(r) == x.bonus + Total(rows)
    ensures r[0] == x || (rows != [] && r[0] == rows[0])
  {
    if rows == [] || rows[0].date <= x.date then
      assert ([x] + rows)[1..] == rows;
      [x] + rows
    else
      var rest := InsertByDate(x, rows[1..]);
      assert rows == [rows[0]] + rows[1..];
      assert ([rows[0]] + rest)[1..] == rest;
      [rows[0]] + rest
  }

  /** Inserting into a list ordered newest first keeps it ordered. */
  lemma {:induction false} InsertKeepsOrder(x: EarningRow, rows: seq<EarningRow>)
    requires NewestFirst(rows)
    ensures NewestFirst(InsertByDate(x, rows))
  {
    var r := InsertByDate(x, rows);
    if rows == [] || rows[0].date <= x.date {
      assert r == [x] + rows;
      forall i, j | 0 <= i < j < |r|
        ensures r[i].date >= r[j].date
      {
        assert r[j] == rows[j - 1];
        if i > 0 {
          assert r[i] == rows[i - 1];
        } else {
          assert rows[0].date >= rows[j - 1].date;
        }
      }
    } else {
      var rest := InsertByDate(x, rows[1..]);
      assert r == [rows[0]] + rest;
      InsertKeepsOrder(x, rows[1..]);
      assert rest[0].date <= rows[0].date by {
        if rest[0] != x {
          assert rest[0] == rows[1];
        }
      }
      forall i, j | 0 <= i < j < |r|
        ensures r[i].date >= r[j].date
      {
        assert r[j] == rest[j - 1];
        if i > 0 {
          assert r[i] == rest[i - 1];
        } else if j > 1 {
          assert rest[0].date >= rest[j - 1].date;
        }
      }
    }
  }

  /** Orders rows newest first, keeping every row. */
  function SortNewestFirst(rows: seq<EarningRow>): (r: seq<EarningRow>)
    ensures multiset(r) == multiset(rows)
    ensures Total(r) == Total(rows)
  {
    if rows == [] then []
    else
      assert rows == [rows[0]] + rows[1..];
      assert Total(rows) == rows[0].bonus + Total(rows[1..]);
      InsertByDate(rows[0], SortNewestFirst(rows[1..]))
  }

  lemma {:induction false} SortIsNewestFirst(rows: seq<EarningRow>)
    ensures NewestFirst(SortNewestFirst(rows))
  {
    if rows != [] {
      SortIsNewestFirst(rows[1..]);
      InsertKeepsOrder(rows[0], SortNewestFirst(rows[1..]));
    }
  }

  datatype Earnings = Earnings(totalEarnings: int, referrals: seq<EarningRow>)

  /** `GET referrals/earnings`: the earned sum and uid's bonus rows, newest first. */
  function GetReferralEarnings(s: State, uid: int): (r: Earnings)
    ensures r.totalEarnings == Earned(s, uid)
    ensures NewestFirst(r.referrals)
    ensures multiset(r.referrals) == multiset(BonusRows(s, uid, s.nextTxId))
  {
    SortIsNewestFirst(BonusRows(s, uid, s.nextTxId));
    Earnings(Earned(s, uid), SortNewestFirst(BonusRows(s, uid, s.nextTxId)))
  }

  // --------------------------------------------------------------- lemmas

  lemma {:induction false} TotalAppend(a: seq<EarningRow>, b: seq<EarningRow>)
    ensures Total(a + b) == Total(a) + Total(b)
  {
    if a != [] {
      assert (a + b)[0] == a[0];
      assert (a + b)[1..] == a[1..] + b;
      TotalAppend(a[1..], b);
    } else {
      assert a + b == b;
    }
  }

  /** The rows of the list add up to the sum the ledger computes. */
  lemma {:induction false} BonusRowsTotal(s: State, uid: int, n: int)
    ensures Total(BonusRows(s, uid, n)) == SumBonuses(s.txs, uid, n)
  {
    if n > 0 {
      BonusRowsTotal(s, uid, n - 1);
      TotalAppend(BonusRows(s, uid, n - 1), if IsBonusOf(s, uid, n - 1) then [RowOf(s, s.txs[n - 1])] else []);
    }
  }

  /** The list one row per REFERRAL_BONUS of uid: as many rows as such transactions. */
  lemma {:induction false} BonusRowsCount(s: State, uid: int, n: int)
    requires 0 <= n
    ensures |BonusRows(s, uid, n)| == |set k | 0 <= k < n && IsBonusOf(s, uid, k)|
  {
    if n > 0 {
      BonusRowsCount(s, uid, n - 1);
      var below := set k | 0 <= k < n - 1 && IsBonusOf(s, uid, k);
      var upTo := set k | 0 <= k < n && IsBonusOf(s, uid, k);
      if IsBonusOf(s, uid, n - 1) {
        assert upTo == below + {n - 1};
      } else {
        assert upTo == below;
      }
    }
  }

  /**
   * The earnings screen is self-consistent: its rows add up to the total it
   * shows, and there is one row per bonus transaction of the user.
   */
  lemma EarningsAddUp(s: State, uid: int)
    requires Valid(s)
    ensures var r := GetReferralEarnings(s, uid);
      && Total(r.referrals) == r.totalEarnings
      && |r.referrals| == |set k | k in s.txs && IsBonusOf(s, uid, k)|
  {
    var rows := BonusRows(s, uid, s.nextTxId);
    BonusRowsTotal(s, uid, s.nextTxId);
    BonusRowsCount(s, uid, s.nextTxId);
    var r := GetReferralEarnings(s, uid);
    assert |r.referrals| == |multiset(r.referrals)| == |multiset(rows)| == |rows|;
    assert (set k | k in s.txs && IsBonusOf(s, uid, k)) == (set k | 0 <= k < s.nextTxId && IsBonusOf(s, uid, k));
  }

  /**
   * The list and the stats card agree: the same number of referrals, and the
   * "with package" counter (a test on the column) counts exactly the entries
   * the list shows with a loaded package.
   */
  lemma ReferralsMatchStats(s: State, uid: int)
    requires Valid(s)
    ensures |GetReferrals(s, uid)| == GetReferralStats(s, uid).totalReferrals
    ensures GetReferralStats(s, uid).referralsWithPackages
         == |set id | id in GetReferrals(s, uid) && PackageOf(s, s.users[id]).Some?|
  {
    var r := GetReferrals(s, uid);
    assert r.Keys == ReferralIds(s, uid);
    assert |r| == |r.Keys|;
    forall id | id in r
      ensures PackageOf(s, s.users[id]).Some? <==> s.users[id].packageId.Some?
    {
      assert id in s.users;
    }
    assert (set id | id in r && PackageOf(s, s.users[id]).Some?) == ReferralIdsWithPackage(s, uid);
  }

  /** The remaining limit shown is never more than the limit (bonuses are never negative). */
  lemma StatsRemainingBounded(s: State, uid: int)
    requires Valid(s)
    ensures 0 <= GetReferralStats(s, uid).remainingLimit <= GetReferralStats(s, uid).earningsLimit
  {
    EarnedNonNegative(s, uid);
    if uid in s.users && PackageOf(s, s.users[uid]).Some? {
      var p := s.users[uid].packageId.value;
      assert p in s.packages;
      assert forall id :: id in s.packages ==> PackageValid(s.packages[id]);
      assert PackageValid(s.packages[p]);
    }
  }

  /**
   * The stats card leaves out the personal limit that the payout rule adds,
   * so for a user with a package the two limits differ by exactly that amount.
   */
  lemma StatsLimitIgnoresPersonalLimit(s: State, uid: int)
    requires uid in s.users && PackageOf(s, s.users[uid]).Some?
    ensures StatsLimit(s, uid) == Packages.ReferralCap(s, s.users[uid]) - s.users[uid].personalEarningsLimit
  {
  }
}
