/**
 * The persistent state of the economy (the repositories, as maps keyed by
 * row id), the errors and notifications of its operations, the invariant
 * every operation keeps, and the shared read-only queries.
 */
module Ledger {
  import opened Wrappers
  import opened Entities

  /** Why an operation was refused. Each one leaves the state untouched. */
  datatype Error =
    | UserNotFound
    | TxNotFound
    | InvalidAmount
    | UnsupportedMethod
    | DuplicateActiveDeposit
    | RateUnavailable
    | MissingRecipient
    | InsufficientFunds
    | ItemNotFound
    | NoActivePackage
    | BoostAlreadyOwned
    | ActiveMultiplierExists
    | OutOfSequence
    | AlreadyHasPackage
    | PackageNotFound

  /** A fire-and-forget push to one user's channel. */
  datatype Event =
    | BalanceUpdate(userId: int, balance: int)
    | TransactionUpdate(userId: int, txId: int, status: TxStatus)
    | LevelUp(userId: int, level: int, gameBalance: int, bonus: int)
    | BoosterExpired(userId: int)

  /**
   * The tables. Rows of transactions and purchases get ids from a counter,
   * as an auto-increment primary key does.
   */
  datatype State = State(
    users: map<int, User>,
    txs: map<int, Tx>,
    purchases: map<int, Purchase>,
    items: map<int, StoreItem>,
    packages: map<int, Package>,
    nextTxId: int,
    nextPurchaseId: int)

  /** The outcome of one operation: its answer, the new state, the pushes it sent. */
  datatype Step<T> = Step(result: Result<T, Error>, state: State, events: seq<Event>)

  /** A refused operation: nothing changes and nothing is sent. */
  function Fail<T>(s: State, e: Error): (o: Step<T>)
    ensures o.result == Failure(e) && o.state == s && o.events == []
  {
    Step(Failure(e), s, [])
  }

  /** The invariant of the tables. */
  predicate Valid(s: State)
  {
    && 0 <= s.nextTxId && 0 <= s.nextPurchaseId
    && (forall k :: k in s.txs ==> 0 <= k < s.nextTxId && s.txs[k].amount >= 0)
    && (forall k :: k in s.purchases ==> 0 <= k < s.nextPurchaseId)
    && (forall id :: id in s.users ==> UserValid(s.users[id]))
    && (forall id :: id in s.users && s.users[id].packageId.Some? ==> s.users[id].packageId.value in s.packages)
    && (forall id :: id in s.items ==> ItemValid(s.items[id]))
    && (forall id :: id in s.packages ==> PackageValid(s.packages[id]))
  }

  /** `user.package` as loaded through the package relation. */
  function PackageOf(s: State, u: User): (p: Option<Package>)
    ensures p.Some? <==> u.packageId.Some? && u.packageId.value in s.packages
    ensures p.Some? ==> p.value == s.packages[u.packageId.value]
  {
    if u.packageId.Some? && u.packageId.value in s.packages then Some(s.packages[u.packageId.value]) else None
  }

  /** Inserts a transaction row under the next id. */
  function AddTx(s: State, t: Tx): State
  {
    s.(txs := s.txs[s.nextTxId := t], nextTxId := s.nextTxId + 1)
  }

  /** Inserts a purchase row under the next id. */
  function AddPurchase(s: State, p: Purchase): State
  {
    s.(purchases := s.purchases[s.nextPurchaseId := p], nextPurchaseId := s.nextPurchaseId + 1)
  }

  // ------------------------------------------- SUM of REFERRAL_BONUS amounts

  /** What row k adds to `SUM(amount) WHERE user = uid AND type = REFERRAL_BONUS`. */
  function BonusAt(txs: map<int, Tx>, uid: int, k: int): int
  {
    if k in txs && txs[k].userId == uid && txs[k].kind == ReferralBonus then txs[k].amount else 0
  }

  /** The sum over the rows with id below n. */
  function SumBonuses(txs: map<int, Tx>, uid: int, n: int): int
    decreases n
  {
    if n <= 0 then 0 else SumBonuses(txs, uid, n - 1) + BonusAt(txs, uid, n - 1)
  }

  /** All referral bonuses ever recorded for uid, whatever their status (0 when there are none). */
  function Earned(s: State, uid: int): (r: int)
    ensures (forall k :: k in s.txs ==> s.txs[k].amount >= 0) ==> r >= 0
    ensures (forall k :: k in s.txs && s.txs[k].userId == uid ==> s.txs[k].kind != ReferralBonus) ==> r == 0
  {
    SumBonusesBounds(s.txs, uid, s.nextTxId);
    SumBonuses(s.txs, uid, s.nextTxId)
  }

  lemma SumBonusesBounds(txs: map<int, Tx>, uid: int, n: int)
    ensures (forall k :: k in txs ==> txs[k].amount >= 0) ==> SumBonuses(txs, uid, n) >= 0
    ensures (forall k :: k in txs && txs[k].userId == uid ==> txs[k].kind != ReferralBonus) ==> SumBonuses(txs, uid, n) == 0
  {
    if forall k :: k in txs ==> txs[k].amount >= 0 {
      SumBonusesNonNegative(txs, uid, n);
    }
    if forall k :: k in txs && txs[k].userId == uid ==> txs[k].kind != ReferralBonus {
      SumBonusesNone(txs, uid, n);
    }
  }

  /** With no REFERRAL_BONUS row of uid the SUM is empty, and `|| 0` makes it 0. */
  lemma {:induction false} SumBonusesNone(txs: map<int, Tx>, uid: int, n: int)
    requires forall k :: k in txs && txs[k].userId == uid ==> txs[k].kind != ReferralBonus
    ensures SumBonuses(txs, uid, n) == 0
  {
    if n > 0 {
      SumBonusesNone(txs, uid, n - 1);
    }
  }

  lemma {:induction false} SumBonusesNonNegative(txs: map<int, Tx>, uid: int, n: int)
    requires forall k :: k in txs ==> txs[k].amount >= 0
    ensures SumBonuses(txs, uid, n) >= 0
  {
    if n > 0 {
      SumBonusesNonNegative(txs, uid, n - 1);
    }
  }

  lemma EarnedNonNegative(s: State, uid: int)
    requires Valid(s)
    ensures Earned(s, uid) >= 0
  {
    SumBonusesNonNegative(s.txs, uid, s.nextTxId);
  }

  /** The sum depends only on what each row below n contributes. */
  lemma {:induction false} SumBonusesFrame(t1: map<int, Tx>, t2: map<int, Tx>, uid: int, n: int)
    requires forall k :: 0 <= k < n ==> BonusAt(t1, uid, k) == BonusAt(t2, uid, k)
    ensures SumBonuses(t1, uid, n) == SumBonuses(t2, uid, n)
  {
    if n > 0 {
      SumBonusesFrame(t1, t2, uid, n - 1);
    }
  }

  /** Inserting a row adds exactly its own contribution to every user's sum. */
  lemma EarnedAfterAdd(s: State, t: Tx, uid: int)
    requires 0 <= s.nextTxId && forall k :: k in s.txs ==> k < s.nextTxId
    ensures Earned(AddTx(s, t), uid)
         == Earned(s, uid) + (if t.userId == uid && t.kind == ReferralBonus then t.amount else 0)
  {
    var s' := AddTx(s, t);
    SumBonusesFrame(s.txs, s'.txs, uid, s.nextTxId);
  }

  /** Deleting a row takes exactly its own contribution off the sum. */
  lemma {:induction false} SumBonusesAfterRemove(txs: map<int, Tx>, uid: int, n: int, id: int)
    requires 0 <= id
    ensures SumBonuses(txs - {id}, uid, n)
         == SumBonuses(txs, uid, n) - (if id < n then BonusAt(txs, uid, id) else 0)
  {
    if n > 0 {
      SumBonusesAfterRemove(txs, uid, n - 1, id);
    }
  }

  /** A change that leaves every row's owner, type and amount alone leaves every sum alone. */
  lemma EarnedFrame(s: State, s': State, uid: int)
    requires s'.nextTxId == s.nextTxId
    requires s'.txs.Keys == s.txs.Keys
    requires forall k :: k in s.txs ==>
      s'.txs[k].userId == s.txs[k].userId && s'.txs[k].kind == s.txs[k].kind && s'.txs[k].amount == s.txs[k].amount
    ensures Earned(s', uid) == Earned(s, uid)
  {
    SumBonusesFrame(s.txs, s'.txs, uid, s.nextTxId);
  }

  // ------------------------------------------------------ purchase queries

  /** Purchase k is a MULTIPLIER of uid whose expiry lies after now. */
  predicate IsActiveMultiplier(s: State, k: int, uid: int, now: int)
  {
    && k in s.purchases
    && s.purchases[k].userId == uid
    && s.purchases[k].itemId in s.items
    && s.items[s.purchases[k].itemId].kind == Multiplier
    && s.purchases[k].expiresAt.Some?
    && s.purchases[k].expiresAt.value > now
  }

  predicate HasActiveMultiplier(s: State, uid: int, now: int)
  {
    exists k :: k in s.purchases && IsActiveMultiplier(s, k, uid, now)
  }

  /** uid has a deposit awaiting payment (DEPOSIT in status CREATED). */
  predicate HasCreatedDeposit(s: State, uid: int)
  {
    exists k :: k in s.txs && s.txs[k].userId == uid && s.txs[k].kind == Deposit && s.txs[k].status == Created
  }

  /** No user has two deposits awaiting payment at once. */
  predicate OpenDepositsUnique(s: State)
  {
    forall j, k :: j in s.txs && k in s.txs
      && s.txs[j].kind == Deposit && s.txs[j].status == Created
      && s.txs[k].kind == Deposit && s.txs[k].status == Created
      && s.txs[j].userId == s.txs[k].userId
      ==> j == k
  }

  /**
   * s' differs from s only in the users `uids` and the transactions `tids`:
   * no row is added or removed, purchases and reference data are untouched.
   */
  predicate ChangesOnly(s: State, s': State, uids: set<int>, tids: set<int>)
  {
    && s'.users.Keys == s.users.Keys
    && (forall u :: u in s.users && u !in uids ==> s'.users[u] == s.users[u])
    && s'.txs.Keys == s.txs.Keys
    && (forall k :: k in s.txs && k !in tids ==> s'.txs[k] == s.txs[k])
    && s'.purchases == s.purchases && s'.items == s.items && s'.packages == s.packages
    && s'.nextTxId == s.nextTxId && s'.nextPurchaseId == s.nextPurchaseId
  }

  // ------------------------------------------ what every operation respects

  /** CREATED -> PENDING -> APPROVED | REJECTED, never backwards; APPROVED and REJECTED are final. */
  predicate Advances(a: TxStatus, b: TxStatus)
  {
    a == b || (a == Created && b != Created) || (a == Pending && (b == Approved || b == Rejected))
  }

  /**
   * Between s and s': a surviving transaction only moves its status forward
   * and nothing else about it changes; only CREATED or PENDING rows are
   * deleted; new rows take fresh ids.
   */
  predicate RespectsLifecycle(s: State, s': State)
  {
    && s.nextTxId <= s'.nextTxId
    && (forall k :: k in s.txs && k in s'.txs ==>
          Advances(s.txs[k].status, s'.txs[k].status) && s'.txs[k] == s.txs[k].(status := s'.txs[k].status))
    && (forall k :: k in s.txs && k !in s'.txs ==> s.txs[k].status == Created || s.txs[k].status == Pending)
    && (forall k :: k in s'.txs && k !in s.txs ==> s.nextTxId <= k)
  }

  /**
   * One account between two states: identity fields fixed, a package once
   * set is kept, the personal limit, level and clicks never decrease, and
   * the skin stays or moves to the very next skin.
   */
  predicate AccountAdvances(items: map<int, StoreItem>, u: User, u': User)
  {
    && u'.login == u.login && u'.referrerId == u.referrerId
    && u'.role == u.role && u'.isBlocked == u.isBlocked
    && (u.packageId.Some? ==> u'.packageId == u.packageId)
    && u.personalEarningsLimit <= u'.personalEarningsLimit
    && u.level <= u'.level && u.clicks <= u'.clicks
    && (u'.skinId == u.skinId || IsNextSkin(items, u.skinId, u'.skinId))
  }

  /** Users are never created or deleted by the economy; reference data never changes. */
  predicate AccountsAdvance(s: State, s': State)
  {
    && s'.users.Keys == s.users.Keys
    && s'.items == s.items && s'.packages == s.packages
    && s.nextPurchaseId <= s'.nextPurchaseId
    && forall id :: id in s.users ==> AccountAdvances(s.items, s.users[id], s'.users[id])
  }

  // ----------------------------------------- building blocks of the invariants

  /** Rewriting one account within the rules keeps every invariant. */
  lemma SetUserKeeps(s: State, uid: int, u': User)
    requires Valid(s) && OpenDepositsUnique(s) && uid in s.users
    requires UserValid(u') && (u'.packageId.Some? ==> u'.packageId.value in s.packages)
    requires AccountAdvances(s.items, s.users[uid], u')
    ensures var s' := s.(users := s.users[uid := u']);
      Valid(s') && OpenDepositsUnique(s') && RespectsLifecycle(s, s') && AccountsAdvance(s, s')
  {
  }

  /** Inserting a transaction row keeps every invariant, unless it opens a second unpaid deposit. */
  lemma AddTxKeeps(s: State, t: Tx)
    requires Valid(s) && OpenDepositsUnique(s) && t.amount >= 0
    requires t.kind == Deposit && t.status == Created ==> !HasCreatedDeposit(s, t.userId)
    ensures var s' := AddTx(s, t);
      Valid(s') && OpenDepositsUnique(s') && RespectsLifecycle(s, s') && AccountsAdvance(s, s')
  {
    var s' := AddTx(s, t);
    forall u | u in s.users
      ensures AccountAdvances(s.items, s.users[u], s'.users[u])
    {
    }
  }

  /** Inserting a purchase row keeps every invariant. */
  lemma AddPurchaseKeeps(s: State, p: Purchase)
    requires Valid(s) && OpenDepositsUnique(s)
    ensures var s' := AddPurchase(s, p);
      Valid(s') && OpenDepositsUnique(s') && RespectsLifecycle(s, s') && AccountsAdvance(s, s')
  {
    var s' := AddPurchase(s, p);
    forall u | u in s.users
      ensures AccountAdvances(s.items, s.users[u], s'.users[u])
    {
    }
  }

  /** A refused operation leaves the tables as they were, which keeps every invariant. */
  lemma UnchangedKeeps(s: State)
    requires Valid(s) && OpenDepositsUnique(s)
    ensures Valid(s) && OpenDepositsUnique(s) && RespectsLifecycle(s, s) && AccountsAdvance(s, s)
  {
    forall u | u in s.users
      ensures AccountAdvances(s.items, s.users[u], s.users[u])
    {
    }
  }

  /** Moving one transaction forward to a status other than CREATED keeps every invariant. */
  lemma SetStatusKeeps(s: State, id: int, st: TxStatus)
    requires Valid(s) && OpenDepositsUnique(s) && id in s.txs
    requires Advances(s.txs[id].status, st) && st != Created
    ensures var s' := s.(txs := s.txs[id := s.txs[id].(status := st)]);
      Valid(s') && OpenDepositsUnique(s') && RespectsLifecycle(s, s') && AccountsAdvance(s, s')
  {
    var s' := s.(txs := s.txs[id := s.txs[id].(status := st)]);
    forall u | u in s.users
      ensures AccountAdvances(s.items, s.users[u], s'.users[u])
    {
    }
  }

  /** Two steps in a row respect the rules when the second leaves every skin alone. */
  lemma Chain(a: State, b: State, c: State)
    requires Valid(a)
    requires RespectsLifecycle(a, b) && AccountsAdvance(a, b)
    requires RespectsLifecycle(b, c) && AccountsAdvance(b, c)
    requires forall id :: id in b.users ==> c.users[id].skinId == b.users[id].skinId
    ensures RespectsLifecycle(a, c) && AccountsAdvance(a, c)
  {
    forall id | id in a.users
      ensures AccountAdvances(a.items, a.users[id], c.users[id])
    {
      assert AccountAdvances(a.items, a.users[id], b.users[id]);
      assert AccountAdvances(b.items, b.users[id], c.users[id]);
    }
    forall k | k in a.txs && k in c.txs
      ensures Advances(a.txs[k].status, c.txs[k].status) && c.txs[k] == a.txs[k].(status := c.txs[k].status)
    {
      assert k in b.txs;
    }
  }

  /** Rewriting one account and then recording a transaction that is not an unpaid deposit. */
  lemma SetUserThenAddTxKeeps(s: State, uid: int, u': User, t: Tx)
    requires Valid(s) && OpenDepositsUnique(s) && uid in s.users
    requires UserValid(u') && (u'.packageId.Some? ==> u'.packageId.value in s.packages)
    requires AccountAdvances(s.items, s.users[uid], u')
    requires t.amount >= 0 && !(t.kind == Deposit && t.status == Created)
    ensures var s' := AddTx(s.(users := s.users[uid := u']), t);
      Valid(s') && OpenDepositsUnique(s') && RespectsLifecycle(s, s') && AccountsAdvance(s, s')
  {
    var s1 := s.(users := s.users[uid := u']);
    SetUserKeeps(s, uid, u');
    AddTxKeeps(s1, t);
    Chain(s, s1, AddTx(s1, t));
  }
}
