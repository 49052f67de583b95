/**
 * The records of the game economy: users, transactions, store items,
 * purchases and packages, with the column defaults of a fresh row.
 *
 * Units: every 2-decimal money column (balance, gameBalance,
 * personalEarningsLimit, amounts, package prices and limits) is an integer
 * number of cents; ton_amount is micro-TON; a store item's `multiplier` is in
 * hundredths (1.2 is 120); a store item's `price` is the integer column
 * itself, in whole game coins; times are milliseconds since the epoch.
 */
module Entities {
  import opened Wrappers

  // ---------------------------------------------------------------- users

  datatype UserRole = RegularUser | Admin

  /** A row of the users table; the map key that holds it is its id. */
  datatype User = User(
    login: string,
    balance: int,
    referrerId: Option<int>,
    role: UserRole,
    isBlocked: bool,
    packageId: Option<int>,
    personalEarningsLimit: int,
    level: int,
    clicks: int,
    gameBalance: int,
    skinId: int)

  /** Every user starts with skin 1, the default skin. */
  const DefaultSkinId: int := 1

  /** What the economy keeps true of every account. */
  predicate UserValid(u: User)
  {
    && u.balance >= 0
    && u.gameBalance >= 0
    && u.personalEarningsLimit >= 0
    && u.level >= 1
    && u.clicks >= 0
  }

  /** A freshly inserted user row: the column defaults. */
  function NewUser(login: string, referrerId: Option<int>): (u: User)
    ensures UserValid(u)
    ensures u.login == login && u.referrerId == referrerId
    ensures u.balance == 0 && u.gameBalance == 0 && u.personalEarningsLimit == 0
    ensures u.level == 1 && u.clicks == 0 && u.skinId == DefaultSkinId
    ensures u.role == RegularUser && !u.isBlocked && u.packageId == None
  {
    User(login, 0, referrerId, RegularUser, false, None, 0, 1, 0, 0, DefaultSkinId)
  }

  // --------------------------------------------------------- transactions

  datatype TxType = Deposit | Withdrawal | ReferralBonus | PackagePurchase

  datatype TxMethod = Tonkeeper | Card

  datatype TxStatus = Created | Pending | Approved | Rejected

  /** A row of the transactions table; `kind` is its `type` column and `payMethod` its `method` column. */
  datatype Tx = Tx(
    userId: int,
    kind: TxType,
    amount: int,
    payMethod: Option<TxMethod>,
    status: TxStatus,
    tonAmount: Option<int>,
    recipient: Option<string>,
    referralId: Option<int>,
    createdAt: int)

  /** A transaction row for which only owner, type, amount and time were set. */
  function NewTx(userId: int, kind: TxType, amount: int, createdAt: int): (t: Tx)
    ensures t.userId == userId && t.kind == kind && t.amount == amount && t.createdAt == createdAt
    ensures t.status == Pending
    ensures t.payMethod == None && t.tonAmount == None && t.recipient == None && t.referralId == None
  {
    Tx(userId, kind, amount, None, Pending, None, None, None, createdAt)
  }

  // ---------------------------------------------------------------- store

  datatype StoreItemType = Skin | Multiplier | ReferralLimitBoost

  /**
   * A row of store_items. `multiplier` (hundredths) is for skins and
   * multipliers, `bonus` (a percentage) for limit boosts, `duration`
   * (hours) for multipliers.
   */
  datatype StoreItem = StoreItem(
    name: string,
    kind: StoreItemType,
    price: int,
    multiplier: Option<int>,
    bonus: Option<int>,
    duration: Option<int>)

  predicate ItemValid(item: StoreItem)
  {
    && (item.multiplier.Some? ==> item.multiplier.value >= 0)
    && (item.bonus.Some? ==> item.bonus.value >= 0)
  }

  /** A row of user_purchases: owner, item, creation time, optional expiry. */
  datatype Purchase = Purchase(userId: int, itemId: int, purchasedAt: int, expiresAt: Option<int>)

  /** The ids of all SKIN items. */
  function SkinIds(items: map<int, StoreItem>): (ids: set<int>)
    ensures forall k :: k in ids <==> k in items && items[k].kind == Skin
  {
    set k | k in items && items[k].kind == Skin
  }

  /** `next` is the SKIN that comes right after SKIN `cur` in ascending id order. */
  predicate IsNextSkin(items: map<int, StoreItem>, cur: int, next: int)
  {
    && cur in SkinIds(items)
    && next in SkinIds(items)
    && cur < next
    && forall k :: k in SkinIds(items) && cur < k ==> next <= k
  }

  // ------------------------------------------------------------- packages

  /** A referral package: its price, the bonus paid to the referrer, the earnings cap. */
  datatype Package = Package(name: string, price: int, referralBonus: int, earningsLimit: int)

  predicate PackageValid(p: Package)
  {
    p.price >= 0 && p.referralBonus >= 0 && p.earningsLimit >= 0
  }
}
