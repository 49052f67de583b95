# fruitqwest economy, modelled in Dafny

This project models the economy layer of the fruitqwest game server (a NestJS
application). Players earn game coins by clicking. Their real-money balance
moves through a moderated transaction pipeline: TonKeeper deposits, card
withdrawals, and operator confirm/approve/reject/cancel. They buy skins,
multipliers and referral-limit boosts in a store, and buy packages. A package
purchase pays a capped bonus to the buyer's referrer.

The database tables become maps keyed by row id, gathered in `Ledger.State`.
Every operation is a specification function from a state to a
`Step(result, state, events)`:

- the result is `Success` or a `Failure` naming the refusal;
- a refusal leaves the state untouched;
- the events stand for the WebSocket notifications.

The class `Economy.Economy` holds the same tables as fields and updates them
in place, as the controllers and services do. Each of its methods is proved
to produce exactly the state, answer and notifications of its specification
function. Every operation is also proved to keep the table invariants
(`Ledger.Valid`, `Ledger.OpenDepositsUnique`) and to respect two rules:

- transaction statuses only move CREATED → PENDING → APPROVED | REJECTED, and only CREATED or PENDING rows are deleted;
- accounts only advance: package set once, limit, level and clicks never decrease, skin moves to the next skin only.

The read-only screens are plain functions: referral list, referral stats,
referral earnings and the profile's referral limit.

Units (all integers):

- money columns (balance, gameBalance, personal limit, amounts, package price/bonus/limit) are cents;
- `ton_amount` is micro-TON, and the TON rate is micro-AMD per TON;
- store multipliers are hundredths (1.2 is 120), and click values are ten-thousandths of a coin;
- store item prices are whole coins, as the integer column is, so an item costs `price * 100` cents;
- times are milliseconds.

`toFixed(n)` becomes rounding half away from zero at that scale (`FixedPoint.RoundHalfAway`).
The level threshold `floor(100 * 1.3^(L-1))` is computed exactly as `100 * 13^(L-1) div 10^(L-1)`.

Module layout:

- `wrappers.dfy` and `fixed_point.dfy`: helpers;
- `strings.dfy`: JavaScript `trim` and `padStart`, digits;
- `entities.dfy`: the entity files;
- `ledger.dfy`: the state, the invariants and the SUM of referral bonuses;
- `admin.dfy`, `transactions.dfy`, `game_store.dfy`, `progression.dfy` (`handleClick`), `packages.dfy`, `referrals.dfy` and `profile.dfy`: one per source file;
- `economy.dfy`: the stateful class.

In these places the model follows the code as written:

- The referral stats card (`GET referrals/stats`) uses the package's earnings limit alone. It does not use the cap with the personal limit added. `Profile.StatsNeverExceedProfile` states the difference.
- The expired-booster sweep notifies only when it removed something.
- A new user's skin is 1.
- A transaction amount may be 0 (a package priced 0). Only deposits and withdrawals demand a positive amount.

## Model

| member | source | states |
|---|---|---|
| Entities.NewUser | src/users/users.entity.ts:22-72 | a new account has balance 0, game balance 0, personal limit 0, level 1, clicks 0, skin 1, role USER, not blocked, no package |
| Entities.NewTx | src/transactions/transactions.entity.ts:32-52 | a row for which only owner, type and amount are set is PENDING (the column default) and has no method, TON amount, recipient or referral |
| Ledger.Earned | src/referrals/referrals.controller.ts:50-57 | the SUM of a user's REFERRAL_BONUS amounts, read as 0 when empty: 0 when the user has no such row, and never negative when no amount in the table is negative |
| Ledger.EarnedNonNegative | src/referrals/referrals.controller.ts:50-57 | the SUM of a user's REFERRAL_BONUS amounts (0 when there are none) is never negative |
| Ledger.EarnedAfterAdd | src/packages/packages.controller.ts:78-85 | inserting a row raises a user's referral SUM by its amount exactly when it is that user's REFERRAL_BONUS, and leaves it otherwise |
| Admin.Confirm | src/admin/admin.controller.ts:48-62 | succeeds iff the transaction exists and is CREATED; then only its status changes, to PENDING, and no balance moves; otherwise TxNotFound and nothing changes |
| Admin.Cancel | src/admin/admin.controller.ts:66-79 | succeeds iff the transaction is PENDING; it is deleted and no balance changes, so a cancelled withdrawal's reserved amount is not returned |
| Admin.Approve | src/admin/admin.controller.ts:82-114 | PENDING is required (else TxNotFound), then an existing owner (else UserNotFound); a DEPOSIT credits exactly its amount to the owner, other types move nothing; the status becomes APPROVED; only that owner and that row change; a balance push for deposits, then a status push |
| Admin.Reject | src/admin/admin.controller.ts:117-149 | as approve, but a WITHDRAWAL returns exactly its amount and the status becomes REJECTED |
| Admin.SettledIsFinal | src/admin/admin.controller.ts:50-52 | on an APPROVED or REJECTED transaction confirm, cancel, approve and reject all fail with TxNotFound and change nothing |
| Admin.ApproveTwice | src/admin/admin.controller.ts:84-91 | after a successful approve a second approve or a reject fails, so a deposit is credited once |
| Admin.RejectTwice | src/admin/admin.controller.ts:119-126 | after a successful reject a second reject or an approve fails, so a withdrawal is refunded once |
| Admin.CancelLowersEarned | src/admin/admin.controller.ts:66-79 | deleting a PENDING referral bonus lowers its owner's earned sum by that amount while the balance it was credited with stays |
| Admin.ApproveKeepsInvariants | src/admin/admin.controller.ts:82-114 | approve keeps the table invariants, moves statuses only forward and lets accounts only advance |
| Admin.RejectKeepsInvariants | src/admin/admin.controller.ts:117-149 | the same for reject |
| Admin.ConfirmKeepsInvariants | src/admin/admin.controller.ts:48-62 | the same for confirm |
| Admin.Settle | src/admin/admin.controller.ts:82-149 | the step shared by approve and reject succeeds iff the row is PENDING and its owner exists; the row alone gets the target status, only the owner's balance changes, by the amount exactly when the row has the credited type; a failure changes nothing |
| Admin.SettleKeeps | src/admin/admin.controller.ts:98-108 | crediting the owner and then moving the row to APPROVED or REJECTED keeps the invariants |
| Admin.CancelKeepsInvariants | src/admin/admin.controller.ts:66-79 | the same for cancel |
| Transactions.TonAmount | src/transactions/transactions.controller.ts:104 | the TON amount is amount / rate rounded to 6 decimals: for any non-zero rate it lies within half a micro-TON of the exact quotient and has the quotient's sign, so it is non-negative for a positive rate and a non-negative amount; a negative rate passes the `!tonRate` check as in the source, and a deposit amount (always positive) then yields a non-positive TON amount |
| Transactions.CreateDeposit | src/transactions/transactions.controller.ts:73-127 | fails in order on amount ≤ 0, method not TONKEEPER, an existing CREATED deposit of the user, unknown user, rate missing or 0; succeeds exactly otherwise, adding one CREATED TONKEEPER DEPOSIT carrying the TON amount and touching no balance |
| Transactions.DepositTwice | src/transactions/transactions.controller.ts:85-92 | right after a successful deposit, a second deposit of the same user fails with DuplicateActiveDeposit |
| Transactions.RecipientMissing | src/transactions/transactions.controller.ts:144-146 | `!recipient \|\| recipient.trim() === ''` holds exactly when the recipient is absent or made only of JavaScript whitespace |
| Transactions.RequestWithdrawal | src/transactions/transactions.controller.ts:132-168 | fails in order on amount ≤ 0, method not CARD, blank recipient, unknown user, balance below amount; on success the balance drops by exactly the amount and stays ≥ 0, and a PENDING CARD WITHDRAWAL with the recipient is recorded |
| Transactions.CancelDeposit | src/transactions/transactions.controller.ts:173-190 | succeeds iff the id is the caller's own CREATED DEPOSIT; only that row is deleted and every other table, counter and balance is unchanged; anything else is TxNotFound |
| Transactions.CancelReopensDeposit | src/transactions/transactions.controller.ts:85-92 | after cancelling its unpaid deposit the user holds no CREATED deposit, so a new one can be opened |
| Transactions.CreateDepositKeepsInvariants | src/transactions/transactions.controller.ts:73-127 | deposits keep the invariants, including at most one CREATED deposit per user |
| Transactions.WithdrawnKeepsInvariants | src/transactions/transactions.controller.ts:155-165 | the accepted withdrawal's tables keep the invariants |
| Transactions.RequestWithdrawalKeepsInvariants | src/transactions/transactions.controller.ts:132-168 | withdrawal requests keep the invariants |
| Transactions.CancelDepositKeepsInvariants | src/transactions/transactions.controller.ts:173-190 | deposit cancellation keeps the invariants |
| Transactions.FormatDate | src/transactions/transactions.controller.ts:33-44 | 'Нет данных' for a missing date; for a well-formed date, `-`, `-`, ` ` and `:` at fixed places from either end, the two-digit fields read back as day, 1-based month, hours and minutes, and the unpadded year printed between them |
| Transactions.FormatDateRoundTrip | src/transactions/transactions.controller.ts:33-44 | `DD-MM-YYYY HH:MM` with two-digit zero padding and a 1-based month: reading the fields back at their fixed positions gives the date again (a four-digit year) |
| Transactions.NoDataIsNotADate | src/transactions/transactions.controller.ts:34 | a missing date gives 'Нет данных', which no date formats to |
| Strings.TrimEmptyIff | src/transactions/transactions.controller.ts:144 | `trim()` gives the empty string iff every character is whitespace |
| Strings.Pad2Digits | src/transactions/transactions.controller.ts:36-41 | `String(n).padStart(2, '0')` of 0..99 is its tens digit then its units digit |
| GameStore.ExpiryFor | src/game-store/game-store.service.ts:165-169 | a purchase expires at now + duration hours in milliseconds when duration is non-zero, and never otherwise |
| GameStore.SkinSequenceLaw | src/game-store/game-store.service.ts:141-154 | the sorted-list test (current skin found, item at the next index) holds iff the item is the least SKIN id above the current SKIN |
| GameStore.IsNextSkinInCatalogue | src/game-store/game-store.service.ts:141-154 | one pass over the catalogue answers exactly whether the item is the next skin |
| GameStore.BoostedLimit | src/game-store/game-store.service.ts:116-121 | the personal limit grows by bonus percent of the package limit (missing bonus counts as 0), rounded to the cent, and never shrinks |
| GameStore.BuyItem | src/game-store/game-store.service.ts:87-175 | refusals in order: unknown user, unknown item, game balance below price, then per type: boost without package or already owned, multiplier while one runs, skin out of sequence; succeeds exactly otherwise, storing the purchase with its expiry |
| GameStore.BuyItemEffect | src/game-store/game-store.service.ts:95-172 | a purchase debits exactly the price and leaves the game balance ≥ 0; only a skin changes the skin (to the item), only the boost changes the personal limit; nothing else about any account or transaction changes |
| GameStore.BoostOnlyOnce | src/game-store/game-store.service.ts:106-114 | after buying a limit boost, every later boost purchase fails, and with the balance for it the refusal is BoostAlreadyOwned |
| GameStore.MultiplierWhileActive | src/game-store/game-store.service.ts:129-138 | while a bought multiplier has not expired no other multiplier can be bought, and with the balance for it the refusal is ActiveMultiplierExists |
| GameStore.SkinPurchaseAdvances | src/game-store/game-store.service.ts:141-158 | a skin purchase moves the account to the next skin of the catalogue |
| GameStore.BuyItemKeepsInvariants | src/game-store/game-store.service.ts:87-175 | purchases keep the invariants |
| GameStore.CheckExpiredBoosters | src/game-store/game-store.service.ts:28-48 | removes exactly the user's purchases with expiresAt < now (null or later expiries survive), changes nothing else, and notifies iff something was removed |
| GameStore.CheckExpiredIdempotent | src/game-store/game-store.service.ts:28-48 | a second sweep at the same time changes nothing and sends nothing |
| GameStore.CheckExpiredKeepsActive | src/game-store/game-store.service.ts:32-35 | the sweep keeps every running multiplier and every other user's purchase |
| GameStore.CheckExpiredKeepsInvariants | src/game-store/game-store.service.ts:28-48 | the sweep keeps the invariants |
| Progression.LevelThreshold | src/users/users.service.ts:107 | the threshold is floor(100 · 1.3^(L-1)) exactly |
| Progression.LevelThresholdValues | src/users/users.service.ts:107 | levels 1, 2 and 3 need 100, 130 and 169 clicks |
| Progression.LevelThresholdGrows | src/users/users.service.ts:107 | each level needs strictly more clicks than the one before |
| Progression.Click | src/users/users.service.ts:100-112 | clicks grow by exactly 1; the balance becomes the old one plus the click value rounded to cents; the level rises by exactly 1 iff the new click count reaches the old level's threshold, paying old level × 10 coins; nothing else changes |
| Progression.FirstActiveMultiplier | src/users/users.service.ts:87-94 | finds the first running MULTIPLIER purchase of the user, or reports that none runs |
| Progression.BoostMultiplier | src/users/users.service.ts:87-96 | the running multiplier's factor, 1.0 when none runs |
| Progression.SkinMultiplier | src/users/users.service.ts:86-95 | the current skin's factor, 1.0 when it is not a SKIN or has none |
| Progression.HandleClick | src/users/users.service.ts:82-120 | an unknown user gets (0, 1.0) and nothing changes; otherwise the account is clicked at skin × boost, only it changes, and the level-up push is sent iff the level rose |
| Progression.ClickValueIgnoresProgress | src/users/users.service.ts:116 | the click value depends on the skin and the running multiplier only, not on balance, level or clicks |
| Progression.HandleClickKeepsInvariants | src/users/users.service.ts:82-120 | clicking keeps the invariants |
| Progression.HundredClicks | src/users/users.service.ts:100-111 | a new player clicking 100 times at 1.0 ends on level 2 with 110 coins |
| Progression.FirstClicks | src/users/users.service.ts:100-111 | before its hundredth click a new player stays on level 1 with one coin per click |
| Packages.ReferralCap | src/packages/packages.controller.ts:71-74 | the referrer's cap is the package limit plus the personal limit, at least the package limit |
| Packages.PayReferralBonus | src/packages/packages.controller.ts:61-107 | the referrer is paid iff it is a non-zero existing id holding a package and its earned sum is below its cap; then its balance grows by the full bonus and a REFERRAL_BONUS naming the buyer is recorded (PENDING by default); otherwise nothing changes |
| Packages.Purchased | src/packages/packages.controller.ts:48-59 | the buyer is debited the price and given the package, no other account changes, one APPROVED PACKAGE_PURCHASE row of the buyer with amount = price is added at the next id, and nothing else changes |
| Packages.BuyPackage | src/packages/packages.controller.ts:24-110 | fails in order for an unknown user, one who already holds a package, an unknown package, a balance below the price; succeeds exactly otherwise and answers the package name |
| Packages.BuyPackageOnce | src/packages/packages.controller.ts:34-50 | after a successful purchase every further purchase by that user fails with AlreadyHasPackage |
| Packages.PurchasedKeepsEarned | src/packages/packages.controller.ts:53-59 | the APPROVED PACKAGE_PURCHASE row changes nobody's earned sum |
| Packages.PayoutLaw | src/packages/packages.controller.ts:89-100 | only the referrer gains, by exactly the bonus in balance and in earned sum |
| Packages.ReferralBonusLaw | src/packages/packages.controller.ts:61-107 | the bonus is paid iff earned < cap before payment, is not clamped (earned may end above the cap by less than one bonus), and when the cap is reached every balance and sum stays while the purchase succeeds |
| Packages.PurchasedKeepsInvariants | src/packages/packages.controller.ts:48-59 | the purchase step keeps the invariants |
| Packages.PayoutKeepsInvariants | src/packages/packages.controller.ts:89-100 | the payout step keeps the invariants and every skin |
| Packages.BuyPackageKeepsInvariants | src/packages/packages.controller.ts:24-110 | package purchases keep the invariants |
| Referrals.GetReferrals | src/referrals/referrals.controller.ts:17-30 | exactly the users whose referrer is the caller, each with its login and its package's name, or 'Без пакета' without one |
| Referrals.GetReferralStats | src/referrals/referrals.controller.ts:34-75 | counts the referrals and those with a package (never more); earned is the bonus sum; the limit is the package limit or 0; remaining = max(limit − earned, 0) is ≥ 0 and positive iff earned < limit |
| Referrals.StatsRemainingBounded | src/referrals/referrals.controller.ts:65-66 | remaining lies between 0 and the limit |
| Referrals.StatsLimitIgnoresPersonalLimit | src/referrals/referrals.controller.ts:65 | the stats limit is the payout cap minus the personal limit, unlike the purchase rule |
| Referrals.ReferralsMatchStats | src/referrals/referrals.controller.ts:17-47 | the list has as many entries as the total counter, and the "with package" counter equals the number of entries shown with a package |
| Referrals.RowOf | src/referrals/referrals.controller.ts:95-105 | each bonus row shows its amount and date, and the referral's id and login when referral_id names an existing user, nulls otherwise |
| Referrals.InsertKeepsOrder | src/referrals/referrals.controller.ts:106 | inserting by date keeps a newest-first list newest first |
| Referrals.SortIsNewestFirst | src/referrals/referrals.controller.ts:106 | the sorted list is ordered by created_at descending |
| Referrals.SortNewestFirst | src/referrals/referrals.controller.ts:106 | sorting keeps every row (same multiset) and the total |
| Referrals.GetReferralEarnings | src/referrals/referrals.controller.ts:81-123 | the earned total, and the user's REFERRAL_BONUS rows, all of them, ordered newest first |
| Referrals.EarningsAddUp | src/referrals/referrals.controller.ts:84-107 | the listed bonuses add up to the total shown, one row per REFERRAL_BONUS transaction of the user |
| Referrals.BonusRowsTotal | src/referrals/referrals.controller.ts:84-107 | the rows' bonuses sum to the SUM query |
| Profile.LimitOf | src/users/users.controller.ts:44-56 | total = package limit (0 without) + personal limit; used = bonus sum; remaining = max(total − used, 0) ≥ 0, positive iff used < total |
| Profile.GetMe | src/users/users.controller.ts:35-74 | an unknown user gets only the message; otherwise its own fields, its package as {id, name} or null, and its referral limit |
| Profile.ProfileLimitIsPayoutCap | src/users/users.controller.ts:44-56 | with a package, the profile's total is the payout cap, and "remaining > 0" holds iff a purchase by any referral would pay a bonus |
| Profile.StatsNeverExceedProfile | src/users/users.controller.ts:44-56 | the stats card never shows more remaining than the profile, equals it without a personal limit, and its limit is the profile's total minus the personal limit |
| Profile.ProfileRemainingBounded | src/users/users.controller.ts:56 | remaining lies between 0 and the total |
| Economy.Economy.Confirm | src/admin/admin.controller.ts:48-62 | the in-place confirm gives exactly Admin.Confirm's answer, tables and pushes, and keeps the invariants |
| Economy.Economy.Cancel | src/admin/admin.controller.ts:66-79 | the in-place cancel agrees with Admin.Cancel |
| Economy.Economy.Approve | src/admin/admin.controller.ts:82-114 | the in-place approve agrees with Admin.Approve |
| Economy.Economy.Reject | src/admin/admin.controller.ts:117-149 | the in-place reject agrees with Admin.Reject |
| Economy.Economy.CreateDeposit | src/transactions/transactions.controller.ts:73-127 | the in-place deposit agrees with Transactions.CreateDeposit |
| Economy.Economy.RequestWithdrawal | src/transactions/transactions.controller.ts:132-168 | the in-place withdrawal agrees with Transactions.RequestWithdrawal |
| Economy.Economy.Withdraw | src/transactions/transactions.controller.ts:155-165 | the accepted withdrawal debits the balance and inserts the PENDING card row, exactly Transactions.Withdrawn, and pushes nothing |
| Economy.Economy.CancelDeposit | src/transactions/transactions.controller.ts:173-190 | the in-place cancellation agrees with Transactions.CancelDeposit |
| Economy.Economy.CheckPurchase | src/game-store/game-store.service.ts:88-154 | the store's checks, run against the tables, give exactly GameStore.BuyItem's verdict |
| Economy.Economy.BuyItem | src/game-store/game-store.service.ts:87-175 | the in-place purchase agrees with GameStore.BuyItem |
| Economy.Economy.RecordPurchase | src/game-store/game-store.service.ts:94-172 | the accepted purchase upgrades and debits the account and stores the purchase row with its expiry, exactly as GameStore.BuyItem's success state |
| Economy.Economy.CheckExpiredBoosters | src/game-store/game-store.service.ts:28-48 | the row-by-row sweep agrees with GameStore.CheckExpiredBoosters |
| Economy.Economy.ExpiredPurchases | src/game-store/game-store.service.ts:29-35 | the row-by-row scan keeps exactly the purchases the sweep keeps and reports whether one of uid's had expired; it changes nothing |
| Economy.Economy.HandleClick | src/users/users.service.ts:82-120 | the step-by-step click, with its scan for the running multiplier, agrees with Progression.HandleClick |
| Economy.Economy.RunningMultiplier | src/users/users.service.ts:87-97 | the scan in id order for a running multiplier answers exactly Progression.BoostMultiplier; it changes nothing |
| Economy.Economy.BuyPackage | src/packages/packages.controller.ts:24-110 | the in-place purchase and payout agree with Packages.BuyPackage |
| Economy.Economy.RecordPackagePurchase | src/packages/packages.controller.ts:48-59 | the buyer is debited, given the package and an APPROVED purchase row is saved, exactly Packages.Purchased |
| Economy.Economy.PayReferralBonus | src/packages/packages.controller.ts:61-107 | the in-place payout agrees with Packages.PayReferralBonus |

## Left out

- The WebSocket gateway (src/app.gateway.ts): rooms, the click debounce flag and delivery. Notifications are recorded as events in an outbox; messages and payload text are left out.
- The exchange-rate HTTP call (`getTonRate`). The rate is an `Option<int>` argument, None when the call fails. The payment link text is left out.
- Wall-clock reads. `now` is an argument. `buyItem` reads `new Date()` and `Date.now()` separately, and the model uses one `now` for both.
- Authentication, password hashing, JWT guards, registration and login. No stateable economy logic there.
- Admin search and statistics queries, `updateUser`, and `getTransactionHistory` with its ordering and filters. These are repository queries outside the economy core; `formatDate` from that file is modelled.
- Floating point. Money is exact integer cents. `toFixed` is rounding half away from zero at the target scale, which is not the binary rounding of JavaScript doubles. `Math.pow(1.3, L-1)` is the exact power of 13/10.
- JavaScript `Date` decoding. `FormatDate` takes the UTC fields (year, 0-based month, day, hours, minutes) that the getters return. Invalid dates are not modelled.
- Transactions.FormatDateRoundTrip: is stated for four-digit years only, because `String(year)` is not padded.
- Request bodies of the wrong type: NaN or missing amounts, and a `recipient` that is present but not a string, on which `recipient.trim()` throws. Amounts are integers, so `!amount` is `amount == 0`, and the recipient is an `Option<string>`.
- The Package entity file, which is not part of this model. Its fields are inferred from use. If its decimal columns load as strings, `referrer.balance += bonusAmount` and `baseLimit + bonusLimit` in `getMe` would concatenate strings. The model adds numbers.
- MySQL column widths. Balances, amounts and limits are unbounded integers here. The decimal(15,2) `balance`, the decimal(10,2) `gameBalance`, `personalEarningsLimit` and `amount`, and the decimal(10,6) `ton_amount` columns (src/users/users.entity.ts:22-62, src/transactions/transactions.entity.ts:35-44) are not modelled. A save that overflows one of them, which strict MySQL refuses and other modes clamp, is recorded exactly by the model. Nor is the MySQL `timestamp` column `expiresAt` (src/game-store/entities/user-purchase.entity.ts:19-20), which stores whole seconds and ends in 2038: the model keeps exact, unbounded milliseconds in `ExpiryFor` and in the `expiresAt < now` and `expiresAt > now` comparisons.
- Atomicity and races between the several `save` calls of one request. Every operation is one atomic step.
- The database's choice among several running multipliers in `handleClick` (`findOne` without ORDER BY). The model takes the lowest purchase id.
- HTTP exception classes and message texts. Each refusal is a named `Error`.
- Registration and the seeding of the store catalogue and packages. The class starts from given accounts, items and packages, with empty transaction and purchase tables.
