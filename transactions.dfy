/**
 * The player's side of deposits and withdrawals: opening a TonKeeper
 * deposit, requesting a card withdrawal, cancelling an unpaid deposit, and
 * the date format of the transaction history.
 */
module Transactions {
  import opened Wrappers
  import opened Entities
  import opened Ledger
  import opened FixedPoint
  import opened Strings

  // ------------------------------------------------------------ TON amount

  /**
   * Amounts are in cents of AMD, the rate in millionths of AMD per TON and
   * the TON amount in millionths of TON, so amount / rate TON is
   * amount * TonScale / rate micro-TON.
   */
  const TonScale: int := 10_000_000_000

  /**
   * `parseFloat((amount / tonRate).toFixed(6))` in micro-TON. The price
   * check only refuses a zero rate, so a negative rate reaches here too: the
   * result then lies within half a micro-TON of the (negative) quotient.
   */
  function TonAmount(amount: int, rate: int): (ton: int)
    requires rate != 0
    ensures rate > 0 && amount >= 0 ==>
      ton >= 0 && 2 * (rate * ton) - rate <= 2 * (amount * TonScale) < 2 * (rate * ton) + rate
    ensures var d := if rate < 0 then -rate else rate;
      -d <= 2 * (rate * ton - amount * TonScale) <= d
    ensures (amount >= 0) == (rate > 0) ==> ton >= 0
    ensures (amount >= 0) != (rate > 0) ==> ton <= 0
  {
    if rate > 0 then
      RoundHalfAway(amount * TonScale, rate)
    else
      var r := RoundHalfAway(-amount * TonScale, -rate);
      assert rate * r == -((-rate) * r);
      r
  }

  // --------------------------------------------------------------- deposit

  /** What `POST deposit` answers (the payment link is left out). */
  datatype DepositReceipt = DepositReceipt(id: int, tonAmount: int, status: TxStatus)

  /** The transaction row a successful deposit request inserts. */
  function DepositRow(userId: int, amount: int, rate: int, now: int): Tx
    requires rate != 0
  {
    Tx(userId, Deposit, amount, Some(Tonkeeper), Created, Some(TonAmount(amount, rate)), None, None, now)
  }

  /**
   * Opens a TonKeeper deposit. The checks come in the order the handler
   * makes them; the rate is what the price service returned (None when the
   * call failed).
   */
  function CreateDeposit(s: State, userId: int, amount: int, payMethod: Option<TxMethod>, rate: Option<int>, now: int)
    : (o: Step<DepositReceipt>)
    ensures amount <= 0 ==> o == Fail(s, InvalidAmount)
    ensures amount > 0 && payMethod != Some(Tonkeeper) ==> o == Fail(s, UnsupportedMethod)
    ensures amount > 0 && payMethod == Some(Tonkeeper) && HasCreatedDeposit(s, userId)
      ==> o == Fail(s, DuplicateActiveDeposit)
    ensures amount > 0 && payMethod == Some(Tonkeeper) && !HasCreatedDeposit(s, userId) && userId !in s.users
      ==> o == Fail(s, UserNotFound)
    ensures (amount > 0 && payMethod == Some(Tonkeeper) && !HasCreatedDeposit(s, userId) && userId in s.users
             && (rate.None? || rate.value == 0)) ==> o == Fail(s, RateUnavailable)
    ensures o.result.Success? <==>
      amount > 0 && payMethod == Some(Tonkeeper) && !HasCreatedDeposit(s, userId) && userId in s.users
      && rate.Some? && rate.value != 0
    ensures o.result.Failure? ==> o.state == s && o.events == []
    ensures o.result.Success? ==>
      && o.result.value == DepositReceipt(s.nextTxId, TonAmount(amount, rate.value), Created)
      && o.state == AddTx(s, DepositRow(userId, amount, rate.value, now))
      && HasCreatedDeposit(o.state, userId)
      && o.events == []
  {
    if amount <= 0 then Fail(s, InvalidAmount)
    else if payMethod != Some(Tonkeeper) then Fail(s, UnsupportedMethod)
    else if HasCreatedDeposit(s, userId) then Fail(s, DuplicateActiveDeposit)
    else if userId !in s.users then Fail(s, UserNotFound)
    else if rate.None? || rate.value == 0 then Fail(s, RateUnavailable)
    else
      var s' := AddTx(s, DepositRow(userId, amount, rate.value, now));
      assert s'.txs[s.nextTxId].userId == userId;
      Step(Success(DepositReceipt(s.nextTxId, TonAmount(amount, rate.value), Created)), s', [])
  }

  /** A second deposit cannot be opened while the first one is unpaid. */
  lemma DepositTwice(s: State, userId: int, amount: int, amount2: int, rate: Option<int>, now: int)
    requires CreateDeposit(s, userId, amount, Some(Tonkeeper), rate, now).result.Success?
    requires amount2 > 0
    ensures CreateDeposit(CreateDeposit(s, userId, amount, Some(Tonkeeper), rate, now).state,
                          userId, amount2, Some(Tonkeeper), rate, now).result == Failure(DuplicateActiveDeposit)
  {
  }

  // ------------------------------------------------------------ withdrawal

  /** What `POST withdraw` answers. */
  datatype WithdrawalReceipt = WithdrawalReceipt(amount: int, recipient: string, status: TxStatus)

  /** A card number that is missing or made only of whitespace. */
  predicate BlankRecipient(recipient: Option<string>)
  {
    recipient.None? || forall i :: 0 <= i < |recipient.value| ==> IsJsWhitespace(recipient.value[i])
  }

  /** The handler's test `!recipient || recipient.trim() === ''`. */
  predicate RecipientMissing(recipient: Option<string>)
    ensures RecipientMissing(recipient) <==> BlankRecipient(recipient)
  {
    TrimEmptyIff(if recipient.Some? then recipient.value else []);
    recipient.None? || Trim(recipient.value) == []
  }

  /** The tables after a withdrawal of amount by userId was accepted. */
  function Withdrawn(s: State, userId: int, amount: int, recipient: Option<string>, now: int): State
    requires userId in s.users
  {
    var u := s.users[userId];
    AddTx(s.(users := s.users[userId := u.(balance := u.balance - amount)]),
          Tx(userId, Withdrawal, amount, Some(Card), Pending, None, recipient, None, now))
  }

  /**
   * Requests a card withdrawal: the amount leaves the balance at once and a
   * PENDING row waits for an administrator.
   */
  function RequestWithdrawal(s: State, userId: int, amount: int, payMethod: Option<TxMethod>,
                             recipient: Option<string>, now: int): (o: Step<WithdrawalReceipt>)
    ensures amount <= 0 ==> o == Fail(s, InvalidAmount)
    ensures amount > 0 && payMethod != Some(Card) ==> o == Fail(s, UnsupportedMethod)
    ensures amount > 0 && payMethod == Some(Card) && BlankRecipient(recipient) ==> o == Fail(s, MissingRecipient)
    ensures amount > 0 && payMethod == Some(Card) && !BlankRecipient(recipient) && userId !in s.users
      ==> o == Fail(s, UserNotFound)
    ensures (amount > 0 && payMethod == Some(Card) && !BlankRecipient(recipient) && userId in s.users
             && s.users[userId].balance < amount) ==> o == Fail(s, InsufficientFunds)
    ensures o.result.Success? <==>
      amount > 0 && payMethod == Some(Card) && !BlankRecipient(recipient) && userId in s.users
      && s.users[userId].balance >= amount
    ensures o.result.Failure? ==> o.state == s && o.events == []
    ensures o.result.Success? ==>
      && o.result.value == WithdrawalReceipt(amount, recipient.value, Pending)
      && o.state == Withdrawn(s, userId, amount, recipient, now)
      && o.state.users[userId].balance == s.users[userId].balance - amount >= 0
      && o.state.txs[s.nextTxId].recipient == recipient
      && o.events == []
  {
    if amount <= 0 then Fail(s, InvalidAmount)
    else if payMethod != Some(Card) then Fail(s, UnsupportedMethod)
    else if RecipientMissing(recipient) then Fail(s, MissingRecipient)
    else if userId !in s.users then Fail(s, UserNotFound)
    else if s.users[userId].balance < amount then Fail(s, InsufficientFunds)
    else Step(Success(WithdrawalReceipt(amount, recipient.value, Pending)), Withdrawn(s, userId, amount, recipient, now), [])
  }

  // -------------------------------------------------------- cancel deposit

  /** Deletes the caller's own deposit while it still awaits payment. */
  function CancelDeposit(s: State, userId: int, id: int): (o: Step<()>)
    ensures o.result.Success? <==>
      id in s.txs && s.txs[id].userId == userId && s.txs[id].kind == Deposit && s.txs[id].status == Created
    ensures o.result.Failure? ==> o == Fail(s, TxNotFound)
    ensures o.result.Success? ==>
      && o.state.txs.Keys == s.txs.Keys - {id}
      && (forall k :: k in o.state.txs ==> o.state.txs[k] == s.txs[k])
      && o.state == s.(txs := o.state.txs)
      && o.events == []
  {
    if id in s.txs && s.txs[id].userId == userId && s.txs[id].kind == Deposit && s.txs[id].status == Created
    then Step(Success(()), s.(txs := s.txs - {id}), [])
    else Fail(s, TxNotFound)
  }

  /** Once the unpaid deposit is cancelled, a new one may be opened. */
  lemma CancelReopensDeposit(s: State, userId: int, id: int)
    requires OpenDepositsUnique(s)
    requires CancelDeposit(s, userId, id).result.Success?
    ensures !HasCreatedDeposit(CancelDeposit(s, userId, id).state, userId)
  {
  }

  // ------------------------------------------------------------ invariants

  lemma CreateDepositKeepsInvariants(s: State, userId: int, amount: int, payMethod: Option<TxMethod>,
                                     rate: Option<int>, now: int)
    requires Valid(s) && OpenDepositsUnique(s)
    ensures var s' := CreateDeposit(s, userId, amount, payMethod, rate, now).state;
      Valid(s') && OpenDepositsUnique(s') && RespectsLifecycle(s, s') && AccountsAdvance(s, s')
  {
    if CreateDeposit(s, userId, amount, payMethod, rate, now).result.Success? {
      AddTxKeeps(s, DepositRow(userId, amount, rate.value, now));
    }
  }

  lemma WithdrawnKeepsInvariants(s: State, userId: int, amount: int, recipient: Option<string>, now: int)
    requires Valid(s) && OpenDepositsUnique(s)
    requires userId in s.users && 0 < amount <= s.users[userId].balance
    ensures var s' := Withdrawn(s, userId, amount, recipient, now);
      Valid(s') && OpenDepositsUnique(s') && RespectsLifecycle(s, s') && AccountsAdvance(s, s')
  {
    var u := s.users[userId];
    var u' := u.(balance := u.balance - amount);
    var t := Tx(userId, Withdrawal, amount, Some(Card), Pending, None, recipient, None, now);
    assert Withdrawn(s, userId, amount, recipient, now) == AddTx(s.(users := s.users[userId := u']), t);
    assert UserValid(u);
    SetUserThenAddTxKeeps(s, userId, u', t);
  }

  lemma RequestWithdrawalKeepsInvariants(s: State, userId: int, amount: int, payMethod: Option<TxMethod>,
                                         recipient: Option<string>, now: int)
    requires Valid(s) && OpenDepositsUnique(s)
    ensures var s' := RequestWithdrawal(s, userId, amount, payMethod, recipient, now).state;
      Valid(s') && OpenDepositsUnique(s') && RespectsLifecycle(s, s') && AccountsAdvance(s, s')
  {
    if RequestWithdrawal(s, userId, amount, payMethod, recipient, now).result.Success? {
      WithdrawnKeepsInvariants(s, userId, amount, recipient, now);
    }
  }

  lemma CancelDepositKeepsInvariants(s: State, userId: int, id: int)
    requires Valid(s) && OpenDepositsUnique(s)
    ensures var s' := CancelDeposit(s, userId, id).state;
      Valid(s') && OpenDepositsUnique(s') && RespectsLifecycle(s, s') && AccountsAdvance(s, s')
  {
  }

  // ----------------------------------------------------------- date format

  /**
   * A timestamp as the UTC getters of a Date see it: the month counts from
   * 0, as getUTCMonth does.
   */
  datatype UtcDateTime = UtcDateTime(year: int, month0: int, day: int, hours: int, minutes: int)

  predicate WellFormed(d: UtcDateTime)
  {
    0 <= d.month0 < 12 && 1 <= d.day <= 31 && 0 <= d.hours < 24 && 0 <= d.minutes < 60
  }

  const NoData: string := "Нет данных"

  /**
   * `DD-MM-YYYY HH:mm` in UTC, or the placeholder when the column is empty.
   * For a well-formed date the two-digit fields sit at fixed places from
   * either end and read back as day, 1-based month, hours and minutes, and
   * the year is printed unpadded between them.
   */
  function FormatDate(date: Option<UtcDateTime>): (r: string)
    ensures date.None? ==> r == NoData
    ensures date.Some? && WellFormed(date.value) ==>
      var d, n := date.value, |r|;
      && n >= 12 && r[2] == '-' && r[5] == '-' && r[n - 6] == ' ' && r[n - 3] == ':'
      && r[6..n - 6] == IntToString(d.year)
      && Two(r, 0) == d.day && Two(r, 3) == d.month0 + 1 && Two(r, n - 5) == d.hours && Two(r, n - 2) == d.minutes
  {
    if date.None? then NoData
    else
      var d := date.value;
      var yy := IntToString(d.year);
      IntToStringNonEmpty(d.year);
      DateLayout(d, yy);
      Join(Pad2(d.day), Pad2(d.month0 + 1), yy, Pad2(d.hours), Pad2(d.minutes))
  }

  /** The padded fields of d and a printed year land where FormatDate promises. */
  lemma DateLayout(d: UtcDateTime, yy: string)
    requires |yy| >= 1
    ensures WellFormed(d) ==>
      var r := Join(Pad2(d.day), Pad2(d.month0 + 1), yy, Pad2(d.hours), Pad2(d.minutes));
      var n := |r|;
      && n >= 12 && r[2] == '-' && r[5] == '-' && r[n - 6] == ' ' && r[n - 3] == ':'
      && r[6..n - 6] == yy
      && Two(r, 0) == d.day && Two(r, 3) == d.month0 + 1 && Two(r, n - 5) == d.hours && Two(r, n - 2) == d.minutes
  {
    if WellFormed(d) {
      PaddedLayout(d, yy);
    }
  }

  /** DateLayout's promise, for a well-formed date. */
  lemma PaddedLayout(d: UtcDateTime, yy: string)
    requires WellFormed(d) && |yy| >= 1
    ensures var r := Join(Pad2(d.day), Pad2(d.month0 + 1), yy, Pad2(d.hours), Pad2(d.minutes)); var n := |r|;
      && n >= 12 && r[2] == '-' && r[5] == '-' && r[n - 6] == ' ' && r[n - 3] == ':'
      && r[6..n - 6] == yy
      && Two(r, 0) == d.day && Two(r, 3) == d.month0 + 1 && Two(r, n - 5) == d.hours && Two(r, n - 2) == d.minutes
  {
    Pad2Digits(d.day);
    Pad2Digits(d.month0 + 1);
    Pad2Digits(d.hours);
    Pad2Digits(d.minutes);
    DigitsLayout(d, Pad2(d.day), Pad2(d.month0 + 1), yy, Pad2(d.hours), Pad2(d.minutes));
  }

  /** The same, for fields already printed as their digits. */
  lemma DigitsLayout(d: UtcDateTime, dd: string, mm: string, yy: string, hh: string, mi: string)
    requires WellFormed(d) && |yy| >= 1
    requires dd == [DigitChar(d.day / 10), DigitChar(d.day % 10)]
    requires mm == [DigitChar((d.month0 + 1) / 10), DigitChar((d.month0 + 1) % 10)]
    requires hh == [DigitChar(d.hours / 10), DigitChar(d.hours % 10)]
    requires mi == [DigitChar(d.minutes / 10), DigitChar(d.minutes % 10)]
    ensures var r := Join(dd, mm, yy, hh, mi); var n := |r|;
      && n >= 12 && r[2] == '-' && r[5] == '-' && r[n - 6] == ' ' && r[n - 3] == ':'
      && r[6..n - 6] == yy
      && Two(r, 0) == d.day && Two(r, 3) == d.month0 + 1 && Two(r, n - 5) == d.hours && Two(r, n - 2) == d.minutes
  {
    JoinLayout(dd, mm, yy, hh, mi);
    TwoDigitsValue(d.day);
    TwoDigitsValue(d.month0 + 1);
    TwoDigitsValue(d.hours);
    TwoDigitsValue(d.minutes);
  }

  /** The template `${day}-${month}-${year} ${hours}:${minutes}`. */
  function Join(day: string, month: string, year: string, hours: string, minutes: string): string
  {
    day + "-" + month + "-" + year + " " + hours + ":" + minutes
  }

  /** Where each piece of the template lands. */
  lemma JoinLayout(dd: string, mm: string, yy: string, hh: string, mi: string)
    requires |dd| == 2 && |mm| == 2 && |yy| >= 1 && |hh| == 2 && |mi| == 2
    ensures var r, n := Join(dd, mm, yy, hh, mi), |yy| + 12;
      && |r| == n && r[0] == dd[0] && r[1] == dd[1] && r[2] == '-' && r[3] == mm[0] && r[4] == mm[1] && r[5] == '-'
      && r[6..n - 6] == yy && r[n - 6] == ' ' && r[n - 5] == hh[0] && r[n - 4] == hh[1] && r[n - 3] == ':'
      && r[n - 2] == mi[0] && r[n - 1] == mi[1]
  {
    var head := dd + "-" + mm + "-";
    var tail := " " + hh + ":" + mi;
    assert Join(dd, mm, yy, hh, mi) == head + yy + tail;
    assert head == [dd[0], dd[1], '-', mm[0], mm[1], '-'];
    assert tail == [' ', hh[0], hh[1], ':', mi[0], mi[1]];
  }

  /** The value of the two digits at positions i and i + 1. */
  function Two(s: string, i: int): int
    requires 0 <= i < |s| - 1
  {
    10 * DigitValue(s[i]) + DigitValue(s[i + 1])
  }

  /** Reads `DD-MM-YYYY HH:mm` back; anything else is None. */
  function ParseFormatted(s: string): Option<UtcDateTime>
  {
    if |s| == 16 && s[2] == '-' && s[5] == '-' && s[10] == ' ' && s[13] == ':'
       && (forall i | i in {0, 1, 3, 4, 6, 7, 8, 9, 11, 12, 14, 15} :: 0 <= i < |s| && IsDigit(s[i]))
    then Some(UtcDateTime(100 * Two(s, 6) + Two(s, 8), Two(s, 3) - 1, Two(s, 0), Two(s, 11), Two(s, 14)))
    else None
  }

  /** The formatted string, character by character. */
  lemma JoinedChars(a0: char, a1: char, b0: char, b1: char, y0: char, y1: char, y2: char, y3: char,
                    h0: char, h1: char, m0: char, m1: char)
    ensures [a0, a1] + "-" + [b0, b1] + "-" + [y0, y1, y2, y3] + " " + [h0, h1] + ":" + [m0, m1]
         == [a0, a1, '-', b0, b1, '-', y0, y1, y2, y3, ' ', h0, h1, ':', m0, m1]
  {
  }

  /** Sixteen characters of the right shape parse field by field. */
  lemma ParseChars(a0: char, a1: char, b0: char, b1: char, y0: char, y1: char, y2: char, y3: char,
                   h0: char, h1: char, m0: char, m1: char)
    requires IsDigit(a0) && IsDigit(a1) && IsDigit(b0) && IsDigit(b1)
    requires IsDigit(y0) && IsDigit(y1) && IsDigit(y2) && IsDigit(y3)
    requires IsDigit(h0) && IsDigit(h1) && IsDigit(m0) && IsDigit(m1)
    ensures ParseFormatted([a0, a1, '-', b0, b1, '-', y0, y1, y2, y3, ' ', h0, h1, ':', m0, m1])
         == Some(UtcDateTime(100 * (10 * DigitValue(y0) + DigitValue(y1)) + (10 * DigitValue(y2) + DigitValue(y3)),
                             10 * DigitValue(b0) + DigitValue(b1) - 1,
                             10 * DigitValue(a0) + DigitValue(a1),
                             10 * DigitValue(h0) + DigitValue(h1),
                             10 * DigitValue(m0) + DigitValue(m1)))
  {
  }

  /** The tens and units digits of n read back as n. */
  lemma TwoDigitsValue(n: int)
    requires 0 <= n < 100
    ensures 10 * DigitValue(DigitChar(n / 10)) + DigitValue(DigitChar(n % 10)) == n
  {
  }

  /** The four digits of n read back as n. */
  lemma FourDigitsValue(n: int)
    requires 1000 <= n < 10000
    ensures 100 * (10 * DigitValue(DigitChar(n / 10 / 10 / 10)) + DigitValue(DigitChar(n / 10 / 10 % 10)))
            + (10 * DigitValue(DigitChar(n / 10 % 10)) + DigitValue(DigitChar(n % 10))) == n
  {
    var q1 := n / 10;
    var q2 := q1 / 10;
    var q3 := q2 / 10;
    assert n == 10 * q1 + n % 10;
    assert q1 == 10 * q2 + q1 % 10;
    assert q2 == 10 * q3 + q2 % 10;
  }

  /** Fields already printed as their digits join and parse back to the date. */
  lemma ParseJoinedDigits(d: UtcDateTime, dd: string, mm: string, yy: string, hh: string, mi: string)
    requires WellFormed(d) && 1000 <= d.year < 10000
    requires dd == [DigitChar(d.day / 10), DigitChar(d.day % 10)]
    requires mm == [DigitChar((d.month0 + 1) / 10), DigitChar((d.month0 + 1) % 10)]
    requires yy == [DigitChar(d.year / 10 / 10 / 10), DigitChar(d.year / 10 / 10 % 10),
                    DigitChar(d.year / 10 % 10), DigitChar(d.year % 10)]
    requires hh == [DigitChar(d.hours / 10), DigitChar(d.hours % 10)]
    requires mi == [DigitChar(d.minutes / 10), DigitChar(d.minutes % 10)]
    ensures ParseFormatted(Join(dd, mm, yy, hh, mi)) == Some(d)
  {
    var y, m := d.year, d.month0 + 1;
    JoinedChars(dd[0], dd[1], mm[0], mm[1], yy[0], yy[1], yy[2], yy[3], hh[0], hh[1], mi[0], mi[1]);
    ParseChars(dd[0], dd[1], mm[0], mm[1], yy[0], yy[1], yy[2], yy[3], hh[0], hh[1], mi[0], mi[1]);
    TwoDigitsValue(d.day);
    TwoDigitsValue(m);
    TwoDigitsValue(d.hours);
    TwoDigitsValue(d.minutes);
    FourDigitsValue(y);
  }

  /** Every date of a four-digit year formats to a string that reads back as that date. */
  lemma FormatDateRoundTrip(d: UtcDateTime)
    requires WellFormed(d) && 1000 <= d.year < 10000
    ensures ParseFormatted(FormatDate(Some(d))) == Some(d)
  {
    var dd, mm, yy, hh, mi := Pad2(d.day), Pad2(d.month0 + 1), IntToString(d.year), Pad2(d.hours), Pad2(d.minutes);
    assert FormatDate(Some(d)) == Join(dd, mm, yy, hh, mi);
    Pad2Digits(d.day);
    Pad2Digits(d.month0 + 1);
    Pad2Digits(d.hours);
    Pad2Digits(d.minutes);
    FourDigits(d.year);
    ParseJoinedDigits(d, dd, mm, yy, hh, mi);
  }

  /** The placeholder is not mistaken for a date. */
  lemma NoDataIsNotADate()
    ensures ParseFormatted(FormatDate(None)) == None
  {
  }
}
