/**
 * The operator side of the transaction state machine
 * (src/admin/admin.controller.ts): confirm, cancel, approve, reject.
 */
module Admin {
  import opened Wrappers
  import opened Entities
  import opened Ledger

  /** The transaction with this id exists and has this status. */
  predicate HasStatus(s: State, id: int, st: TxStatus)
  {
    id in s.txs && s.txs[id].status == st
  }

  /** CREATED -> PENDING ("awaiting operator verification"); no money moves. */
  function Confirm(s: State, id: int): (o: Step<TxStatus>)
    ensures o.result.Success? <==> HasStatus(s, id, Created)
    ensures !HasStatus(s, id, Created) ==> o == Fail(s, TxNotFound)
    ensures o.result.Success? ==>
      && o.result.value == Pending
      && ChangesOnly(s, o.state, {}, {id})
      && o.state.txs[id] == s.txs[id].(status := Pending)
      && o.events == []
  {
    if HasStatus(s, id, Created) then
      Step(Success(Pending), s.(txs := s.txs[id := s.txs[id].(status := Pending)]), [])
    else
      Fail(s, TxNotFound)
  }

  /**
   * Deletes a PENDING transaction of any type. Nothing is refunded: the
   * amount a withdrawal reserved stays debited.
   */
  function Cancel(s: State, id: int): (o: Step<()>)
    ensures o.result.Success? <==> HasStatus(s, id, Pending)
    ensures !HasStatus(s, id, Pending) ==> o == Fail(s, TxNotFound)
    ensures o.result.Success? ==>
      && o.state == s.(txs := s.txs - {id})
      && o.state.users == s.users
      && o.events == []
  {
    if HasStatus(s, id, Pending) then
      Step(Success(()), s.(txs := s.txs - {id}), [])
    else
      Fail(s, TxNotFound)
  }

  /**
   * PENDING -> APPROVED. A DEPOSIT credits its amount to the owner; every
   * other type moves no money (a withdrawal's amount already left at request).
   */
  function Approve(s: State, id: int): (o: Step<TxStatus>)
    ensures o.result.Success? <==> HasStatus(s, id, Pending) && s.txs[id].userId in s.users
    ensures !HasStatus(s, id, Pending) ==> o == Fail(s, TxNotFound)
    ensures HasStatus(s, id, Pending) && s.txs[id].userId !in s.users ==> o == Fail(s, UserNotFound)
    ensures o.result.Success? ==>
      var t := s.txs[id];
      var owner := s.users[t.userId];
      var credit := if t.kind == Deposit then t.amount else 0;
      && o.result.value == Approved
      && ChangesOnly(s, o.state, {t.userId}, {id})
      && o.state.txs[id] == t.(status := Approved)
      && o.state.users[t.userId] == owner.(balance := owner.balance + credit)
      && o.events == (if t.kind == Deposit then [BalanceUpdate(t.userId, owner.balance + credit)] else [])
                     + [TransactionUpdate(t.userId, id, Approved)]
  {
    Settle(s, id, Approved, Deposit)
  }

  /**
   * PENDING -> REJECTED. A WITHDRAWAL returns its amount to the owner; every
   * other type moves no money (a rejected deposit was never credited).
   */
  function Reject(s: State, id: int): (o: Step<TxStatus>)
    ensures o.result.Success? <==> HasStatus(s, id, Pending) && s.txs[id].userId in s.users
    ensures !HasStatus(s, id, Pending) ==> o == Fail(s, TxNotFound)
    ensures HasStatus(s, id, Pending) && s.txs[id].userId !in s.users ==> o == Fail(s, UserNotFound)
    ensures o.result.Success? ==>
      var t := s.txs[id];
      var owner := s.users[t.userId];
      var refund := if t.kind == Withdrawal then t.amount else 0;
      && o.result.value == Rejected
      && ChangesOnly(s, o.state, {t.userId}, {id})
      && o.state.txs[id] == t.(status := Rejected)
      && o.state.users[t.userId] == owner.(balance := owner.balance + refund)
      && o.events == (if t.kind == Withdrawal then [BalanceUpdate(t.userId, owner.balance + refund)] else [])
                     + [TransactionUpdate(t.userId, id, Rejected)]
  {
    Settle(s, id, Rejected, Withdrawal)
  }

  /**
   * The shared shape of approve and reject: find the PENDING row and its
   * owner, move `credited` amounts back onto the balance, set `target`.
   */
  function Settle(s: State, id: int, target: TxStatus, credited: TxType): (o: Step<TxStatus>)
    ensures o.result.Success? <==> HasStatus(s, id, Pending) && s.txs[id].userId in s.users
    ensures o.result.Failure? ==> o.state == s && o.events == []
    ensures o.result.Success? ==>
      var t := s.txs[id];
      var owner := s.users[t.userId];
      var moved := if t.kind == credited then t.amount else 0;
      && o.result.value == target
      && ChangesOnly(s, o.state, {t.userId}, {id})
      && o.state.txs[id] == t.(status := target)
      && o.state.users[t.userId] == owner.(balance := owner.balance + moved)
  {
    if !HasStatus(s, id, Pending) then Fail(s, TxNotFound)
    else
      var t := s.txs[id];
      if t.userId !in s.users then Fail(s, UserNotFound)
      else
        var owner := s.users[t.userId];
        var moved := t.kind == credited;
        var owner' := if moved then owner.(balance := owner.balance + t.amount) else owner;
        Step(Success(target),
             s.(users := s.users[t.userId := owner'], txs := s.txs[id := t.(status := target)]),
             (if moved then [BalanceUpdate(t.userId, owner'.balance)] else []) + [TransactionUpdate(t.userId, id, target)])
  }

  // --------------------------------------------------------------- lemmas

  /**
   * A settled (APPROVED or REJECTED) transaction is final: every operator
   * action on it fails with TxNotFound and changes nothing, so a repeated
   * approve cannot credit twice and a repeated reject cannot refund twice.
   */
  lemma SettledIsFinal(s: State, id: int)
    requires HasStatus(s, id, Approved) || HasStatus(s, id, Rejected)
    ensures Confirm(s, id) == Fail(s, TxNotFound)
    ensures Cancel(s, id) == Fail(s, TxNotFound)
    ensures Approve(s, id) == Fail(s, TxNotFound)
    ensures Reject(s, id) == Fail(s, TxNotFound)
  {
  }

  /** Approving twice: the second attempt fails and the balance moved once. */
  lemma ApproveTwice(s: State, id: int)
    requires Approve(s, id).result.Success?
    ensures var s1 := Approve(s, id).state;
      && Approve(s1, id) == Fail(s1, TxNotFound)
      && Reject(s1, id) == Fail(s1, TxNotFound)
  {
    SettledIsFinal(Approve(s, id).state, id);
  }

  /** Rejecting twice: the second attempt fails and the refund happened once. */
  lemma RejectTwice(s: State, id: int)
    requires Reject(s, id).result.Success?
    ensures var s1 := Reject(s, id).state;
      && Reject(s1, id) == Fail(s1, TxNotFound)
      && Approve(s1, id) == Fail(s1, TxNotFound)
  {
    SettledIsFinal(Reject(s, id).state, id);
  }

  /**
   * Deleting a PENDING referral bonus lowers the referrer's earned total by
   * its amount, while the balance it was credited with stays.
   */
  lemma CancelLowersEarned(s: State, id: int, uid: int)
    requires Valid(s)
    requires Cancel(s, id).result.Success?
    ensures Earned(Cancel(s, id).state, uid) == Earned(s, uid) - BonusAt(s.txs, uid, id)
    ensures Cancel(s, id).state.users == s.users
  {
    SumBonusesAfterRemove(s.txs, uid, s.nextTxId, id);
  }

  /* Each operator action keeps the table invariants, including "at most one unpaid deposit per user". */

  lemma ConfirmKeepsInvariants(s: State, id: int)
    requires Valid(s) && OpenDepositsUnique(s)
    ensures var s' := Confirm(s, id).state;
      Valid(s') && OpenDepositsUnique(s') && RespectsLifecycle(s, s') && AccountsAdvance(s, s')
  {
  }

  lemma CancelKeepsInvariants(s: State, id: int)
    requires Valid(s) && OpenDepositsUnique(s)
    ensures var s' := Cancel(s, id).state;
      Valid(s') && OpenDepositsUnique(s') && RespectsLifecycle(s, s') && AccountsAdvance(s, s')
  {
  }

  lemma ApproveKeepsInvariants(s: State, id: int)
    requires Valid(s) && OpenDepositsUnique(s)
    ensures var s' := Approve(s, id).state;
      Valid(s') && OpenDepositsUnique(s') && RespectsLifecycle(s, s') && AccountsAdvance(s, s')
  {
    SettleKeeps(s, id, Approved, Deposit);
  }

  lemma RejectKeepsInvariants(s: State, id: int)
    requires Valid(s) && OpenDepositsUnique(s)
    ensures var s' := Reject(s, id).state;
      Valid(s') && OpenDepositsUnique(s') && RespectsLifecycle(s, s') && AccountsAdvance(s, s')
  {
    SettleKeeps(s, id, Rejected, Withdrawal);
  }

  /** Settling is crediting the owner (a balance change only) and then moving the row forward. */
  lemma SettleKeeps(s: State, id: int, target: TxStatus, credited: TxType)
    requires Valid(s) && OpenDepositsUnique(s)
    requires target == Approved || target == Rejected
    ensures var s' := Settle(s, id, target, credited).state;
      Valid(s') && OpenDepositsUnique(s') && RespectsLifecycle(s, s') && AccountsAdvance(s, s')
  {
    if HasStatus(s, id, Pending) && s.txs[id].userId in s.users {
      var t := s.txs[id];
      var owner := s.users[t.userId];
      var owner' := if t.kind == credited then owner.(balance := owner.balance + t.amount) else owner;
      var s1 := s.(users := s.users[t.userId := owner']);
      var s2 := s1.(txs := s1.txs[id := s1.txs[id].(status := target)]);
      assert s2 == Settle(s, id, target, credited).state;
      assert UserValid(owner);
      SetUserKeeps(s, t.userId, owner');
      SetStatusKeeps(s1, id, target);
      Chain(s, s1, s2);
    } else {
      UnchangedKeeps(s);
    }
  }
}
