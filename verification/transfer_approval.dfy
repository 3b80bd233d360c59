/**
 * The administrator's decision on a PENDING_APPROVAL transfer entry: APPROVE moves the
 * money and completes the entry, REJECT marks it REJECTED; any other action is refused.
 */
module TransferApproval {
  import opened Results
  import opened Text
  import opened Bank

  const PendingMarker := "[PENDING APPROVAL]"
  const ApprovedMarker := "[APPROVED]"

  /** The approve unit of work once its checks have passed. */
  function Complete(b: Bank, txId: TxId, s: Account, t: Account, now: Timestamp): (r: Bank)
    requires Wf(b) && txId in b.entries && IncomingId(txId) !in b.entries
    requires s.number == b.entries[txId].account && b.accounts[s.number] == s
    requires t.number in b.accounts && b.accounts[t.number] == t
    ensures var e, a := b.entries[txId], Abs(b.entries[txId].amount);
      && Wf(r) && r.customers == b.customers && r.emails == b.emails
      && AccountsKeptExcept(b, r, {s.number, t.number})
      && r.accounts[s.number].balance == (if s.number == t.number then s.balance + a else s.balance - a)
      && r.accounts[t.number].balance == t.balance + a
      && EntriesUpdated(b, r, {txId}, {IncomingId(txId)})
      // the pending entry completes; its balanceBefore keeps the request-time value
      && r.entries[txId] == e.(status := Completed, after := s.balance - a,
                               description := ReplaceFirst(e.description, PendingMarker, ApprovedMarker),
                               remark := Some("Approved by admin on " + now))
      // the receiving leg
      && var inc := r.entries[IncomingId(txId)];
      && inc.account == t.number && inc.kind == Transfer && inc.status == Completed
      && inc.amount == a && inc.before == t.balance && Balanced(inc)
  {
    var e := b.entries[txId];
    var a := Abs(e.amount);
    var done := e.(status := Completed, after := s.balance - a,
                   description := ReplaceFirst(e.description, PendingMarker, ApprovedMarker),
                   remark := Some("Approved by admin on " + now));
    var inc := Entry(IncomingId(txId), t.number, Transfer, a, t.balance, t.balance + a,
                     "Transfer from " + s.number + " (Admin Approved)",
                     Completed, None, None, Some(s.owner), None);
    b.(accounts := b.accounts[s.number := s.(balance := s.balance - a)][t.number := t.(balance := t.balance + a)],
       entries := b.entries[txId := done][IncomingId(txId) := inc])
  }

  /**
   * APPROVE on a pending entry: the receiver named by the entry must exist and the
   * sender's balance (read before the unit of work) must cover |amount|; otherwise the
   * unit of work throws and nothing changes.
   */
  function Approve(b: Bank, txId: TxId, now: Timestamp): (r: Result<Bank, Error>)
    requires Wf(b) && txId in b.entries && b.entries[txId].status == PendingApproval
    ensures var e := b.entries[txId];
      e.receiverAccount.None? || e.receiverAccount.value !in b.accounts ==> r == Failure(ReceiverNotFound)
    ensures var e := b.entries[txId];
      e.receiverAccount.Some? && e.receiverAccount.value in b.accounts ==>
        (r == Failure(InsufficientBalance) <==> b.accounts[e.account].balance < Abs(e.amount))
    ensures r.Success? <==>
      var e := b.entries[txId];
      && e.receiverAccount.Some? && e.receiverAccount.value in b.accounts
      && Abs(e.amount) <= b.accounts[e.account].balance
      && IncomingId(txId) !in b.entries
    ensures r.Success? ==>
      r.value == Complete(b, txId, b.accounts[b.entries[txId].account],
                          b.accounts[b.entries[txId].receiverAccount.value], now)
    ensures r.Success? && NonNegative(b) ==> NonNegative(r.value)
  {
    var e := b.entries[txId];
    var s := b.accounts[e.account];
    if e.receiverAccount.None? || e.receiverAccount.value !in b.accounts then Failure(ReceiverNotFound)
    else
      var t := b.accounts[e.receiverAccount.value];
      if s.balance < Abs(e.amount) then Failure(InsufficientBalance)
      else if IncomingId(txId) in b.entries then Failure(DuplicateKey)
      else Success(Complete(b, txId, s, t, now))
  }

  /** Rejection: the entry becomes REJECTED with the reason, or a dated default, as remark. */
  function Reject(b: Bank, txId: TxId, reason: Option<string>, now: Timestamp): (r: Bank)
    requires Wf(b) && txId in b.entries
    ensures Wf(r) && r.accounts == b.accounts && r.customers == b.customers && r.emails == b.emails
    ensures EntriesUpdated(b, r, {txId}, {})
    ensures r.entries[txId].status == Rejected
    ensures reason.Some? && reason.value != "" ==> r.entries[txId].remark == reason
    ensures reason.None? || reason.value == "" ==> r.entries[txId].remark == Some("Rejected by admin on " + now)
    ensures r.entries[txId] == b.entries[txId].(status := Rejected, remark := r.entries[txId].remark)
  {
    var remark := if reason.Some? && reason.value != "" then reason.value else "Rejected by admin on " + now;
    b.(entries := b.entries[txId := b.entries[txId].(status := Rejected, remark := Some(remark))])
  }

  function Abs(x: int): (r: nat)
    ensures r == x || r == -x
  {
    if x < 0 then -x else x
  }

  /** POST /api/admin/approve-transaction. Missing text fields are empty strings. */
  function Process(b: Bank, txId: TxId, action: string, reason: Option<string>, now: Timestamp): (r: Result<Bank, Error>)
    requires Wf(b)
    ensures txId == "" || action == "" ==> r == Failure(Invalid)
    // only a PENDING_APPROVAL entry can be processed, so a second decision fails
    ensures txId != "" && action != "" && (txId !in b.entries || b.entries[txId].status != PendingApproval) ==>
      r == Failure(AlreadyProcessed)
    ensures r.Success? ==> txId in b.entries && b.entries[txId].status == PendingApproval
    ensures r.Success? ==> txId in r.value.entries && r.value.entries[txId].status in {Completed, Rejected}
    ensures r.Success? ==> Wf(r.value)
    ensures r.Success? && NonNegative(b) ==> NonNegative(r.value)
    ensures r.Success? && action == "APPROVE" ==> r == Approve(b, txId, now)
    ensures r.Success? && action == "REJECT" ==> r.value == Reject(b, txId, reason, now)
    ensures (txId != "" && txId in b.entries && b.entries[txId].status == PendingApproval &&
             action != "" && action != "APPROVE" && action != "REJECT") ==> r == Failure(InvalidAction)
    ensures r.Success? && action == "REJECT" ==> BalancesKept(b, r.value)
    // a pending entry is always decided: APPROVE reaches Approve, REJECT always succeeds
    ensures txId != "" && txId in b.entries && b.entries[txId].status == PendingApproval && action == "APPROVE" ==>
      r == Approve(b, txId, now)
    ensures txId != "" && txId in b.entries && b.entries[txId].status == PendingApproval && action == "REJECT" ==>
      r == Success(Reject(b, txId, reason, now))
  {
    if txId == "" || action == "" then Failure(Invalid)
    else if txId !in b.entries || b.entries[txId].status != PendingApproval then Failure(AlreadyProcessed)
    else if action == "APPROVE" then Approve(b, txId, now)
    else if action == "REJECT" then Success(Reject(b, txId, reason, now))
    else Failure(InvalidAction)
  }

  /** Approving or rejecting twice: the second decision fails and changes nothing. */
  lemma SecondDecisionFails(b: Bank, txId: TxId, first: string, second: string, reason: Option<string>, now: Timestamp, later: Timestamp)
    requires Wf(b) && second != ""
    requires Process(b, txId, first, reason, now).Success?
    ensures Process(Process(b, txId, first, reason, now).value, txId, second, reason, later) == Failure(AlreadyProcessed)
  {
  }
}
