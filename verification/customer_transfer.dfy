/**
 * The customer transfer route: validation, the restriction, balance, recipient and
 * self-transfer checks, then either one PENDING_APPROVAL entry (500.00 or more) or the
 * instant two-leg transfer.
 */
module CustomerTransfer {
  import opened Results
  import opened Bank

  datatype TransferRequest = TransferRequest(toAccount: AccountNumber, amount: Money, description: string)

  /** The request schema: non-empty recipient, positive amount, non-empty description. */
  predicate ValidRequest(req: TransferRequest) {
    |req.toAccount| >= 1 && req.amount > 0 && |req.description| >= 1
  }

  /**
   * What the unordered "first ACTIVE account of this customer" lookup may return:
   * some ACTIVE account of the customer, or nothing when there is none.
   */
  predicate SenderLookup(b: Bank, customer: CustomerNumber, sender: Option<AccountNumber>) {
    match sender
    case None => forall n :: n in b.accounts ==> !(b.accounts[n].owner == customer && b.accounts[n].status == Active)
    case Some(n) => n in b.accounts && b.accounts[n].owner == customer && b.accounts[n].status == Active
  }

  function PendingRemark(amount: Money): string
    requires amount > 0
  {
    "Awaiting admin approval (Amount: $" + DollarText(amount) + " >= $" + DollarText(ApprovalThreshold) + ")"
  }

  /** Everything the handler checks before it writes, in the handler's order. */
  function Check(b: Bank, sender: Option<AccountNumber>, req: TransferRequest): (r: Result<(Account, Account), Error>)
    requires Wf(b)
    requires sender.Some? ==> sender.value in b.accounts
    ensures r.Success? ==>
      && sender.Some? && sender.value != req.toAccount && req.toAccount in b.accounts
      && r.value.0 == b.accounts[sender.value] && r.value.1 == b.accounts[req.toAccount]
  {
    if !ValidRequest(req) then Failure(Invalid)
    else if sender.None? then Failure(SenderNotFound)
    else
      var s := b.accounts[sender.value];
      var owner := b.customers[s.owner];
      if owner.restriction.isRestricted then
        Failure(Restricted(owner.restriction.kind, owner.restriction.reason))
      else if s.balance < req.amount then Failure(InsufficientBalance)
      else if req.toAccount !in b.accounts || b.accounts[req.toAccount].status != Active then
        Failure(RecipientNotFound)
      else if s.number == req.toAccount then Failure(SelfTransfer)
      else Success((s, b.accounts[req.toAccount]))
  }

  /** The gated path: one PENDING_APPROVAL entry on the sender; no balance moves. */
  function Queue(b: Bank, s: Account, t: Account, req: TransferRequest, txId: TxId): (r: Bank)
    requires Wf(b) && s.number in b.accounts && b.accounts[s.number] == s && t.number in b.accounts
    requires req.amount > 0 && txId !in b.entries
    ensures Wf(r) && r.customers == b.customers && r.emails == b.emails
    ensures r.accounts == b.accounts
    ensures EntriesUpdated(b, r, {}, {txId})
    ensures var e := r.entries[txId];
      && e.account == s.number && e.kind == Transfer && e.status == PendingApproval
      && e.amount == -req.amount
      && e.before == e.after == s.balance
      && e.receiverAccount == Some(t.number)
  {
    var e := Entry(txId, s.number, Transfer, -req.amount, s.balance, s.balance,
                   "Transfer to " + t.number + " - " + req.description + " [PENDING APPROVAL]",
                   PendingApproval, Some(t.number), Some(t.owner), None, Some(PendingRemark(req.amount)));
    b.(entries := b.entries[txId := e])
  }

  /** The instant path: both balances move by the amount and two completed legs cancel out. */
  function Settle(b: Bank, s: Account, t: Account, req: TransferRequest, txId: TxId): (r: Bank)
    requires Wf(b) && s.number in b.accounts && b.accounts[s.number] == s
    requires t.number in b.accounts && b.accounts[t.number] == t && s.number != t.number
    requires txId !in b.entries && IncomingId(txId) !in b.entries
    ensures Wf(r) && r.customers == b.customers && r.emails == b.emails
    ensures AccountsKeptExcept(b, r, {s.number, t.number})
    ensures r.accounts[s.number] == s.(balance := s.balance - req.amount)
    ensures r.accounts[t.number] == t.(balance := t.balance + req.amount)
    ensures r.accounts[s.number].balance + r.accounts[t.number].balance == s.balance + t.balance
    ensures EntriesUpdated(b, r, {}, {txId, IncomingId(txId)})
    ensures var out, inc := r.entries[txId], r.entries[IncomingId(txId)];
      && out.account == s.number && inc.account == t.number
      && out.kind == inc.kind == Transfer
      && out.status == inc.status == Completed
      && out.amount == -req.amount && inc.amount == req.amount && out.amount + inc.amount == 0
      && Balanced(out) && Balanced(inc)
      && out.before == s.balance && inc.before == t.balance
      && out.receiverAccount == Some(t.number)
  {
    var a := req.amount;
    var out := Entry(txId, s.number, Transfer, -a, s.balance, s.balance - a,
                     "Transfer to " + t.number + " - " + req.description,
                     Completed, Some(t.number), Some(t.owner), None, None);
    var inc := Entry(IncomingId(txId), t.number, Transfer, a, t.balance, t.balance + a,
                     "Transfer from " + s.number + " - " + req.description,
                     Completed, None, None, Some(s.owner), None);
    b.(accounts := b.accounts[s.number := s.(balance := s.balance - a)][t.number := t.(balance := t.balance + a)],
       entries := b.entries[txId := out][IncomingId(txId) := inc])
  }

  /**
   * POST /api/customer/transfer for the customer whose first ACTIVE account is `sender`;
   * `txId` is the generated transaction id.
   */
  function Initiate(b: Bank, customer: CustomerNumber, sender: Option<AccountNumber>,
                    req: TransferRequest, txId: TxId): (r: Result<Bank, Error>)
    requires Wf(b) && SenderLookup(b, customer, sender)
    // rejections, in the handler's order; none of them touches the state
    ensures !ValidRequest(req) ==> r == Failure(Invalid)
    ensures ValidRequest(req) && sender.None? ==> r == Failure(SenderNotFound)
    ensures ValidRequest(req) && sender.Some? ==>
      var c := b.customers[b.accounts[sender.value].owner].restriction;
      c.isRestricted ==> r == Failure(Restricted(c.kind, c.reason))
    ensures r == Failure(InsufficientBalance) <==>
      && ValidRequest(req) && sender.Some?
      && !b.customers[b.accounts[sender.value].owner].restriction.isRestricted
      && b.accounts[sender.value].balance < req.amount
    ensures r.Success? <==>
      && ValidRequest(req) && sender.Some?
      && !b.customers[b.accounts[sender.value].owner].restriction.isRestricted
      && req.amount <= b.accounts[sender.value].balance
      && req.toAccount in b.accounts && b.accounts[req.toAccount].status == Active
      && req.toAccount != sender.value
      && txId !in b.entries
      && (req.amount < ApprovalThreshold ==> IncomingId(txId) !in b.entries)
    ensures r.Success? ==> Wf(r.value) && r.value.customers == b.customers
    ensures r.Success? && NonNegative(b) ==> NonNegative(r.value)
    // routing at the threshold
    ensures r.Success? && req.amount >= ApprovalThreshold ==>
      r.value == Queue(b, b.accounts[sender.value], b.accounts[req.toAccount], req, txId)
    ensures r.Success? && req.amount < ApprovalThreshold ==>
      r.value == Settle(b, b.accounts[sender.value], b.accounts[req.toAccount], req, txId)
  {
    var (s, t) :- Check(b, sender, req);
    if txId in b.entries then Failure(DuplicateKey)
    else if req.amount >= ApprovalThreshold then Success(Queue(b, s, t, req, txId))
    else if IncomingId(txId) in b.entries then Failure(DuplicateKey)
    else Success(Settle(b, s, t, req, txId))
  }
}
