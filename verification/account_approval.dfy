/**
 * The administrator's decision on a newly registered account: APPROVE makes a PENDING
 * account ACTIVE and records the approver, REJECT closes it. Only PENDING accounts are
 * decided, so every account is decided at most once.
 */
module AccountApproval {
  import opened Results
  import opened Bank

  datatype Decision = Approve | Reject

  function ParseDecision(s: string): (r: Option<Decision>)
    ensures r == Some(Approve) <==> s == "APPROVE"
    ensures r == Some(Reject) <==> s == "REJECT"
    ensures r.None? <==> s !in {"APPROVE", "REJECT"}
  {
    if s == "APPROVE" then Some(Approve) else if s == "REJECT" then Some(Reject) else None
  }

  /** The status a decision leaves a PENDING account in. */
  function Outcome(d: Decision): (s: AccountStatus)
    ensures s != AccountStatus.Pending
    ensures s == Active <==> d == Approve
  {
    match d
    case Approve => Active
    case Reject => Closed
  }

  /** POST /api/admin/approve-account by the admin with id `adminId` at time `now`. */
  function Decide(b: Bank, account: AccountNumber, action: string, adminId: string, now: Timestamp): (r: Result<Bank, Error>)
    requires Wf(b)
    ensures ParseDecision(action).None? ==> r == Failure(Invalid)
    ensures ParseDecision(action).Some? && account !in b.accounts ==> r == Failure(AccountNotFound)
    ensures ParseDecision(action).Some? && account in b.accounts && b.accounts[account].status != AccountStatus.Pending ==>
      r == Failure(AccountNotPending)
    ensures r.Success? <==>
      ParseDecision(action).Some? && account in b.accounts && b.accounts[account].status == AccountStatus.Pending
    ensures r.Success? ==>
      var a := b.accounts[account];
      && Wf(r.value) && r.value.customers == b.customers && r.value.entries == b.entries && r.value.emails == b.emails
      && AccountsKeptExcept(b, r.value, {account})
      && BalancesKept(b, r.value)
      && r.value.accounts[account].status == Outcome(ParseDecision(action).value)
      && r.value.accounts[account].owner == a.owner && r.value.accounts[account].kind == a.kind
      // only an approval records who approved and when
      && (action == "APPROVE" ==> r.value.accounts[account].approvedBy == Some(adminId) && r.value.accounts[account].approvedAt == Some(now))
      && (action == "REJECT" ==> r.value.accounts[account].approvedBy == a.approvedBy && r.value.accounts[account].approvedAt == a.approvedAt)
  {
    match ParseDecision(action)
    case None => Failure(Invalid)
    case Some(d) =>
      if account !in b.accounts then Failure(AccountNotFound)
      else
        var a := b.accounts[account];
        if a.status != AccountStatus.Pending then Failure(AccountNotPending)
        else
          var decided := match d
            case Approve => a.(status := Active, approvedBy := Some(adminId), approvedAt := Some(now))
            case Reject => a.(status := Closed);
          Success(b.(accounts := b.accounts[account := decided]))
  }

  /** A decided account cannot be decided again: the second request fails, whatever it asks. */
  lemma DecideOnce(b: Bank, account: AccountNumber, first: string, second: string, adminId: string, now: Timestamp, later: Timestamp)
    requires Wf(b) && Decide(b, account, first, adminId, now).Success?
    ensures ParseDecision(second).Some? ==>
      Decide(Decide(b, account, first, adminId, now).value, account, second, adminId, later) == Failure(AccountNotPending)
  {
  }
}
