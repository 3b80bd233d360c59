/**
 * The two ways an administrator restricts a customer. The toggle route flips the
 * restriction flags without a guard and sets every account of the customer SUSPENDED or
 * ACTIVE; the restrict/unrestrict pair refuses to act twice and never touches accounts.
 */
module Restrictions {
  import opened Results
  import opened Bank

  /** The admin record of the session's user, as the toggle route loads it. */
  datatype Admin = Admin(id: string, canRestrict: bool)

  datatype ToggleAction = Restrict | Unrestrict

  function ParseToggle(s: string): (r: Option<ToggleAction>)
    ensures r == Some(Restrict) <==> s == "RESTRICT"
    ensures r == Some(Unrestrict) <==> s == "UNRESTRICT"
  {
    if s == "RESTRICT" then Some(Restrict) else if s == "UNRESTRICT" then Some(Unrestrict) else None
  }

  datatype ToggleRequest = ToggleRequest(customer: CustomerNumber, action: string, reason: string, kind: Option<string>)

  predicate ValidToggle(req: ToggleRequest) {
    && ParseToggle(req.action).Some?
    && |req.reason| >= 1
    && (req.kind.Some? ==> ParseKind(req.kind.value).Some?)
  }

  /** The customer `c` gets restriction `rs`; nothing else changes. */
  function WithRestriction(b: Bank, c: CustomerNumber, rs: Restriction): (r: Bank)
    requires Wf(b) && c in b.customers
    ensures Wf(r) && r.accounts == b.accounts && r.entries == b.entries && r.emails == b.emails
    ensures r.customers.Keys == b.customers.Keys
    ensures r.customers[c] == b.customers[c].(restriction := rs)
    ensures forall d :: d in b.customers && d != c ==> r.customers[d] == b.customers[d]
  {
    b.(customers := b.customers[c := b.customers[c].(restriction := rs)])
  }

  /** Every account of `c` gets status `s`; other accounts, balances and entries stay. */
  function WithOwnerStatus(b: Bank, c: CustomerNumber, s: AccountStatus): (r: Bank)
    requires Wf(b)
    ensures Wf(r) && r.customers == b.customers && r.entries == b.entries && r.emails == b.emails
    ensures BalancesKept(b, r)
    ensures forall n :: n in b.accounts && b.accounts[n].owner == c ==> r.accounts[n] == b.accounts[n].(status := s)
    ensures forall n :: n in b.accounts && b.accounts[n].owner != c ==> r.accounts[n] == b.accounts[n]
  {
    b.(accounts := map n | n in b.accounts :: if b.accounts[n].owner == c then b.accounts[n].(status := s) else b.accounts[n])
  }

  /** The restriction the toggle route writes: RESTRICT fills the fields, UNRESTRICT nulls them; the expiry is left as it was. */
  function Toggled(prior: Restriction, action: ToggleAction, reason: string, kind: Option<RestrictionKind>, adminId: string, now: Timestamp): (r: Restriction)
    ensures r.expiry == prior.expiry
    ensures r.isRestricted <==> action == Restrict
    ensures action == Restrict ==>
      r.kind == Some(if kind.Some? then kind.value else Frozen) && r.reason == Some(reason)
      && r.restrictedBy == Some(adminId) && r.restrictedAt == Some(now)
    ensures action == Unrestrict ==> r == Unrestricted.(expiry := prior.expiry)
  {
    match action
    case Restrict =>
      Restriction(true, Some(if kind.Some? then kind.value else Frozen), Some(reason), Some(adminId), Some(now), prior.expiry)
    case Unrestrict => Restriction(false, None, None, None, None, prior.expiry)
  }

  /** POST /api/admin/restrict-customer by the admin `admin` (None when the user has no admin record). */
  function ToggleCustomer(b: Bank, admin: Option<Admin>, req: ToggleRequest, now: Timestamp): (r: Result<Bank, Error>)
    requires Wf(b)
    ensures !ValidToggle(req) ==> r == Failure(Invalid)
    ensures ValidToggle(req) && admin.None? ==> r == Failure(AdminNotFound)
    ensures ValidToggle(req) && admin.Some? && !admin.value.canRestrict ==> r == Failure(NoPermission)
    ensures r.Success? <==> ValidToggle(req) && admin.Some? && admin.value.canRestrict && req.customer in b.customers
    ensures r.Success? ==>
      var c := req.customer;
      var action := ParseToggle(req.action).value;
      var status := if action == Restrict then Suspended else Active;
      && Wf(r.value) && r.value.entries == b.entries && r.value.emails == b.emails
      && BalancesKept(b, r.value)
      // every account of the customer takes the new status, whatever it was; the others are untouched
      && (forall n :: n in b.accounts && b.accounts[n].owner == c ==> r.value.accounts[n] == b.accounts[n].(status := status))
      && (forall n :: n in b.accounts && b.accounts[n].owner != c ==> r.value.accounts[n] == b.accounts[n])
      && r.value.customers.Keys == b.customers.Keys
      && (forall d :: d in b.customers && d != c ==> r.value.customers[d] == b.customers[d])
      && r.value.customers[c] == b.customers[c].(restriction :=
           Toggled(b.customers[c].restriction, action, req.reason,
                   if req.kind.Some? then ParseKind(req.kind.value) else None, admin.value.id, now))
  {
    if !ValidToggle(req) then Failure(Invalid)
    else if admin.None? then Failure(AdminNotFound)
    else if !admin.value.canRestrict then Failure(NoPermission)
    else if req.customer !in b.customers then Failure(CustomerNotFound)
    else
      var c := req.customer;
      var action := ParseToggle(req.action).value;
      var kind := if req.kind.Some? then ParseKind(req.kind.value) else None;
      var rs := Toggled(b.customers[c].restriction, action, req.reason, kind, admin.value.id, now);
      Success(WithOwnerStatus(WithRestriction(b, c, rs), c, if action == Restrict then Suspended else Active))
  }

  /** After a toggle every account of the customer has the status the action names. */
  lemma ToggleSetsStatuses(b: Bank, admin: Option<Admin>, req: ToggleRequest, now: Timestamp, b': Bank, s: AccountStatus)
    requires Wf(b) && ToggleCustomer(b, admin, req, now) == Success(b')
    requires s == (if req.action == "RESTRICT" then Suspended else Active)
    ensures forall n :: n in b.accounts ==> n in b'.accounts
    ensures forall n :: n in b.accounts && b.accounts[n].owner == req.customer ==> b'.accounts[n].status == s
  {
    assert ParseToggle(req.action) == Some(if req.action == "RESTRICT" then Restrict else Unrestrict);
  }

  /** The toggle has no already-restricted guard: a second RESTRICT succeeds and leaves every account as the first left it. */
  lemma ToggleRestrictTwiceStatuses(b: Bank, admin: Option<Admin>, req: ToggleRequest, t1: Timestamp, t2: Timestamp, once: Bank)
    requires Wf(b) && ToggleCustomer(b, admin, req, t1) == Success(once) && req.action == "RESTRICT"
    ensures ToggleCustomer(once, admin, req, t2).Success?
    ensures ToggleCustomer(once, admin, req, t2).value.accounts == once.accounts
    ensures ToggleCustomer(once, admin, req, t2).value.entries == once.entries
  {
    assert ParseToggle(req.action) == Some(Restrict);
    assert forall n :: n in once.accounts && once.accounts[n].owner == req.customer ==> once.accounts[n].status == Suspended;
    RestrictSuspendedKeepsAccounts(once, admin, req, t2);
  }

  /** RESTRICT on a customer whose accounts are all SUSPENDED already leaves every account as it was. */
  lemma RestrictSuspendedKeepsAccounts(b: Bank, admin: Option<Admin>, req: ToggleRequest, now: Timestamp)
    requires Wf(b) && ToggleCustomer(b, admin, req, now).Success? && ParseToggle(req.action) == Some(Restrict)
    requires forall n :: n in b.accounts && b.accounts[n].owner == req.customer ==> b.accounts[n].status == Suspended
    ensures ToggleCustomer(b, admin, req, now).value.accounts == b.accounts
  {
    var r := ToggleCustomer(b, admin, req, now).value;
    forall n | n in b.accounts
      ensures r.accounts[n] == b.accounts[n]
    {
    }
    assert r.accounts.Keys == b.accounts.Keys;
  }

  /** ... and the customer's restriction flags as the first left them, but for the time of restriction. */
  lemma ToggleRestrictTwiceFlags(b: Bank, admin: Option<Admin>, req: ToggleRequest, t1: Timestamp, t2: Timestamp, once: Bank)
    requires Wf(b) && ToggleCustomer(b, admin, req, t1) == Success(once) && req.action == "RESTRICT"
    ensures ToggleCustomer(once, admin, req, t2).Success?
    ensures ToggleCustomer(once, admin, req, t2).value.customers ==
      once.customers[req.customer := once.customers[req.customer].(restriction :=
        once.customers[req.customer].restriction.(restrictedAt := Some(t2)))]
  {
    assert ParseToggle(req.action) == Some(Restrict);
  }

  datatype RestrictRequest = RestrictRequest(customer: CustomerNumber, kind: string, reason: string, expiry: Option<string>)

  predicate ValidRestrict(req: RestrictRequest) {
    |req.customer| >= 1 && ParseKind(req.kind).Some? && |req.reason| >= 10
  }

  /** POST /api/admin/restrict-account by the admin with id `adminId`; an empty expiry string counts as none. */
  function RestrictAccount(b: Bank, adminId: string, req: RestrictRequest, now: Timestamp, isDate: string -> bool): (r: Result<Bank, Error>)
    requires Wf(b)
    ensures !ValidRestrict(req) ==> r == Failure(Invalid)
    ensures ValidRestrict(req) && req.customer !in b.customers ==> r == Failure(CustomerNotFound)
    // an existing restriction is reported back and left as it is
    ensures ValidRestrict(req) && req.customer in b.customers && b.customers[req.customer].restriction.isRestricted ==>
      r == Failure(AlreadyRestricted(b.customers[req.customer].restriction))
    // a non-empty expiry that new Date cannot read aborts the update
    ensures (&& ValidRestrict(req) && req.customer in b.customers && !b.customers[req.customer].restriction.isRestricted
             && req.expiry.Some? && req.expiry.value != "" && !isDate(req.expiry.value)) ==> r == Failure(InvalidDate)
    ensures r.Success? <==>
      && ValidRestrict(req) && req.customer in b.customers && !b.customers[req.customer].restriction.isRestricted
      && (req.expiry.Some? && req.expiry.value != "" ==> isDate(req.expiry.value))
    ensures r.Success? ==>
      var c := req.customer;
      && Wf(r.value) && r.value.accounts == b.accounts && r.value.entries == b.entries && r.value.emails == b.emails
      && r.value.customers.Keys == b.customers.Keys
      && (forall d :: d in b.customers && d != c ==> r.value.customers[d] == b.customers[d])
      && r.value.customers[c] == b.customers[c].(restriction := Restriction(
           true, ParseKind(req.kind), Some(req.reason), Some(adminId), Some(now),
           if req.expiry.Some? && req.expiry.value != "" then req.expiry else None))
  {
    if !ValidRestrict(req) then Failure(Invalid)
    else if req.customer !in b.customers then Failure(CustomerNotFound)
    else
      var cur := b.customers[req.customer].restriction;
      if cur.isRestricted then Failure(AlreadyRestricted(cur))
      else
        var expiry := if req.expiry.Some? && req.expiry.value != "" then req.expiry else None;
        if expiry.Some? && !isDate(expiry.value) then Failure(InvalidDate)
        else Success(WithRestriction(b, req.customer, Restriction(true, ParseKind(req.kind), Some(req.reason), Some(adminId), Some(now), expiry)))
  }

  datatype UnrestrictRequest = UnrestrictRequest(customer: CustomerNumber, reason: string)

  predicate ValidUnrestrict(req: UnrestrictRequest) {
    |req.customer| >= 1 && |req.reason| >= 10
  }

  /** POST /api/admin/unrestrict-account. */
  function UnrestrictAccount(b: Bank, req: UnrestrictRequest): (r: Result<Bank, Error>)
    requires Wf(b)
    ensures !ValidUnrestrict(req) ==> r == Failure(Invalid)
    ensures ValidUnrestrict(req) && req.customer !in b.customers ==> r == Failure(CustomerNotFound)
    ensures ValidUnrestrict(req) && req.customer in b.customers && !b.customers[req.customer].restriction.isRestricted ==>
      r == Failure(NotRestricted)
    ensures r.Success? <==>
      ValidUnrestrict(req) && req.customer in b.customers && b.customers[req.customer].restriction.isRestricted
    ensures r.Success? ==>
      var c := req.customer;
      && Wf(r.value) && r.value.accounts == b.accounts && r.value.entries == b.entries && r.value.emails == b.emails
      && r.value.customers.Keys == b.customers.Keys
      && (forall d :: d in b.customers && d != c ==> r.value.customers[d] == b.customers[d])
      // all six restriction columns are cleared, the expiry included
      && r.value.customers[c] == b.customers[c].(restriction := Unrestricted)
  {
    if !ValidUnrestrict(req) then Failure(Invalid)
    else if req.customer !in b.customers then Failure(CustomerNotFound)
    else if !b.customers[req.customer].restriction.isRestricted then Failure(NotRestricted)
    else Success(WithRestriction(b, req.customer, Unrestricted))
  }

  /**
   * Restricting and then unrestricting a customer returns the restriction columns to
   * the unrestricted state and changes nothing else; when the customer started with
   * clear columns the bank is back where it was.
   */
  lemma RestrictThenUnrestrict(b: Bank, adminId: string, req: RestrictRequest, now: Timestamp, isDate: string -> bool, reason: string)
    requires Wf(b) && RestrictAccount(b, adminId, req, now, isDate).Success? && |reason| >= 10
    ensures var mid := RestrictAccount(b, adminId, req, now, isDate).value;
            var r := UnrestrictAccount(mid, UnrestrictRequest(req.customer, reason));
            && r.Success?
            && r.value == b.(customers := b.customers[req.customer := b.customers[req.customer].(restriction := Unrestricted)])
    ensures b.customers[req.customer].restriction == Unrestricted ==>
            UnrestrictAccount(RestrictAccount(b, adminId, req, now, isDate).value, UnrestrictRequest(req.customer, reason)) == Success(b)
  {
    var c := req.customer;
    var mid := RestrictAccount(b, adminId, req, now, isDate).value;
    var r := UnrestrictAccount(mid, UnrestrictRequest(c, reason));
    assert r.value.customers == b.customers[c := b.customers[c].(restriction := Unrestricted)];
    if b.customers[c].restriction == Unrestricted {
      assert b.customers[c].(restriction := Unrestricted) == b.customers[c];
      assert r.value.customers == b.customers;
    }
  }

  /**
   * The two unrestrict paths differ: the toggle route keeps an expiry set by the
   * restrict-account route, so its customer is not back in the unrestricted state.
   */
  lemma ToggleKeepsExpiry(b: Bank, adminId: string, req: RestrictRequest, now: Timestamp, isDate: string -> bool, admin: Admin, reason: string, later: Timestamp)
    requires Wf(b) && RestrictAccount(b, adminId, req, now, isDate).Success?
    requires req.expiry.Some? && req.expiry.value != "" && admin.canRestrict && |reason| >= 1
    ensures var mid := RestrictAccount(b, adminId, req, now, isDate).value;
            var r := ToggleCustomer(mid, Some(admin), ToggleRequest(req.customer, "UNRESTRICT", reason, None), later);
            && r.Success?
            && !r.value.customers[req.customer].restriction.isRestricted
            && r.value.customers[req.customer].restriction.expiry == req.expiry
            && r.value.customers[req.customer].restriction != Unrestricted
  {
  }
}
