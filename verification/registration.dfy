/**
 * Customer self-registration: the schema, the uniqueness checks in their order, and the
 * numbering of the new customer and of its two accounts. Each registration creates one
 * customer with a CURRENT (checking) and a SAVING account, both PENDING with balance 0.
 */
module Registration {
  import opened Results
  import opened Text
  import opened Numbers
  import opened Bank
  import Formats

  /** The account number the sequence starts from when there is nothing to continue. */
  const FirstAccountBase: int := 702346799
  /** The customer sequence number used when no customer exists yet. */
  const FirstCustomerSequence: int := 35672904

  /** The fields of the registration form the model keeps. */
  datatype RegisterRequest = RegisterRequest(
    email: string, password: string, accountType: Option<string>, firstName: string, lastName: string, gender: string,
    dateOfBirth: string, mobile: string, ssn: string, licence: string, homeAddress: string,
    state: string, city: string, zipCode: string, areaLocality: string)

  /** registerSchema: lengths, the gender enum and the optional account-type enum. */
  predicate ValidRegistration(req: RegisterRequest) {
    && |req.password| >= 8
    && (req.accountType.None? || req.accountType.value in {"SAVING", "CURRENT"})
    && |req.firstName| >= 1 && |req.lastName| >= 1
    && req.gender in {"MALE", "FEMALE", "OTHER"}
    && |req.dateOfBirth| >= 1
    && |req.mobile| >= 10
    && |req.ssn| == 9
    && 5 <= |req.licence| <= 20
    && |req.homeAddress| >= 1
    && |req.state| >= 2 && |req.city| >= 1
    && |req.zipCode| == 5
    && |req.areaLocality| >= 1
  }

  /**
   * The checking account's number: one past the most recently created account number,
   * or the fixed start when there is no account, its number is empty, or it does not parse.
   */
  function AccountBase(last: Option<AccountNumber>): (r: int)
    ensures last.Some? && ParseInt(last.value).Some? ==> r == ParseInt(last.value).value + 1
    ensures last.None? || ParseInt(last.value).None? ==> r == FirstAccountBase
  {
    if last.Some? && last.value != "" then
      match ParseInt(last.value)
      case Some(n) => n + 1
      case None => FirstAccountBase
    else FirstAccountBase
  }

  /** The checking and savings numbers: base and base + 1. */
  function NewAccountNumbers(last: Option<AccountNumber>): (r: (AccountNumber, AccountNumber))
    ensures ParseInt(r.0) == Some(AccountBase(last)) && ParseInt(r.1) == Some(AccountBase(last) + 1)
    ensures r.0 != r.1
  {
    var base := AccountBase(last);
    ParseIntOfIntToString(base);
    ParseIntOfIntToString(base + 1);
    (IntToString(base), IntToString(base + 1))
  }

  /** Number.prototype.toString of the sequence, where None is NaN. */
  function SequenceText(n: Option<int>): (r: string)
    ensures n.Some? ==> ParseInt(r) == n
    ensures n.None? ==> r == "NaN"
  {
    match n
    case Some(i) => ParseIntOfIntToString(i); IntToString(i)
    case None => "NaN"
  }

  /**
   * The sequence number generateCustomerNumber continues from: the text after the first
   * "CUST" of the most recent customer number, parsed and incremented; None is NaN.
   */
  function CustomerSequence(last: Option<CustomerNumber>): (r: Option<int>)
    ensures last.None? ==> r == Some(FirstCustomerSequence)
    // a number the generator wrote, "CUST" and a tail: the tail parsed, plus one, or NaN
    ensures last.Some? && StartsWith(last.value, "CUST") && ParseInt(last.value[4..]).Some? ==>
      r == Some(ParseInt(last.value[4..]).value + 1)
    ensures last.Some? && StartsWith(last.value, "CUST") && ParseInt(last.value[4..]).None? ==> r.None?
  {
    if last.None? then Some(FirstCustomerSequence)
    else
      var tail := ReplaceFirst(last.value, "CUST", "");
      assert StartsWith(last.value, "CUST") ==> tail == last.value[4..] by {
        if StartsWith(last.value, "CUST") {
          ReplaceLeading("CUST", last.value[4..], "");
          assert "CUST" + last.value[4..] == last.value;
        }
      }
      match ParseInt(tail)
      case Some(n) => Some(n + 1)
      case None => None
  }

  /** generateCustomerNumber: the sequence zero-padded to 10 places behind "CUST"; NaN pads to "0000000NaN". */
  function NewCustomerNumber(last: Option<CustomerNumber>): (r: CustomerNumber)
    ensures StartsWith(r, "CUST") && |r| >= 14
  {
    var r := "CUST" + PadStart(SequenceText(CustomerSequence(last)), 10, '0');
    assert r[..4] == "CUST";
    r
  }

  /** The customer number for sequence `n`, as the generator writes it. */
  function CustomerNumberOf(n: nat): CustomerNumber {
    "CUST" + PadStart(NatToString(n), 10, '0')
  }

  /** Customer numbers continue the sequence: the successor of number n's customer is n + 1's. */
  lemma NewCustomerNumberContinues(n: nat)
    ensures NewCustomerNumber(Some(CustomerNumberOf(n))) == CustomerNumberOf(n + 1)
  {
    ParseIntOfPadded(n, 10);
    NumberAfter(PadStart(NatToString(n), 10, '0'), n);
  }

  /** Account numbers continue too: after base and base + 1 the next registration starts at base + 2. */
  lemma AccountBaseContinues(last: Option<AccountNumber>)
    ensures AccountBase(Some(NewAccountNumbers(last).1)) == AccountBase(last) + 2
  {
  }

  /** The library's constant account number is the number the register route starts from. */
  lemma GeneratedNumberIsFirstBase()
    ensures ParseInt(Formats.GenerateAccountNumber()) == Some(FirstAccountBase)
    ensures Formats.GenerateAccountNumber() == IntToString(FirstAccountBase)
  {
    FirstBaseText();
    ParseIntOfIntToString(FirstAccountBase);
  }

  /** The constant is the decimal text of FirstAccountBase. */
  lemma FirstBaseText()
    ensures Formats.GenerateAccountNumber() == IntToString(FirstAccountBase)
  {
    assert NatToString(7) == "7";
    assert NatToString(70) == "70";
    assert NatToString(702) == "702";
    assert NatToString(7023) == "7023";
    assert NatToString(70234) == "70234";
    assert NatToString(702346) == "702346";
    assert NatToString(7023467) == "7023467";
    assert NatToString(70234679) == "70234679";
    assert NatToString(702346799) == "702346799";
  }

  /** The customer identities the uniqueness checks guard: no two customers share a mobile, SSN or licence. */
  predicate UniqueIdentities(b: Bank) {
    forall c, d :: c in b.customers && d in b.customers && c != d ==>
      && b.customers[c].mobile != b.customers[d].mobile
      && b.customers[c].ssn != b.customers[d].ssn
      && b.customers[c].licence != b.customers[d].licence
  }

  /** The model's view of findFirst(orderBy createdAt desc): a row of the table, or None exactly when the table is empty. */
  predicate LatestOf<K, V>(m: map<K, V>, last: Option<K>) {
    if last.Some? then last.value in m else m == map[]
  }

  /** The first uniqueness check that fails, in the order the handler runs them. */
  function Duplicate(b: Bank, req: RegisterRequest): (r: Option<Error>)
    ensures r.None? <==>
      && req.email !in b.emails
      && forall c :: c in b.customers ==>
           b.customers[c].mobile != req.mobile && b.customers[c].ssn != req.ssn && b.customers[c].licence != req.licence
    ensures r == Some(DuplicateEmail) <==> req.email in b.emails
    ensures r == Some(DuplicateMobile) <==>
      req.email !in b.emails && exists c :: c in b.customers && b.customers[c].mobile == req.mobile
    ensures r == Some(DuplicateSsn) <==>
      && req.email !in b.emails
      && (forall c :: c in b.customers ==> b.customers[c].mobile != req.mobile)
      && exists c :: c in b.customers && b.customers[c].ssn == req.ssn
    ensures r == Some(DuplicateLicence) <==>
      && req.email !in b.emails
      && (forall c :: c in b.customers ==> b.customers[c].mobile != req.mobile && b.customers[c].ssn != req.ssn)
      && exists c :: c in b.customers && b.customers[c].licence == req.licence
  {
    if req.email in b.emails then Some(DuplicateEmail)
    else if exists c :: c in b.customers && b.customers[c].mobile == req.mobile then Some(DuplicateMobile)
    else if exists c :: c in b.customers && b.customers[c].ssn == req.ssn then Some(DuplicateSsn)
    else if exists c :: c in b.customers && b.customers[c].licence == req.licence then Some(DuplicateLicence)
    else None
  }

  /** The rows a registration writes: the customer `c`, its e-mail, and its two PENDING accounts at 0. */
  function Enrol(b: Bank, req: RegisterRequest, c: CustomerNumber, checking: AccountNumber, savings: AccountNumber): (r: Bank)
    requires Wf(b) && c !in b.customers && checking !in b.accounts && savings !in b.accounts && checking != savings
    ensures Wf(r) && r.entries == b.entries
    ensures r.emails == b.emails + {req.email}
    ensures r.customers.Keys == b.customers.Keys + {c}
    ensures r.accounts.Keys == b.accounts.Keys + {checking, savings}
    ensures forall d :: d in b.customers ==> r.customers[d] == b.customers[d]
    ensures forall n :: n in b.accounts ==> r.accounts[n] == b.accounts[n]
    ensures r.customers[c] == Customer(c, req.email, req.mobile, req.ssn, req.licence, Unrestricted)
    ensures r.accounts[checking] == Account(checking, c, Current, AccountStatus.Pending, 0, None, None)
    ensures r.accounts[savings] == Account(savings, c, Saving, AccountStatus.Pending, 0, None, None)
    ensures NonNegative(b) ==> NonNegative(r)
  {
    Bank(
      b.accounts[checking := Account(checking, c, Current, AccountStatus.Pending, 0, None, None)]
                [savings := Account(savings, c, Saving, AccountStatus.Pending, 0, None, None)],
      b.customers[c := Customer(c, req.email, req.mobile, req.ssn, req.licence, Unrestricted)],
      b.entries,
      b.emails + {req.email})
  }

  /** A registration that passed the uniqueness checks keeps the identities unique. */
  lemma EnrolKeepsIdentitiesUnique(b: Bank, req: RegisterRequest, c: CustomerNumber, checking: AccountNumber, savings: AccountNumber)
    requires Wf(b) && c !in b.customers && checking !in b.accounts && savings !in b.accounts && checking != savings
    requires Duplicate(b, req).None?
    ensures UniqueIdentities(b) ==> UniqueIdentities(Enrol(b, req, c, checking, savings))
  {
    if UniqueIdentities(b) {
      var r := Enrol(b, req, c, checking, savings);
      var added := r.customers[c];
      assert forall d :: d in b.customers ==>
        b.customers[d].mobile != added.mobile && b.customers[d].ssn != added.ssn && b.customers[d].licence != added.licence;
      forall x, y | x in r.customers && y in r.customers && x != y
        ensures && r.customers[x].mobile != r.customers[y].mobile
                && r.customers[x].ssn != r.customers[y].ssn
                && r.customers[x].licence != r.customers[y].licence
      {
        if x == c {
          assert r.customers[y] == b.customers[y];
        } else if y == c {
          assert r.customers[x] == b.customers[x];
        } else {
          assert r.customers[x] == b.customers[x] && r.customers[y] == b.customers[y];
        }
      }
    }
  }

  /**
   * POST /api/customer/register, given the most recently created account and customer.
   * A clash of a generated number with an existing row fails the unit of work.
   */
  function Register(b: Bank, req: RegisterRequest, lastAccount: Option<AccountNumber>, lastCustomer: Option<CustomerNumber>,
                    isDate: string -> bool): (r: Result<Bank, Error>)
    requires Wf(b) && LatestOf(b.accounts, lastAccount) && LatestOf(b.customers, lastCustomer)
    ensures !ValidRegistration(req) ==> r == Failure(Invalid)
    ensures ValidRegistration(req) && Duplicate(b, req).Some? ==> r == Failure(Duplicate(b, req).value)
    // a birth date that new Date cannot read aborts the unit of work before anything is written
    ensures ValidRegistration(req) && Duplicate(b, req).None? && !isDate(req.dateOfBirth) ==> r == Failure(InvalidDate)
    ensures r.Success? <==>
      && ValidRegistration(req) && Duplicate(b, req).None? && isDate(req.dateOfBirth)
      && NewCustomerNumber(lastCustomer) !in b.customers
      && NewAccountNumbers(lastAccount).0 !in b.accounts && NewAccountNumbers(lastAccount).1 !in b.accounts
    ensures r.Success? ==>
      r.value == Enrol(b, req, NewCustomerNumber(lastCustomer), NewAccountNumbers(lastAccount).0, NewAccountNumbers(lastAccount).1)
    ensures r.Success? && UniqueIdentities(b) ==> UniqueIdentities(r.value)
  {
    if !ValidRegistration(req) then Failure(Invalid)
    else if Duplicate(b, req).Some? then Failure(Duplicate(b, req).value)
    else if !isDate(req.dateOfBirth) then Failure(InvalidDate)
    else
      var c := NewCustomerNumber(lastCustomer);
      var numbers := NewAccountNumbers(lastAccount);
      if c in b.customers || numbers.0 in b.accounts || numbers.1 in b.accounts then Failure(DuplicateKey)
      else
        EnrolKeepsIdentitiesUnique(b, req, c, numbers.0, numbers.1);
        Success(Enrol(b, req, c, numbers.0, numbers.1))
  }

  /** A customer number whose tail after "CUST" does not parse makes the next one "CUST0000000NaN" ... */
  lemma {:induction false} NaNAfterUnparsable(t: string)
    requires ParseInt(t) == None
    ensures NewCustomerNumber(Some("CUST" + t)) == "CUST" + "0000000NaN"
  {
    ReplaceLeading("CUST", t, "");
    assert "" + t == t;
    assert CustomerSequence(Some("CUST" + t)) == None;
    assert PadStart("NaN", 10, '0') == "0000000NaN";
  }

  /**
   * ... and the one after that restarts the sequence at 1, since parseInt reads the leading
   * zeros as 0 -- unless a single zero is followed by 'x' or 'X', which parseInt reads as a
   * hexadecimal prefix.
   */
  lemma {:induction false} RestartAfterNaN(z: string, t: string)
    requires |z| >= 1 && forall i :: 0 <= i < |z| ==> z[i] == '0'
    requires LeadingDigits(t) == []
    requires |z| >= 2 || t == [] || (t[0] != 'x' && t[0] != 'X')
    ensures NewCustomerNumber(Some("CUST" + (z + t))) == CustomerNumberOf(1)
  {
    ParseIntOfZerosThen(z, t);
    RestartFromZero(z + t);
  }

  /** After "CUST" and a tail that parses as 0 comes the generator's number for 1. */
  lemma {:induction false} RestartFromZero(tail: string)
    requires ParseInt(tail) == Some(0)
    ensures NewCustomerNumber(Some("CUST" + tail)) == CustomerNumberOf(1)
  {
    var last := "CUST" + tail;
    assert last[..4] == "CUST" && last[4..] == tail;
    SequenceOfPrefixed(last);
    NumberOfSequence(Some(last), 1);
  }

  /** After "CUST" and a tail that parses as n comes the generator's number for n + 1. */
  lemma {:induction false} NumberAfter(tail: string, n: nat)
    requires ParseInt(tail) == Some(n)
    ensures NewCustomerNumber(Some("CUST" + tail)) == CustomerNumberOf(n + 1)
  {
    var last := "CUST" + tail;
    assert last[..4] == "CUST" && last[4..] == tail;
    SequenceOfPrefixed(last);
    NumberOfSequence(Some(last), n + 1);
  }

  /** A last number without "CUST" is parsed whole. */
  lemma SequenceWithoutPrefix(last: CustomerNumber)
    requires forall j :: 0 <= j ==> !OccursAt(last, "CUST", j)
    ensures CustomerSequence(Some(last)) ==
            (if ParseInt(last).Some? then Some(ParseInt(last).value + 1) else None)
  {
    assert ReplaceFirst(last, "CUST", "") == last;
  }

  /** A customer number continuing sequence n is the generator's number for n. */
  lemma {:induction false} NumberOfSequence(last: Option<CustomerNumber>, n: nat)
    requires CustomerSequence(last) == Some(n)
    ensures NewCustomerNumber(last) == CustomerNumberOf(n)
  {
    assert SequenceText(Some(n)) == NatToString(n);
  }

  /** The sequence after a number "CUST" + t is the parse of t plus one. */
  lemma SequenceOfPrefixed(last: CustomerNumber)
    requires StartsWith(last, "CUST") && ParseInt(last[4..]).Some?
    ensures CustomerSequence(Some(last)) == Some(ParseInt(last[4..]).value + 1)
  {
    var tail := last[4..];
    assert last == "CUST" + tail;
    ReplaceLeading("CUST", tail, "");
    assert ReplaceFirst(last, "CUST", "") == tail;
  }

  /** Zeros followed by a text that starts with no digit parse as 0. */
  lemma {:induction false} ParseIntOfZerosThen(z: string, t: string)
    requires |z| >= 1 && forall i :: 0 <= i < |z| ==> z[i] == '0'
    requires LeadingDigits(t) == []
    requires |z| >= 2 || t == [] || (t[0] != 'x' && t[0] != 'X')
    ensures ParseInt(z + t) == Some(0)
  {
    assert (z + t)[0] == '0';
    assert !HexPrefixed(z + t) by {
      if |z| >= 2 { assert (z + t)[1] == z[1]; }
      else if t != [] { assert (z + t)[1] == t[0]; }
    }
    assert Unsigned(z + t) == z + t;
    LeadingDigitsOfZerosThen(z, t);
    DigitsValueOfZeros(z);
  }

  /** Zeros in front of a text that starts with no digit are its leading digits. */
  lemma {:induction false} LeadingDigitsOfZerosThen(z: string, t: string)
    requires forall i :: 0 <= i < |z| ==> z[i] == '0'
    requires LeadingDigits(t) == []
    ensures LeadingDigits(z + t) == z
    decreases |z|
  {
    if z != [] {
      assert (z + t)[1..] == z[1..] + t;
      LeadingDigitsOfZerosThen(z[1..], t);
    } else {
      assert z + t == t;
    }
  }
}
