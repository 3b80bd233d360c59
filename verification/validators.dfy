/**
 * The anchored regular expressions used by the field validators, and the form
 * schemas built from them. A schema reports every failing check, field by field,
 * and the confirm-password refinement last.
 */
module Validators {
  import opened Results
  import opened Text
  import CustomerTransfer

  /** The character classes that occur in the patterns. */
  datatype CharClass =
    | Digit                       // \d and [0-9]
    | Between(lo: char, hi: char) // [6-9]
    | Upper                       // [A-Z]
    | Lower                       // [a-z]
    | UpperOrDigit                // [A-Z0-9]
    | Literal(c: char)

  predicate InClass(c: char, k: CharClass) {
    match k
    case Digit => IsDigit(c)
    case Between(lo, hi) => lo <= c <= hi
    case Upper => IsUpper(c)
    case Lower => IsLower(c)
    case UpperOrDigit => IsUpper(c) || IsDigit(c)
    case Literal(x) => c == x
  }

  predicate AllIn(s: string, k: CharClass) {
    forall i :: 0 <= i < |s| ==> InClass(s[i], k)
  }

  /** `cls{count}` */
  datatype Piece = Piece(cls: CharClass, count: nat)

  /** A pattern `^p1 p2 ... pn$`: a sequence of counted classes, anchored at both ends. */
  type Pattern = seq<Piece>

  function Width(p: Pattern): nat {
    if p == [] then 0 else p[0].count + Width(p[1..])
  }

  /** RegExp.prototype.test for an anchored pattern. */
  predicate FullMatch(s: string, p: Pattern)
    decreases |p|
  {
    if p == [] then s == []
    else |s| >= p[0].count && AllIn(s[..p[0].count], p[0].cls) && FullMatch(s[p[0].count..], p[1..])
  }

  /** A full match consumes exactly the pattern's width. */
  lemma {:induction false} FullMatchWidth(s: string, p: Pattern)
    requires FullMatch(s, p)
    ensures |s| == Width(p)
    decreases |p|
  {
    if p != [] {
      FullMatchWidth(s[p[0].count..], p[1..]);
    }
  }

  /** RegExp.prototype.test for the unanchored one-character pattern `[class]`. */
  function Contains(s: string, k: CharClass): (r: bool)
    ensures r <==> exists i :: 0 <= i < |s| && InClass(s[i], k)
    decreases |s|
  {
    if s == [] then false
    else InClass(s[0], k) || (assert forall i :: 0 <= i < |s| - 1 ==> s[1..][i] == s[i + 1]; Contains(s[1..], k))
  }

  const MobilePattern: Pattern := [Piece(Between('6', '9'), 1), Piece(Digit, 9)]
  const PanPattern: Pattern := [Piece(Upper, 5), Piece(Digit, 4), Piece(Upper, 1)]
  const AadhaarPattern: Pattern := [Piece(Digit, 12)]
  const IfscPattern: Pattern := [Piece(Upper, 4), Piece(Literal('0'), 1), Piece(UpperOrDigit, 6)]
  const PinPattern: Pattern := [Piece(Digit, 6)]

  /** isValidMobile: ten digits, the first of them 6 to 9. */
  function IsValidMobile(s: string): (ok: bool)
    ensures ok <==> |s| == 10 && '6' <= s[0] <= '9' && AllDigits(s[1..])
  {
    FullMatch(s, MobilePattern)
  }

  /** isValidPAN: five capitals, four digits, one capital. */
  function IsValidPan(s: string): (ok: bool)
    ensures ok <==> |s| == 10 && (forall i :: 0 <= i < 5 ==> IsUpper(s[i]))
                    && (forall i :: 5 <= i < 9 ==> IsDigit(s[i])) && IsUpper(s[9])
  {
    assert FullMatch(s, PanPattern) <==>
      |s| >= 5 && AllIn(s[..5], Upper) && FullMatch(s[5..], PanPattern[1..]);
    assert |s| >= 5 ==> (FullMatch(s[5..], PanPattern[1..]) <==>
      |s| >= 9 && AllIn(s[5..9], Digit) && FullMatch(s[9..], PanPattern[2..])) by {
      if |s| >= 9 {
        assert s[5..][..4] == s[5..9];
        assert s[5..][4..] == s[9..];
      }
    }
    assert |s| >= 9 ==> (FullMatch(s[9..], PanPattern[2..]) <==> |s| == 10 && IsUpper(s[9])) by {
      if |s| >= 10 {
        assert s[9..][..1] == [s[9]];
      }
    }
    FullMatch(s, PanPattern)
  }

  /** isValidAadhaar: exactly twelve digits. */
  function IsValidAadhaar(s: string): (ok: bool)
    ensures ok <==> |s| == 12 && AllDigits(s)
  {
    assert |s| >= 12 ==> s[..12] == s[..] || |s| > 12;
    FullMatch(s, AadhaarPattern)
  }

  /** The PIN code field: exactly six digits. */
  function IsValidPin(s: string): (ok: bool)
    ensures ok <==> |s| == 6 && AllDigits(s)
  {
    FullMatch(s, PinPattern)
  }

  /** isValidIFSC: four capitals, the digit 0, then six capitals or digits. */
  function IsValidIfsc(s: string): (ok: bool)
    ensures ok <==> |s| == 11 && (forall i :: 0 <= i < 4 ==> IsUpper(s[i])) && s[4] == '0'
                    && (forall i :: 5 <= i < 11 ==> IsUpper(s[i]) || IsDigit(s[i]))
  {
    assert FullMatch(s, IfscPattern) <==>
      |s| >= 4 && AllIn(s[..4], Upper) && FullMatch(s[4..], IfscPattern[1..]);
    assert |s| >= 4 ==> (FullMatch(s[4..], IfscPattern[1..]) <==>
      |s| >= 5 && s[4] == '0' && FullMatch(s[5..], IfscPattern[2..])) by {
      if |s| >= 5 {
        assert s[4..][..1] == [s[4]];
        assert s[4..][1..] == s[5..];
      }
    }
    assert |s| >= 5 ==> (FullMatch(s[5..], IfscPattern[2..]) <==>
      |s| == 11 && AllIn(s[5..], UpperOrDigit)) by {
      if |s| >= 11 {
        assert s[5..][..6] == s[5..11];
      }
    }
    FullMatch(s, IfscPattern)
  }

  /** The form fields an issue can be reported on. */
  datatype Field =
    | FirstName | LastName | Gender | Mobile | Pan | Aadhaar | Citizenship | HomeAddress
    | State | City | PinCode | AreaLocality | AccountType | Password | ConfirmPassword
    | CurrentPassword | NewPassword | Name | AccountNumber | IfscCode | BeneficiaryId
    | Amount | Otp | CustomerId | Reason | StaffNumber | HolderName | DateOfBirth

  /** A schema violation: the field it is reported on and its message. */
  datatype Issue = Issue(field: Field, message: string)

  function Require(ok: bool, field: Field, message: string): (r: seq<Issue>)
    ensures r == [] <==> ok
    ensures forall i :: 0 <= i < |r| ==> r[i] == Issue(field, message)
  {
    if ok then [] else [Issue(field, message)]
  }

  /** The strength rules, stated directly: eight characters with a capital, a small letter and a digit. */
  predicate StrongPassword(p: string) {
    && |p| >= 8
    && (exists i :: 0 <= i < |p| && IsUpper(p[i]))
    && (exists i :: 0 <= i < |p| && IsLower(p[i]))
    && (exists i :: 0 <= i < |p| && IsDigit(p[i]))
  }

  /** The password rule chain: every failing rule reports, in rule order. */
  function PasswordIssues(field: Field, p: string): (r: seq<Issue>)
    ensures r == [] <==> StrongPassword(p)
    ensures |r| <= 4 && forall i :: 0 <= i < |r| ==> r[i].field == field
    ensures |p| < 8 ==> |r| >= 1 && r[0] == Issue(field, "Password must be at least 8 characters")
  {
    Require(|p| >= 8, field, "Password must be at least 8 characters")
    + Require(Contains(p, Upper), field, "Password must contain at least one uppercase letter")
    + Require(Contains(p, Lower), field, "Password must contain at least one lowercase letter")
    + Require(Contains(p, Digit), field, "Password must contain at least one number")
  }

  const Mismatch := Issue(ConfirmPassword, "Passwords don't match")

  /** The confirm-match refinement, which runs after the field checks and reports on confirmPassword. */
  function Confirm(p: string, confirm: string): (r: seq<Issue>)
    ensures r == [] <==> p == confirm
    ensures r != [] ==> r == [Mismatch]
  {
    Require(p == confirm, ConfirmPassword, "Passwords don't match")
  }

  /** The fields of customerRegistrationSchema that carry a check other than the age and e-mail rules. */
  datatype RegistrationForm = RegistrationForm(
    firstName: string, lastName: string, gender: string, mobile: string, pan: string,
    aadhaar: string, citizenship: string, homeAddress: string, state: string, city: string,
    pinCode: string, areaLocality: string, accountType: string, password: string,
    confirmPassword: string)

  predicate ValidRegistrationForm(f: RegistrationForm) {
    && |f.firstName| >= 2 && |f.lastName| >= 2
    && f.gender in {"MALE", "FEMALE", "OTHER"}
    && IsValidMobile(f.mobile) && IsValidPan(f.pan) && IsValidAadhaar(f.aadhaar)
    && |f.citizenship| >= 2 && |f.homeAddress| >= 10
    && |f.state| >= 2 && |f.city| >= 2
    && IsValidPin(f.pinCode)
    && |f.areaLocality| >= 2
    && f.accountType in {"SAVING", "CURRENT"}
    && StrongPassword(f.password)
    && f.password == f.confirmPassword
  }

  function PersonalIssues(f: RegistrationForm): (r: seq<Issue>)
    ensures r == [] <==> |f.firstName| >= 2 && |f.lastName| >= 2 && f.gender in {"MALE", "FEMALE", "OTHER"}
    ensures Silent(r, ConfirmPassword)
  {
    Require(|f.firstName| >= 2, FirstName, "First name must be at least 2 characters")
    + Require(|f.lastName| >= 2, LastName, "Last name must be at least 2 characters")
    + Require(f.gender in {"MALE", "FEMALE", "OTHER"}, Gender, "Invalid enum value")
  }

  function IdentityIssues(f: RegistrationForm): (r: seq<Issue>)
    ensures r == [] <==> IsValidMobile(f.mobile) && IsValidPan(f.pan) && IsValidAadhaar(f.aadhaar)
                         && |f.citizenship| >= 2
    ensures Silent(r, ConfirmPassword)
  {
    Require(IsValidMobile(f.mobile), Mobile, "Invalid mobile number")
    + Require(IsValidPan(f.pan), Pan, "Invalid PAN number")
    + Require(IsValidAadhaar(f.aadhaar), Aadhaar, "Invalid Aadhaar number")
    + Require(|f.citizenship| >= 2, Citizenship, "Citizenship is required")
  }

  function AddressIssues(f: RegistrationForm): (r: seq<Issue>)
    ensures r == [] <==> |f.homeAddress| >= 10 && |f.state| >= 2 && |f.city| >= 2
                         && IsValidPin(f.pinCode) && |f.areaLocality| >= 2
    ensures Silent(r, ConfirmPassword)
  {
    Require(|f.homeAddress| >= 10, HomeAddress, "Home address must be at least 10 characters")
    + Require(|f.state| >= 2, State, "State is required")
    + Require(|f.city| >= 2, City, "City is required")
    + Require(IsValidPin(f.pinCode), PinCode, "Invalid PIN code")
    + Require(|f.areaLocality| >= 2, AreaLocality, "Area/Locality is required")
  }

  /** No issue of `r` is reported on `fld`. */
  predicate Silent(r: seq<Issue>, fld: Field) {
    forall i :: 0 <= i < |r| ==> r[i].field != fld
  }

  lemma SilentConcat(a: seq<Issue>, b: seq<Issue>, fld: Field)
    requires Silent(a, fld) && Silent(b, fld)
    ensures Silent(a + b, fld)
  {
    forall i | 0 <= i < |a + b|
      ensures (a + b)[i].field != fld
    {
      if i >= |a| {
        assert (a + b)[i] == b[i - |a|];
      }
    }
  }

  /** The checks of the registration form's fields, in declaration order. */
  function FieldIssues(f: RegistrationForm): (r: seq<Issue>)
    ensures r == [] <==> ValidRegistrationForm(f.(confirmPassword := f.password))
    ensures Silent(r, ConfirmPassword)
  {
    var personal, identity, address := PersonalIssues(f), IdentityIssues(f), AddressIssues(f);
    var kind := Require(f.accountType in {"SAVING", "CURRENT"}, AccountType, "Invalid enum value");
    var password := PasswordIssues(Password, f.password);
    assert Silent(personal + identity, ConfirmPassword) by {
      SilentConcat(personal, identity, ConfirmPassword);
    }
    assert Silent(personal + identity + address, ConfirmPassword) by {
      SilentConcat(personal + identity, address, ConfirmPassword);
    }
    assert Silent(personal + identity + address + kind, ConfirmPassword) by {
      SilentConcat(personal + identity + address, kind, ConfirmPassword);
    }
    SilentConcat(personal + identity + address + kind, password, ConfirmPassword);
    personal + identity + address + kind + password
  }

  /**
   * The enum fields parsed: a failed z.enum aborts the object (a failed string check only
   * marks it dirty), and an aborted object skips its refinement.
   */
  predicate EnumsParse(f: RegistrationForm) {
    f.gender in {"MALE", "FEMALE", "OTHER"} && f.accountType in {"SAVING", "CURRENT"}
  }

  /** customerRegistrationSchema.safeParse: field issues in declaration order, then the refinement unless an enum failed. */
  function RegistrationIssues(f: RegistrationForm): (r: seq<Issue>)
    ensures r == [] <==> ValidRegistrationForm(f)
    ensures (f.password != f.confirmPassword && EnumsParse(f)) <==> r != [] && r[|r| - 1] == Mismatch
    ensures !EnumsParse(f) ==> r != [] && Silent(r, ConfirmPassword)
  {
    if EnumsParse(f) then FieldIssues(f) + Confirm(f.password, f.confirmPassword)
    else FieldIssues(f)
  }

  /** changePasswordSchema.safeParse */
  function ChangePasswordIssues(current: string, newPassword: string, confirm: string): (r: seq<Issue>)
    ensures r == [] <==> |current| >= 1 && StrongPassword(newPassword) && newPassword == confirm
    ensures newPassword != confirm <==> r != [] && r[|r| - 1] == Mismatch
  {
    Require(|current| >= 1, CurrentPassword, "Current password is required")
    + PasswordIssues(NewPassword, newPassword)
    + Confirm(newPassword, confirm)
  }

  /** beneficiarySchema.safeParse */
  function BeneficiaryIssues(name: string, accountNumber: string, ifsc: string, accountType: string): (r: seq<Issue>)
    ensures r == [] <==> |name| >= 2 && |accountNumber| >= 10 && IsValidIfsc(ifsc)
                         && accountType in {"SAVING", "CURRENT"}
  {
    Require(|name| >= 2, Name, "Beneficiary name must be at least 2 characters")
    + Require(|accountNumber| >= 10, AccountNumber, "Invalid account number")
    + Require(FullMatch(ifsc, IfscPattern), IfscCode, "Invalid IFSC code")
    + Require(accountType in {"SAVING", "CURRENT"}, AccountType, "Invalid enum value")
  }

  /** The fund-transfer limits in cents: at least one and at most one hundred thousand currency units. */
  const MinTransfer: int := 100
  const MaxTransfer: int := 10_000_000

  /** fundTransferSchema.safeParse, with the amount in cents. */
  function FundTransferIssues(beneficiaryId: string, amount: int): (r: seq<Issue>)
    ensures r == [] <==> |beneficiaryId| >= 1 && MinTransfer <= amount <= MaxTransfer
    ensures amount < MinTransfer ==> Issue(Amount, "Amount must be at least ₹" + "1") in r
  {
    Require(|beneficiaryId| >= 1, BeneficiaryId, "Please select a beneficiary")
    + Require(amount >= MinTransfer, Amount, "Amount must be at least ₹" + "1")
    + Require(amount <= MaxTransfer, Amount, "Amount cannot exceed ₹" + "100,000 per transaction")
  }

  /** otpVerificationSchema.safeParse */
  function OtpIssues(otp: string): (r: seq<Issue>)
    ensures r == [] <==> |otp| == 6
  {
    Require(|otp| == 6, Otp, "OTP must be 6 digits")
  }

  /** creditAccountSchema.safeParse, with the amount in cents. */
  function CreditFormIssues(accountNumber: string, amount: int): (r: seq<Issue>)
    ensures r == [] <==> |accountNumber| >= 1 && amount >= MinTransfer
  {
    Require(|accountNumber| >= 1, AccountNumber, "Account number is required")
    + Require(amount >= MinTransfer, Amount, "Amount must be at least ₹" + "1")
  }

  /** deleteAccountSchema.safeParse */
  function DeleteAccountIssues(accountNumber: string, customerId: string, reason: string): (r: seq<Issue>)
    ensures r == [] <==> |accountNumber| >= 1 && |customerId| >= 1 && |reason| >= 10
  {
    Require(|accountNumber| >= 1, AccountNumber, "Account number is required")
    + Require(|customerId| >= 1, CustomerId, "Customer ID is required")
    + Require(|reason| >= 10, Reason, "Reason must be at least 10 characters")
  }

  /** staffLoginSchema.safeParse */
  function StaffLoginIssues(staffNumber: string, password: string): (r: seq<Issue>)
    ensures r == [] <==> |staffNumber| >= 1 && |password| >= 1
  {
    Require(|staffNumber| >= 1, StaffNumber, "Staff number is required")
    + Require(|password| >= 1, Password, "Password is required")
  }

  /** debitCardApplicationSchema.safeParse: the PAN and mobile fields use the same patterns as isValidPAN and isValidMobile. */
  function DebitCardIssues(accountNumber: string, holderName: string, dateOfBirth: string, pan: string, mobile: string): (r: seq<Issue>)
    ensures r == [] <==> |accountNumber| >= 1 && |holderName| >= 2 && |dateOfBirth| >= 1
                         && IsValidPan(pan) && IsValidMobile(mobile)
    ensures !IsValidPan(pan) ==> Issue(Pan, "Invalid PAN number") in r
  {
    Require(|accountNumber| >= 1, AccountNumber, "Account number is required")
    + Require(|holderName| >= 2, HolderName, "Account holder name is required")
    + Require(|dateOfBirth| >= 1, DateOfBirth, "Date of birth is required")
    + Require(FullMatch(pan, PanPattern), Pan, "Invalid PAN number")
    + Require(FullMatch(mobile, MobilePattern), Mobile, "Invalid mobile number")
  }

  /** accountApprovalSchema.safeParse */
  function AccountApprovalIssues(customerId: string): (r: seq<Issue>)
    ensures r == [] <==> |customerId| >= 1
  {
    Require(|customerId| >= 1, CustomerId, "Customer ID is required")
  }

  /** An amount the fund-transfer form accepts passes the transfer route's schema. */
  lemma FundTransferFormMeetsServer(beneficiaryId: string, amount: int, to: string, description: string)
    requires FundTransferIssues(beneficiaryId, amount) == []
    requires |to| >= 1 && |description| >= 1
    ensures CustomerTransfer.ValidRequest(CustomerTransfer.TransferRequest(to, amount, description))
  {
  }
}
