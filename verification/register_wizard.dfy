/**
 * The four-step registration page: moving between steps, the checks run on submit
 * (each either stops with a message, possibly sending the user back to a step, or
 * lets the form be posted), and the digit-only SSN and ZIP inputs.
 */
module RegisterWizard {
  import opened Results
  import opened Text
  import Registration

  type Step = s: int | 1 <= s <= 4 witness 1

  /** nextStep */
  function NextStep(s: Step): (r: Step)
    ensures s < 4 ==> r == s + 1
    ensures s == 4 ==> r == 4
  {
    if s < 4 then s + 1 else s
  }

  /** prevStep */
  function PrevStep(s: Step): (r: Step)
    ensures s > 1 ==> r == s - 1
    ensures s == 1 ==> r == 1
  {
    if s > 1 then s - 1 else s
  }

  /** Going forward then back, or back then forward, returns to the step away from the end it would stop at. */
  lemma StepsInverse(s: Step)
    ensures s < 4 ==> PrevStep(NextStep(s)) == s
    ensures s > 1 ==> NextStep(PrevStep(s)) == s
  {
  }

  function Forward(s: Step, n: nat): Step
    decreases n
  {
    if n == 0 then s else Forward(NextStep(s), n - 1)
  }

  /** Three presses of Next reach the last step from anywhere, and further presses stay there. */
  lemma {:induction false} ForwardReachesLast(s: Step, n: nat)
    requires n >= 4 - s
    ensures Forward(s, n) == 4
    decreases n
  {
    if n > 0 {
      ForwardReachesLast(NextStep(s), n - 1);
    }
  }

  /** The fields of the page's form that the submit checks read. */
  datatype WizardForm = WizardForm(
    password: string, confirmPassword: string, gender: string, mobile: string,
    ssn: string, driversLicense: string, zipCode: string)

  /** What submitting does: post the form, or show a message and maybe move to a step. */
  datatype Outcome = Post | Stop(message: string, step: Option<Step>)

  /** The fields the page checks are all acceptable. */
  predicate Acceptable(f: WizardForm) {
    && f.password == f.confirmPassword && |f.password| >= 8
    && f.gender != "" && |f.mobile| >= 10
    && |f.ssn| == 9 && |f.driversLicense| >= 5
    && |f.zipCode| == 5
  }

  /** handleSubmit's checks, in the order the page runs them. */
  function Submit(f: WizardForm): (o: Outcome)
    ensures o == Post <==> Acceptable(f)
    // the password checks come first and leave the step alone
    ensures f.password != f.confirmPassword ==> o == Stop("Passwords do not match", None)
    ensures f.password == f.confirmPassword && |f.password| < 8 ==> o.Stop? && o.step == None
    // a later failure sends the user back to the step holding the first failing field
    ensures o.Stop? && o.step.Some? ==>
      (o.step.value == 2 <==> f.gender == "" || |f.mobile| < 10)
    ensures o.Stop? && o.step == Some(3) ==>
      f.gender != "" && |f.mobile| >= 10 && (|f.ssn| != 9 || |f.driversLicense| < 5)
    ensures o.Stop? && o.step == Some(4) ==> |f.ssn| == 9 && |f.driversLicense| >= 5 && |f.zipCode| != 5
    ensures o.Stop? && o.step.Some? ==> 2 <= o.step.value
  {
    if f.password != f.confirmPassword then Stop("Passwords do not match", None)
    else if |f.password| < 8 then Stop("Password must be at least 8 characters long", None)
    else if f.gender == "" then Stop("Please select your gender", Some(2))
    else if |f.mobile| < 10 then Stop("Phone number must be at least 10 digits", Some(2))
    else if |f.ssn| != 9 then Stop("SSN must be exactly 9 digits", Some(3))
    else if |f.driversLicense| < 5 then Stop("Driver's License is required", Some(3))
    else if |f.zipCode| != 5 then Stop("ZIP code must be exactly 5 digits", Some(4))
    else Post
  }

  /** replace(/\D/g, ''): drop every character that is not an ASCII digit. */
  function KeepDigits(s: string): (r: string)
    ensures AllDigits(r) && |r| <= |s|
    ensures AllDigits(s) ==> r == s
    decreases |s|
  {
    if s == [] then []
    else (if IsDigit(s[0]) then [s[0]] else []) + KeepDigits(s[1..])
  }

  /** Filtering a filtered input changes nothing. */
  lemma KeepDigitsIdempotent(s: string)
    ensures KeepDigits(KeepDigits(s)) == KeepDigits(s)
  {
  }

  /** The digits kept are those of the input, in order: filtering distributes over concatenation. */
  lemma {:induction false} KeepDigitsAppend(a: string, b: string)
    ensures KeepDigits(a + b) == KeepDigits(a) + KeepDigits(b)
    decreases |a|
  {
    if a != [] {
      assert (a + b)[1..] == a[1..] + b;
      KeepDigitsAppend(a[1..], b);
    } else {
      assert a + b == b;
    }
  }

  /**
   * A form the page would post meets the register route's rules on the fields both check,
   * except the licence's upper bound of 20, which the page does not check.
   */
  lemma PostedFormMeetsServer(f: WizardForm, req: Registration.RegisterRequest)
    requires Submit(f) == Post
    requires req.password == f.password && req.mobile == f.mobile && req.ssn == f.ssn
    requires req.licence == f.driversLicense && req.zipCode == f.zipCode
    ensures |req.password| >= 8 && |req.mobile| >= 10 && |req.ssn| == 9 && |req.zipCode| == 5
    ensures |req.licence| >= 5
  {
  }

  /**
   * handleSubmit checks only the licence's lower bound: a 21-character licence passes it,
   * so the upper bound the register route enforces rests on the input's maxLength alone.
   */
  lemma LongLicencePassesPage()
    ensures var f := WizardForm("Secret123", "Secret123", "MALE", "5551234567", "123456789",
                                "ABCDEFGHIJKLMNOPQRSTU", "90001");
            Submit(f) == Post && |f.driversLicense| > 20
  {
  }
}
