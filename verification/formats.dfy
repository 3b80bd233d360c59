/**
 * Display helpers for account data: digit grouping of account and routing numbers,
 * and the masks for account, card and mobile numbers.
 */
module Formats {
  import opened Text

  /**
   * replace(/(\d{k})(?=\d)/g, '$1 '): scanning left to right, a run of k digits that is
   * followed by another digit gets a space after it; scanning resumes after the run.
   */
  function GroupDigits(s: string, k: nat): (r: string)
    requires k > 0
    // characters are only ever added, and at most one space per group of k
    ensures |s| <= |r| && |r| * k <= |s| * (k + 1)
    decreases |s|
  {
    if |s| > k && AllDigits(s[..k + 1]) then
      var rest := GroupDigits(s[k..], k);
      ScaleStep(|rest|, |s| - k, k + 1, k, k);
      s[..k] + " " + rest
    else if s == [] then []
    else
      var rest := GroupDigits(s[1..], k);
      ScaleStep(|rest|, |s| - 1, 1, 1, k);
      [s[0]] + rest
  }

  /** x output characters for y input ones, then a more for b more: the ratio bound adds up. */
  lemma ScaleStep(x: nat, y: nat, a: nat, b: nat, k: nat)
    requires x * k <= y * (k + 1) && a * k <= b * (k + 1)
    ensures (x + a) * k <= (y + b) * (k + 1)
  {
    assert (x + a) * k == x * k + a * k;
    assert (y + b) * (k + 1) == y * (k + 1) + b * (k + 1);
  }

  /** formatAccountNumber: a space after every four digits that are followed by a digit. */
  function FormatAccountNumber(s: string): (r: string)
    ensures (forall i :: 0 <= i < |s| ==> s[i] != ' ') ==> RemoveSpaces(r) == s
    ensures AllDigits(s) && |s| >= 1 ==> |r| == |s| + (|s| - 1) / 4 && r[0] != ' ' && r[|r| - 1] != ' '
  {
    GroupingFacts(s, 4);
    GroupDigits(s, 4)
  }

  /** formatRoutingNumber: a space after every three digits that are followed by a digit. */
  function FormatRoutingNumber(s: string): (r: string)
    ensures (forall i :: 0 <= i < |s| ==> s[i] != ' ') ==> RemoveSpaces(r) == s
    ensures AllDigits(s) && |s| >= 1 ==> |r| == |s| + (|s| - 1) / 3 && r[0] != ' ' && r[|r| - 1] != ' '
  {
    GroupingFacts(s, 3);
    GroupDigits(s, 3)
  }

  /** The round trip and the length of a grouping, for the group sizes the formatters use. */
  lemma GroupingFacts(s: string, k: nat)
    requires k == 3 || k == 4
    ensures (forall i :: 0 <= i < |s| ==> s[i] != ' ') ==> RemoveSpaces(GroupDigits(s, k)) == s
    ensures AllDigits(s) && |s| >= 1 ==>
      var r := GroupDigits(s, k);
      |r| == |s| + (|s| - 1) / k && r[0] != ' ' && r[|r| - 1] != ' '
  {
    if forall i :: 0 <= i < |s| ==> s[i] != ' ' {
      GroupDigitsRoundTrip(s, k);
    }
    if AllDigits(s) && |s| >= 1 {
      GroupDigitsLength(s, k);
      GapsClosedForm(|s|);
    }
  }

  function RemoveSpaces(s: string): (r: string)
    ensures forall i :: 0 <= i < |r| ==> r[i] != ' '
    ensures (forall i :: 0 <= i < |s| ==> s[i] != ' ') ==> r == s
    decreases |s|
  {
    if s == [] then [] else (if s[0] == ' ' then [] else [s[0]]) + RemoveSpaces(s[1..])
  }

  lemma {:induction false} RemoveSpacesAppend(a: string, b: string)
    ensures RemoveSpaces(a + b) == RemoveSpaces(a) + RemoveSpaces(b)
    decreases |a|
  {
    if a == [] {
      assert a + b == b;
    } else {
      assert (a + b)[1..] == a[1..] + b;
      RemoveSpacesAppend(a[1..], b);
    }
  }

  /** Deleting the inserted spaces gives back any input that had none. */
  lemma {:induction false} GroupDigitsRoundTrip(s: string, k: nat)
    requires k > 0 && forall i :: 0 <= i < |s| ==> s[i] != ' '
    ensures RemoveSpaces(GroupDigits(s, k)) == s
    decreases |s|
  {
    if |s| > k && AllDigits(s[..k + 1]) {
      GroupDigitsRoundTrip(s[k..], k);
      RejoinGroup(s, k, GroupDigits(s[k..], k));
    } else if s != [] {
      GroupDigitsRoundTrip(s[1..], k);
      RejoinChar(s, GroupDigits(s[1..], k));
    }
  }

  /** A group, its space, and text that reads back as the remainder read back as the whole. */
  lemma RejoinGroup(s: string, k: nat, rest: string)
    requires k <= |s| && forall i :: 0 <= i < k ==> s[i] != ' '
    requires RemoveSpaces(rest) == s[k..]
    ensures RemoveSpaces(s[..k] + " " + rest) == s
  {
    RemoveSpacesAppend(s[..k], " ");
    RemoveSpacesAppend(s[..k] + " ", rest);
    assert s[..k] + s[k..] == s;
  }

  lemma RejoinChar(s: string, rest: string)
    requires |s| >= 1 && s[0] != ' '
    requires RemoveSpaces(rest) == s[1..]
    ensures RemoveSpaces([s[0]] + rest) == s
  {
    RemoveSpacesAppend([s[0]], rest);
    assert [s[0]] + s[1..] == s;
  }

  /** The number of groups of k that are followed by another digit in a run of n digits. */
  function Gaps(n: nat, k: nat): (g: nat)
    requires k > 0
    ensures n <= k ==> g == 0
    ensures n > k ==> g >= 1
    decreases n
  {
    if n > k then 1 + Gaps(n - k, k) else 0
  }

  /** For the two group sizes used, Gaps is the closed form (n - 1) / k. */
  lemma {:induction false} GapsClosedForm(n: nat)
    requires n >= 1
    ensures Gaps(n, 4) == (n - 1) / 4
    ensures Gaps(n, 3) == (n - 1) / 3
    decreases n
  {
    if n > 3 {
      GapsClosedForm(n - 3);
    }
    if n > 4 {
      GapsClosedForm(n - 4);
    }
  }

  /** An all-digit input gets one space per gap and never starts or ends with a space. */
  lemma {:induction false} GroupDigitsLength(s: string, k: nat)
    requires k > 0 && |s| >= 1 && AllDigits(s)
    ensures |GroupDigits(s, k)| == |s| + Gaps(|s|, k)
    ensures GroupDigits(s, k)[0] != ' ' && GroupDigits(s, k)[|GroupDigits(s, k)| - 1] != ' '
    decreases |s|
  {
    if |s| > k {
      assert AllDigits(s[..k + 1]);
      GroupDigitsLength(s[k..], k);
    } else {
      GroupDigitsShort(s, k);
    }
  }

  /** Fewer than k + 1 characters: no group is followed by a digit, so nothing changes. */
  lemma {:induction false} GroupDigitsShort(s: string, k: nat)
    requires k > 0 && |s| <= k
    ensures GroupDigits(s, k) == s
    decreases |s|
  {
    if s != [] {
      GroupDigitsShort(s[1..], k);
      assert [s[0]] + s[1..] == s;
    }
  }

  /** A ten-digit account number is shown as 4-4-2. */
  lemma FormatAccountExample()
    ensures FormatAccountNumber("1234567890") == "1234 5678 90"
  {
    GroupsOfFourWhole();
  }

  lemma GroupsOfFourWhole()
    ensures GroupDigits("1234567890", 4) == "1234 5678 90"
  {
    var s := "1234567890";
    assert s[..5] == "12345" && AllDigits("12345");
    assert s[4..] == "567890";
    GroupsOfFour();
    assert GroupDigits(s, 4) == "1234" + " " + "5678 90";
  }

  lemma GroupsOfFour()
    ensures GroupDigits("567890", 4) == "5678 90"
  {
    assert "567890"[..5] == "56789" && AllDigits("56789");
    assert "567890"[4..] == "90";
    GroupDigitsShort("90", 4);
    assert GroupDigits("567890", 4) == "5678" + " " + "90";
  }

  /** A nine-digit routing number is shown as 3-3-3. */
  lemma FormatRoutingExample()
    ensures FormatRoutingNumber("021000021") == "021 000 021"
  {
    GroupsOfThreeWhole();
  }

  lemma GroupsOfThreeWhole()
    ensures GroupDigits("021000021", 3) == "021 000 021"
  {
    var s := "021000021";
    assert s[..4] == "0210" && AllDigits("0210");
    assert s[3..] == "000021";
    GroupsOfThree();
    assert GroupDigits(s, 3) == "021" + " " + "000 021";
  }

  lemma GroupsOfThree()
    ensures GroupDigits("000021", 3) == "000 021"
  {
    assert "000021"[..4] == "0000" && AllDigits("0000");
    assert "000021"[3..] == "021";
    GroupDigitsShort("021", 3);
    assert GroupDigits("000021", 3) == "000" + " " + "021";
  }

  /** maskAccountNumber */
  function MaskAccountNumber(s: string): (r: string)
    ensures |s| <= 4 ==> r == s
    ensures |s| > 4 ==> |r| == 9 && r[..5] == "XXXX " && r[5..] == s[|s| - 4..]
  {
    if |s| <= 4 then s else "XXXX " + s[|s| - 4..]
  }

  /** maskCardNumber */
  function MaskCardNumber(s: string): (r: string)
    ensures |s| != 16 ==> r == s
    ensures |s| == 16 ==> |r| == 19 && r[..4] == s[..4] && r[4..15] == " XXXX XXXX " && r[15..] == s[12..]
  {
    if |s| != 16 then s else s[..4] + " XXXX XXXX " + s[12..]
  }

  /** maskMobileNumber */
  function MaskMobileNumber(s: string): (r: string)
    ensures |s| != 10 ==> r == s
    ensures |s| == 10 ==> |r| == 10 && r[..3] == s[..3] && r[3..8] == "XXXXX" && r[8..] == s[8..]
  {
    if |s| != 10 then s else s[..3] + "XXXXX" + s[8..]
  }

  /** Masking a masked number changes nothing. */
  lemma MasksIdempotent(s: string)
    ensures MaskAccountNumber(MaskAccountNumber(s)) == MaskAccountNumber(s)
    ensures MaskCardNumber(MaskCardNumber(s)) == MaskCardNumber(s)
    ensures MaskMobileNumber(MaskMobileNumber(s)) == MaskMobileNumber(s)
  {
    if |s| == 10 {
      var m := MaskMobileNumber(s);
      assert m[..3] + "XXXXX" + m[8..] == m;
    }
  }

  /** generateAccountNumber: a constant. */
  function GenerateAccountNumber(): (r: string)
    ensures |r| == 9 && AllDigits(r)
  {
    "702346799"
  }
}
