/** Decimal rendering and parsing of integers, as Number.prototype.toString and parseInt do it. */
module Numbers {
  import opened Results
  import opened Text

  function DigitChar(d: nat): (c: char)
    requires d < 10
    ensures IsDigit(c)
  {
    ('0' as int + d) as char
  }

  function DigitValue(c: char): (d: nat)
    requires IsDigit(c)
    ensures d < 10 && DigitChar(d) == c
  {
    c as int - '0' as int
  }

  /** Decimal representation of a non-negative integer, without leading zeros. */
  function NatToString(n: nat): (r: string)
    ensures 1 <= |r| && AllDigits(r)
    ensures |r| > 1 ==> r[0] != '0'
    decreases n
  {
    if n < 10 then [DigitChar(n)] else NatToString(n / 10) + [DigitChar(n % 10)]
  }

  /** Number.prototype.toString for an integer. */
  function IntToString(i: int): (r: string)
    ensures 1 <= |r|
    ensures i >= 0 <==> IsDigit(r[0])
  {
    if i < 0 then "-" + NatToString(-i) else NatToString(i)
  }

  /** The value of a string of decimal digits (leading zeros allowed). */
  function DigitsValue(s: string): nat
    requires AllDigits(s)
    decreases |s|
  {
    if s == [] then 0 else DigitsValue(s[..|s| - 1]) * 10 + DigitValue(s[|s| - 1])
  }

  /** The longest prefix of `s` made of digits. */
  function LeadingDigits(s: string): (r: string)
    ensures AllDigits(r) && StartsWith(s, r)
    ensures |r| < |s| ==> !IsDigit(s[|r|])
  {
    if s == [] || !IsDigit(s[0]) then [] else [s[0]] + LeadingDigits(s[1..])
  }

  predicate IsHexDigit(c: char) {
    IsDigit(c) || 'a' <= c <= 'f' || 'A' <= c <= 'F'
  }

  function HexDigitValue(c: char): (d: nat)
    requires IsHexDigit(c)
    ensures d < 16
    ensures IsDigit(c) ==> d == DigitValue(c)
  {
    if IsDigit(c) then DigitValue(c)
    else if 'a' <= c <= 'f' then c as int - 'a' as int + 10
    else c as int - 'A' as int + 10
  }

  predicate AllHexDigits(s: string) {
    forall i :: 0 <= i < |s| ==> IsHexDigit(s[i])
  }

  /** The value of a string of hexadecimal digits. */
  function HexValue(s: string): nat
    requires AllHexDigits(s)
    decreases |s|
  {
    if s == [] then 0 else HexValue(s[..|s| - 1]) * 16 + HexDigitValue(s[|s| - 1])
  }

  /** The longest prefix of `s` made of hexadecimal digits. */
  function LeadingHexDigits(s: string): (r: string)
    ensures AllHexDigits(r) && StartsWith(s, r)
    ensures |r| < |s| ==> !IsHexDigit(s[|r|])
  {
    if s == [] || !IsHexDigit(s[0]) then [] else [s[0]] + LeadingHexDigits(s[1..])
  }

  /** The text after an optional leading sign. */
  function Unsigned(s: string): (r: string)
    ensures |s| > 0 && (s[0] == '-' || s[0] == '+') ==> r == s[1..]
    ensures |s| == 0 || (s[0] != '-' && s[0] != '+') ==> r == s
  {
    if |s| > 0 && (s[0] == '-' || s[0] == '+') then s[1..] else s
  }

  /** Without a radix, parseInt reads "0x" or "0X" as the start of a hexadecimal number. */
  predicate HexPrefixed(body: string) {
    |body| >= 2 && body[0] == '0' && (body[1] == 'x' || body[1] == 'X')
  }

  /**
   * parseInt(s) without a radix: an optional sign, then either "0x"/"0X" and the longest
   * run of hexadecimal digits, or the longest run of decimal digits; any trailing text is
   * ignored. None stands for NaN (no digit where one is needed).
   */
  function ParseInt(s: string): (r: Option<int>)
    ensures !HexPrefixed(Unsigned(s)) ==> (r.None? <==> LeadingDigits(Unsigned(s)) == [])
    ensures HexPrefixed(Unsigned(s)) ==> (r.None? <==> LeadingHexDigits(Unsigned(s)[2..]) == [])
    ensures r.Some? && |s| > 0 && s[0] == '-' ==> r.value <= 0
    ensures r.Some? && (|s| == 0 || s[0] != '-') ==> r.value >= 0
  {
    var body := Unsigned(s);
    var magnitude: Option<nat> :=
      if HexPrefixed(body) then
        var digits := LeadingHexDigits(body[2..]);
        if digits == [] then None else Some(HexValue(digits))
      else
        var digits := LeadingDigits(body);
        if digits == [] then None else Some(DigitsValue(digits));
    match magnitude
    case None => None
    case Some(m) => if |s| > 0 && s[0] == '-' then Some(-(m as int)) else Some(m as int)
  }

  /** A digit string has no hexadecimal prefix. */
  lemma DigitsNotHexPrefixed(s: string)
    requires AllDigits(s)
    ensures !HexPrefixed(s)
  {
    if |s| >= 2 {
      assert IsDigit(s[1]);
    }
  }

  /** parseInt("0x" + h) for a run of hexadecimal digits h is the value of h; parseInt("0x") is NaN. */
  lemma {:induction false} ParseIntOfHex(h: string)
    requires AllHexDigits(h)
    ensures ParseInt("0x" + h) == if h == [] then None else Some(HexValue(h) as int)
  {
    var s := "0x" + h;
    assert Unsigned(s) == s;
    assert s[2..] == h;
    LeadingHexDigitsOfHex(h);
  }

  lemma {:induction false} LeadingHexDigitsOfHex(s: string)
    requires AllHexDigits(s)
    ensures LeadingHexDigits(s) == s
    decreases |s|
  {
    if s != [] {
      LeadingHexDigitsOfHex(s[1..]);
      assert [s[0]] + s[1..] == s;
    }
  }

  lemma {:induction false} LeadingDigitsOfDigits(s: string)
    requires AllDigits(s)
    ensures LeadingDigits(s) == s
    decreases |s|
  {
    if s != [] {
      LeadingDigitsOfDigits(s[1..]);
      assert [s[0]] + s[1..] == s;
    }
  }

  lemma {:induction false} DigitsValueOfNatToString(n: nat)
    ensures DigitsValue(NatToString(n)) == n
    decreases n
  {
    if n >= 10 {
      var p := NatToString(n / 10);
      var s := p + [DigitChar(n % 10)];
      assert s[..|s| - 1] == p;
      DigitsValueOfNatToString(n / 10);
    }
  }

  lemma {:induction false} DigitsValueOfZeros(z: string)
    requires forall i :: 0 <= i < |z| ==> z[i] == '0'
    ensures AllDigits(z) && DigitsValue(z) == 0
    decreases |z|
  {
    if z != [] {
      DigitsValueOfZeros(z[..|z| - 1]);
    }
  }

  /** Leading zeros do not change the value of a digit string. */
  lemma {:induction false} DigitsValueLeadingZeros(z: string, t: string)
    requires forall i :: 0 <= i < |z| ==> z[i] == '0'
    requires AllDigits(t)
    ensures AllDigits(z + t) && DigitsValue(z + t) == DigitsValue(t)
    decreases |t|
  {
    DigitsValueOfZeros(z);
    assert AllDigits(z + t) by {
      forall i | 0 <= i < |z + t| ensures IsDigit((z + t)[i]) {
        if i < |z| { assert (z + t)[i] == z[i]; } else { assert (z + t)[i] == t[i - |z|]; }
      }
    }
    if t == [] {
      assert z + t == z;
    } else {
      var t' := t[..|t| - 1];
      assert (z + t)[..|z + t| - 1] == z + t';
      DigitsValueLeadingZeros(z, t');
    }
  }

  /** parseInt reads back what toString writes. */
  lemma {:induction false} ParseIntOfIntToString(i: int)
    ensures ParseInt(IntToString(i)) == Some(i)
  {
    var n: nat := if i < 0 then -i else i;
    var digits := NatToString(n);
    LeadingDigitsOfDigits(digits);
    DigitsValueOfNatToString(n);
    DigitsNotHexPrefixed(digits);
    if i < 0 {
      assert ("-" + digits)[1..] == digits;
    }
  }

  /** parseInt of a non-empty digit string is its value. */
  lemma {:induction false} ParseIntOfDigits(s: string)
    requires |s| > 0 && AllDigits(s)
    ensures ParseInt(s) == Some(DigitsValue(s) as int)
  {
    assert IsDigit(s[0]);
    LeadingDigitsOfDigits(s);
    DigitsNotHexPrefixed(s);
  }

  /** parseInt reads back a zero-padded decimal number. */
  lemma {:induction false} ParseIntOfPadded(n: nat, width: nat)
    ensures ParseInt(PadStart(NatToString(n), width, '0')) == Some(n)
  {
    var digits := NatToString(n);
    var z: string := if |digits| >= width then [] else seq(width - |digits|, _ => '0');
    assert PadStart(digits, width, '0') == z + digits;
    DigitsValueLeadingZeros(z, digits);
    DigitsValueOfNatToString(n);
    ParseIntOfDigits(z + digits);
  }
}
