/**
 * Python's `int(text)` on a str in base 10: surrounding white space is
 * ignored (ASCII tab to carriage return and space, or any non-ASCII
 * `str.isspace` character), an optional sign may lead, and the digits may be
 * grouped by single underscores ("1_000"). Anything else raises ValueError,
 * modelled as None.
 */
module PyInt {
  import opened Wrappers
  import opened Text

  predicate IsDigit(c: char) {
    '0' <= c <= '9'
  }

  /** One or more digits, with single underscores allowed only between two digits. */
  predicate WellFormedDigits(t: string) {
    && |t| > 0 && IsDigit(t[0]) && IsDigit(t[|t| - 1])
    && (forall i :: 0 <= i < |t| ==> IsDigit(t[i]) || t[i] == '_')
    && (forall i :: 0 <= i < |t| - 1 && t[i] == '_' ==> IsDigit(t[i + 1]))
  }

  /** The value of a run of digits, skipping the underscores. */
  function DigitsValue(t: string): nat
    decreases |t|
  {
    if |t| == 0 then 0
    else if IsDigit(t[|t| - 1]) then DigitsValue(t[..|t| - 1]) * 10 + (t[|t| - 1] - '0') as int
    else DigitsValue(t[..|t| - 1])
  }

  function ParseInt(s: string): Option<int> {
    ParseSigned(StripWith(s, IntSpaces))
  }

  /** `int()` on a text whose surrounding white space is already gone. */
  function ParseSigned(t: string): Option<int> {
    if |t| > 0 && (t[0] == '+' || t[0] == '-') then
      if WellFormedDigits(t[1..]) then
        var v: int := DigitsValue(t[1..]);
        Some(if t[0] == '-' then -v else v)
      else None
    else if WellFormedDigits(t) then Some(DigitsValue(t))
    else None
  }

  /** A text without any digit, such as a missing form field (""), is not a number. */
  lemma ParseIntNeedsDigit(s: string)
    requires forall i :: 0 <= i < |s| ==> !IsDigit(s[i])
    ensures ParseInt(s) == None
  {
    var t := StripWith(s, IntSpaces);
    var lo := |s| - |StripLeft(s, IntSpaces)|;
    if |t| > 0 {
      assert !IsDigit(t[0]) by { assert t[0] == s[lo]; }
      assert |t| > 1 ==> !IsDigit(t[1..][0]) by {
        if |t| > 1 { assert t[1..][0] == s[lo + 1]; }
      }
      assert !WellFormedDigits(t);
      assert !WellFormedDigits(t[1..]);
    }
    assert ParseSigned(t) == None;
  }

  function DigitChar(d: nat): (c: char)
    requires d < 10
    ensures IsDigit(c) && (c - '0') as int == d
  {
    '0' + d as char
  }

  /** Python's `str(n)` for a non-negative int. */
  function ShowNat(n: nat): string
    decreases n
  {
    if n < 10 then [DigitChar(n)] else ShowNat(n / 10) + [DigitChar(n % 10)]
  }

  /** Python's `str(n)`. */
  function ShowInt(n: int): string {
    if n < 0 then "-" + ShowNat(-n) else ShowNat(n)
  }

  lemma {:induction false} ShowNatDigits(n: nat)
    ensures WellFormedDigits(ShowNat(n))
    ensures forall i :: 0 <= i < |ShowNat(n)| ==> IsDigit(ShowNat(n)[i])
    ensures DigitsValue(ShowNat(n)) == n
    decreases n
  {
    var s := ShowNat(n);
    if n >= 10 {
      ShowNatDigits(n / 10);
      var p := ShowNat(n / 10);
      assert s == p + [DigitChar(n % 10)];
      assert s[..|s| - 1] == p;
      assert forall i :: 0 <= i < |s| - 1 ==> s[i] == p[i];
    }
  }

  lemma DigitNotSpace(c: char)
    requires IsDigit(c) || c == '-'
    ensures !IsIntSpace(c)
  {
  }

  /** A digit run, bare or after a minus sign, reads as its value once the white space is gone. */
  lemma SignedDigits(t: string)
    requires WellFormedDigits(t)
    ensures ParseSigned(t) == Some(DigitsValue(t) as int)
    ensures ParseSigned("-" + t) == Some(-(DigitsValue(t) as int))
  {
    assert ("-" + t)[1..] == t;
  }

  lemma ParseDigits(t: string)
    requires WellFormedDigits(t)
    ensures ParseInt(t) == Some(DigitsValue(t) as int)
  {
    DigitNotSpace(t[0]);
    DigitNotSpace(t[|t| - 1]);
    StripWithNoSpace(t, IntSpaces);
    SignedDigits(t);
  }

  lemma ParseNegatedDigits(t: string)
    requires WellFormedDigits(t)
    ensures ParseInt("-" + t) == Some(-(DigitsValue(t) as int))
  {
    var s := "-" + t;
    assert s[0] == '-' && s[1..] == t && s[|s| - 1] == t[|t| - 1];
    DigitNotSpace(s[0]);
    DigitNotSpace(s[|s| - 1]);
    StripWithNoSpace(s, IntSpaces);
    SignedDigits(t);
  }

  /** White space in `int()`'s sense around a digit string is ignored. */
  lemma ParsePadded(w1: string, t: string, w2: string)
    requires AllSpace(w1, IntSpaces) && AllSpace(w2, IntSpaces)
    requires WellFormedDigits(t)
    ensures ParseInt(w1 + t + w2) == Some(DigitsValue(t) as int)
  {
    DigitNotSpace(t[0]);
    DigitNotSpace(t[|t| - 1]);
    var s := w1 + t + w2;
    assert s == w1 + (t + w2);
    StripLeftPadded(w1, t + w2, IntSpaces);
    StripRightPadded(t, w2, IntSpaces);
    assert StripWith(s, IntSpaces) == t;
    SignedDigits(t);
  }

  /**
   * A leading information separator (U+001C) is white space to `str.isspace`
   * but not to `int()`, so the text is not a number.
   */
  lemma SeparatorNotSkipped()
    ensures ParseInt("\U{1c}15") == None
  {
    var s := "\U{1c}15";
    assert !IsIntSpace(s[0]) && !IsIntSpace(s[|s| - 1]);
    StripWithNoSpace(s, IntSpaces);
    assert !WellFormedDigits(s);
    assert ParseSigned(s) == None;
  }

  /** Reading back a printed integer gives the integer: `int(str(n)) == n`. */
  lemma ParseShowRoundTrip(n: int)
    ensures ParseInt(ShowInt(n)) == Some(n)
  {
    if n < 0 {
      ShowNatDigits(-n);
      ParseNegatedDigits(ShowNat(-n));
    } else {
      ShowNatDigits(n);
      ParseDigits(ShowNat(n));
    }
  }
}
