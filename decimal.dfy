/**
 * ASCII decimal text: the model's stand-in for Python's `int(...)` on the age
 * field, `str.isdigit()` on the phone field, and the rendering of numbers in
 * the journey report.
 */
module Decimal {
  import opened Wrappers

  /** An ASCII decimal digit. */
  predicate IsDigit(c: char) {
    '0' <= c <= '9'
  }

  /** `str.isdigit()`: at least one character, and every character a digit. */
  predicate IsDigits(s: string) {
    |s| > 0 && forall i :: 0 <= i < |s| ==> IsDigit(s[i])
  }

  function DigitValue(c: char): (d: nat)
    requires IsDigit(c)
    ensures d < 10
  {
    c as int - '0' as int
  }

  function DigitChar(d: nat): (c: char)
    requires d < 10
    ensures IsDigit(c) && DigitValue(c) == d
  {
    ('0' as int + d) as char
  }

  /** The number a string of digits denotes, most significant digit first. */
  function ValueOf(s: string): nat
    requires forall i :: 0 <= i < |s| ==> IsDigit(s[i])
  {
    if s == [] then 0 else ValueOf(s[..|s| - 1]) * 10 + DigitValue(s[|s| - 1])
  }

  /** The decimal rendering of a natural number, without leading zeros. */
  function ShowNat(n: nat): (s: string)
    ensures IsDigits(s)
    ensures s[0] == '0' ==> n == 0
  {
    if n < 10 then [DigitChar(n)] else ShowNat(n / 10) + [DigitChar(n % 10)]
  }

  /** The decimal rendering of an integer, with a leading '-' when negative. */
  function ShowInt(i: int): (s: string)
    ensures |s| > 0
  {
    if i < 0 then "-" + ShowNat(-i) else ShowNat(i)
  }

  /**
   * `int(s)` restricted to ASCII: an optional '+' or '-' followed by one or
   * more digits denotes a number; anything else is the `ValueError` branch.
   */
  function ParseInt(s: string): (r: Option<int>)
    ensures r.Some? <==> IsDigits(s) || (|s| > 1 && (s[0] == '-' || s[0] == '+') && IsDigits(s[1..]))
    ensures r.Some? && s[0] == '-' ==> r.value <= 0
    ensures r.Some? && s[0] != '-' ==> r.value >= 0
  {
    if |s| > 1 && s[0] == '-' && IsDigits(s[1..]) then Some(-(ValueOf(s[1..]) as int))
    else if |s| > 1 && s[0] == '+' && IsDigits(s[1..]) then Some(ValueOf(s[1..]))
    else if IsDigits(s) then Some(ValueOf(s))
    else None
  }

  /** Rendering a natural number and reading it back gives the number. */
  lemma {:induction false} ValueOfShowNat(n: nat)
    ensures ValueOf(ShowNat(n)) == n
  {
    var s := ShowNat(n);
    if n < 10 {
      assert s[..|s| - 1] == [];
    } else {
      assert s[..|s| - 1] == ShowNat(n / 10);
      ValueOfShowNat(n / 10);
    }
  }

  /** Every integer survives rendering and parsing: `int(str(i)) == i`. */
  lemma {:induction false} ParseShowInt(i: int)
    ensures ParseInt(ShowInt(i)) == Some(i)
  {
    if i < 0 {
      ParseShowNat(-i);
      ParseIntMinus(ShowNat(-i));
    } else {
      ParseShowNat(i);
    }
  }

  /** The rendering of a natural number, which has no sign, parses as that number. */
  lemma {:induction false} ParseShowNat(n: nat)
    ensures ParseInt(ShowNat(n)) == Some(n)
  {
    var s := ShowNat(n);
    assert s[0] != '-' && s[0] != '+';
    ValueOfShowNat(n);
  }

  /** A leading zero does not change the number a string of digits denotes. */
  lemma {:induction false} ValueOfLeadingZero(s: string)
    requires forall i :: 0 <= i < |s| ==> IsDigit(s[i])
    ensures forall i :: 0 <= i < |"0" + s| ==> IsDigit(("0" + s)[i])
    ensures ValueOf("0" + s) == ValueOf(s)
  {
    var z := "0" + s;
    assert forall i :: 0 <= i < |z| ==> IsDigit(z[i]);
    if s != [] {
      assert z[..|z| - 1] == "0" + s[..|s| - 1];
      assert z[|z| - 1] == s[|s| - 1];
      ValueOfLeadingZero(s[..|s| - 1]);
    } else {
      assert z[..|z| - 1] == [];
    }
  }

  /** `int()` ignores leading zeros: "018" reads as 18. */
  lemma ParseIntLeadingZero(s: string)
    requires IsDigits(s)
    ensures ParseInt("0" + s) == ParseInt(s)
  {
    ValueOfLeadingZero(s);
  }

  /** `int()` ignores a leading '+': "+18" reads as 18. */
  lemma ParseIntPlus(s: string)
    requires IsDigits(s)
    ensures ParseInt("+" + s) == ParseInt(s)
  {
    assert ("+" + s)[1..] == s;
  }

  /** A leading '-' negates: "-18" reads as the negation of "18", so "-0" reads as 0. */
  lemma ParseIntMinus(s: string)
    requires IsDigits(s)
    ensures ParseInt(s).Some?
    ensures ParseInt("-" + s) == Some(-ParseInt(s).value)
  {
    assert ("-" + s)[1..] == s;
  }

  /** Leading zeros after a '-' are ignored too: "-018" reads as -18. */
  lemma ParseIntMinusLeadingZero(s: string)
    requires IsDigits(s)
    ensures ParseInt("-0" + s) == ParseInt("-" + s)
  {
    assert ("-0" + s)[1..] == "0" + s;
    assert ("-" + s)[1..] == s;
    ValueOfLeadingZero(s);
  }

  /** A string with a character that is neither a digit nor a leading sign is not a number. */
  lemma {:induction false} ParseIntRejectsNonDigit(s: string, k: nat)
    requires k < |s| && !IsDigit(s[k])
    requires k > 0 || (s[0] != '-' && s[0] != '+')
    ensures ParseInt(s) == None
  {
    if k > 0 {
      assert s[1..][k - 1] == s[k];
    }
  }
}
