/** Decimal text of session ids.

    A fresh session id is turned into text by streaming the unsigned counter
    through a string stream, and session-id text is turned back into a number
    with the C library's `atoi`.  This module defines both directions and
    proves that they are inverse to each other.
 */
module Decimal {

  predicate IsDigit(c: char) {
    '0' <= c <= '9'
  }

  predicate AllDigits(s: string) {
    forall i :: 0 <= i < |s| ==> IsDigit(s[i])
  }

  /** The text a stream writes for a number: digits only, no leading zero. */
  predicate IsCanonical(s: string) {
    && |s| >= 1
    && AllDigits(s)
    && (s[0] == '0' ==> s == "0")
  }

  /** White space as C's `isspace` sees it in the "C" locale. */
  predicate IsSpace(c: char) {
    c == ' ' || c == '\t' || c == '\n' || c == '\r' || c == '\U{B}' || c == '\U{C}'
  }

  function DigitChar(d: nat): (c: char)
    requires d < 10
    ensures IsDigit(c)
  {
    (('0' as int) + d) as char
  }

  function DigitValue(c: char): (d: nat)
    requires IsDigit(c)
    ensures d < 10
    ensures DigitChar(d) == c
  {
    (c as int) - ('0' as int)
  }

  /** Decimal rendering of `n`, as `ss << n; ss >> sessionId` produces it. */
  function Render(n: nat): (s: string)
    ensures IsCanonical(s)
    decreases n
  {
    if n < 10 then [DigitChar(n)] else Render(n / 10) + [DigitChar(n % 10)]
  }

  /** The value of a run of decimal digits, most significant digit first. */
  function DigitsValue(s: string): nat
    requires AllDigits(s)
  {
    if s == [] then 0 else DigitsValue(s[..|s| - 1]) * 10 + DigitValue(s[|s| - 1])
  }

  /** The longest prefix of `s` made of digits. */
  function LeadingDigits(s: string): (p: string)
    ensures AllDigits(p)
    ensures p <= s
    ensures |p| < |s| ==> !IsDigit(s[|p|])
  {
    if s == [] || !IsDigit(s[0]) then [] else [s[0]] + LeadingDigits(s[1..])
  }

  /** `s` with its leading white space removed. */
  function SkipSpaces(s: string): (t: string)
    ensures |t| <= |s| && t == s[|s| - |t|..]
    ensures |t| > 0 ==> !IsSpace(t[0])
  {
    if s != [] && IsSpace(s[0]) then SkipSpaces(s[1..]) else s
  }

  /** C's `atoi`: optional leading white space, an optional sign, then the
      longest run of digits; text without digits reads as 0.  The C
      function's behaviour on values outside `int` is undefined; here the
      value is unbounded. */
  function Atoi(s: string): int {
    var t := SkipSpaces(s);
    if |t| > 0 && t[0] == '-' then -(DigitsValue(LeadingDigits(t[1..])) as int)
    else if |t| > 0 && t[0] == '+' then DigitsValue(LeadingDigits(t[1..]))
    else DigitsValue(LeadingDigits(t))
  }

  lemma {:induction false} DigitsValueOfRender(n: nat)
    ensures DigitsValue(Render(n)) == n
    decreases n
  {
    if n >= 10 {
      var s := Render(n);
      assert s[..|s| - 1] == Render(n / 10);
      DigitsValueOfRender(n / 10);
    }
  }

  lemma {:induction false} LeadingDigitsOfDigits(s: string)
    requires AllDigits(s)
    ensures LeadingDigits(s) == s
    decreases |s|
  {
    if s != [] {
      LeadingDigitsOfDigits(s[1..]);
    }
  }

  /** Parsing the rendering of a number gives the number back. */
  lemma AtoiOfRender(n: nat)
    ensures Atoi(Render(n)) == n
  {
    var s := Render(n);
    assert !IsSpace(s[0]);
    assert SkipSpaces(s) == s;
    LeadingDigitsOfDigits(s);
    DigitsValueOfRender(n);
  }

  /** Distinct numbers render to distinct session ids. */
  lemma RenderInjective(m: nat, n: nat)
    ensures Render(m) == Render(n) <==> m == n
  {
    if Render(m) == Render(n) {
      AtoiOfRender(m);
      AtoiOfRender(n);
    }
  }

  lemma {:induction false} PositiveWhenLeadingNonZero(s: string)
    requires AllDigits(s) && |s| >= 1 && s[0] != '0'
    ensures DigitsValue(s) >= 1
    decreases |s|
  {
    if |s| > 1 {
      PositiveWhenLeadingNonZero(s[..|s| - 1]);
    }
  }

  /** The other direction: canonical digit text is the rendering of its value. */
  lemma {:induction false} RenderOfDigitsValue(s: string)
    requires IsCanonical(s)
    ensures Render(DigitsValue(s)) == s
    decreases |s|
  {
    if |s| > 1 {
      var front := s[..|s| - 1];
      var last := DigitValue(s[|s| - 1]);
      PositiveWhenLeadingNonZero(front);
      RenderOfDigitsValue(front);
      var v := DigitsValue(s);
      assert v == DigitsValue(front) * 10 + last;
      assert v / 10 == DigitsValue(front) && v % 10 == last;
      assert s == front + [s[|s| - 1]];
    }
  }

  /** Hence rendering and `atoi` are inverse bijections between numbers and
      canonical digit strings. */
  lemma RenderOfAtoi(s: string)
    requires IsCanonical(s)
    ensures Atoi(s) >= 0 && Render(Atoi(s)) == s
  {
    assert !IsSpace(s[0]);
    assert SkipSpaces(s) == s;
    LeadingDigitsOfDigits(s);
    RenderOfDigitsValue(s);
  }
}
