/**
 * Python's int(text) on a string in base 10, as check_ram_usage uses it to
 * read the --runs option, and str(n), its inverse on integers.
 */
module PyInt {
  import opened Wrappers

  /** The ASCII whitespace int() strips: space, tab, line feed, vertical tab, form feed, carriage return. */
  predicate IsSpace(c: char) {
    c == ' ' || '\t' <= c <= '\r'
  }

  predicate IsDigit(c: char) {
    '0' <= c <= '9'
  }

  function DigitValue(c: char): (d: nat)
    ensures d < 10
  {
    if IsDigit(c) then c as int - '0' as int else 0
  }

  function DigitChar(d: nat): (c: char)
    requires d < 10
    ensures IsDigit(c) && DigitValue(c) == d
  {
    ('0' as int + d) as char
  }

  function LStrip(s: string): (r: string)
    ensures |r| <= |s|
    ensures s[|s| - |r|..] == r
    ensures forall i :: 0 <= i < |s| - |r| ==> IsSpace(s[i])
    ensures r == [] || !IsSpace(r[0])
  {
    if s != [] && IsSpace(s[0]) then LStrip(s[1..]) else s
  }

  function RStrip(s: string): (r: string)
    ensures |r| <= |s|
    ensures s[..|r|] == r
    ensures forall i :: |r| <= i < |s| ==> IsSpace(s[i])
    ensures r == [] || !IsSpace(r[|r| - 1])
  {
    if s != [] && IsSpace(s[|s| - 1]) then RStrip(s[..|s| - 1]) else s
  }

  function Strip(s: string): string {
    RStrip(LStrip(s))
  }

  /** A run of decimal digits in which single underscores may separate digits (1_000). */
  predicate WellFormedDigits(s: string) {
    && |s| > 0
    && IsDigit(s[0])
    && IsDigit(s[|s| - 1])
    && (forall i :: 0 <= i < |s| ==> IsDigit(s[i]) || s[i] == '_')
    && (forall i :: 0 <= i < |s| - 1 ==> s[i] == '_' ==> s[i + 1] != '_')
  }

  /** The number the digits of s spell, underscores skipped. */
  function DigitsValue(s: string): nat {
    if s == [] then 0
    else if s[|s| - 1] == '_' then DigitsValue(s[..|s| - 1])
    else DigitsValue(s[..|s| - 1]) * 10 + DigitValue(s[|s| - 1])
  }

  /** An integer literal as int() accepts it: an optional sign, then well-formed digits. */
  predicate IntLiteral(t: string) {
    WellFormedDigits(t) || (|t| > 0 && (t[0] == '+' || t[0] == '-') && WellFormedDigits(t[1..]))
  }

  /**
   * int(text): None where Python raises ValueError. Surrounding whitespace is
   * ignored, the sign decides the sign of the result and underscores between
   * digits are skipped.
   */
  function ParseInt(text: string): (r: Option<int>)
    ensures r.Some? <==> IntLiteral(Strip(text))
    ensures r.Some? && Strip(text)[0] == '-' ==> r.value + DigitsValue(Strip(text)[1..]) == 0
    ensures r.Some? && Strip(text)[0] == '+' ==> r.value == DigitsValue(Strip(text)[1..])
    ensures r.Some? && IsDigit(Strip(text)[0]) ==> r.value == DigitsValue(Strip(text))
  {
    var t := Strip(text);
    if |t| > 0 && (t[0] == '+' || t[0] == '-') then
      var magnitude: int := DigitsValue(t[1..]);
      if WellFormedDigits(t[1..]) then Some(if t[0] == '-' then -magnitude else magnitude)
      else None
    else if WellFormedDigits(t) then Some(DigitsValue(t))
    else None
  }

  function NatToDigits(n: nat): (r: string)
    ensures |r| > 0
    ensures forall i :: 0 <= i < |r| ==> IsDigit(r[i])
  {
    if n < 10 then [DigitChar(n)] else NatToDigits(n / 10) + [DigitChar(n % 10)]
  }

  /** str(n) */
  function IntToString(n: int): string {
    if n < 0 then "-" + NatToDigits(-n) else NatToDigits(n)
  }

  lemma {:induction false} NatToDigitsValue(n: nat)
    ensures WellFormedDigits(NatToDigits(n))
    ensures DigitsValue(NatToDigits(n)) == n
  {
    var s := NatToDigits(n);
    if n >= 10 {
      NatToDigitsValue(n / 10);
      assert s[..|s| - 1] == NatToDigits(n / 10);
    }
  }

  lemma {:induction false} StripUnpadded(s: string)
    requires s != [] && !IsSpace(s[0]) && !IsSpace(s[|s| - 1])
    ensures Strip(s) == s
  {
  }

  /** int(str(n)) == n for every integer n. */
  lemma {:induction false} ParseIntOfString(n: int)
    ensures ParseInt(IntToString(n)) == Some(n)
  {
    var s := IntToString(n);
    var m: nat := if n < 0 then -n else n;
    NatToDigitsValue(m);
    StripUnpadded(s);
    if n < 0 {
      assert s[1..] == NatToDigits(m);
    }
  }
}
