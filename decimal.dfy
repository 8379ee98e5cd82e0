/**
 * Decimal text of integers, as JavaScript's string concatenation `n + '-'`
 * produces it for an integer-valued number: an optional minus sign followed by
 * the digits of the magnitude, most significant first, with no leading zero.
 * `ReadInt` is the matching reader used to state the round trip.
 */
module Decimal {

  datatype Option<+T> = None | Some(value: T)

  predicate IsDigit(c: char) {
    '0' <= c <= '9'
  }

  predicate AllDigits(s: string) {
    forall i :: 0 <= i < |s| ==> IsDigit(s[i])
  }

  function DigitValue(c: char): (d: nat)
    requires IsDigit(c)
    ensures d < 10
  {
    (c as int) - ('0' as int)
  }

  function DigitChar(d: nat): (c: char)
    requires d < 10
    ensures IsDigit(c) && DigitValue(c) == d
  {
    ((('0' as int) + d) as char)
  }

  /** The number a string of digits denotes, most significant digit first. */
  function DigitsValue(s: string): nat
    requires AllDigits(s)
  {
    if s == [] then 0 else DigitsValue(s[..|s| - 1]) * 10 + DigitValue(s[|s| - 1])
  }

  /** Decimal digits of a natural number: never empty, and canonical (a leading '0' only for zero). */
  function NatToString(n: nat): (s: string)
    ensures |s| >= 1 && AllDigits(s)
    ensures (s[0] == '0') == (n == 0)
    decreases n
  {
    if n < 10 then [DigitChar(n)] else NatToString(n / 10) + [DigitChar(n % 10)]
  }

  lemma {:induction false} NatToStringValue(n: nat)
    ensures DigitsValue(NatToString(n)) == n
    decreases n
  {
    if n >= 10 {
      NatToStringValue(n / 10);
      var s := NatToString(n);
      assert s[..|s| - 1] == NatToString(n / 10);
    }
  }

  /** Decimal text of an integer: a '-' exactly for negative numbers, then the digits of the magnitude. */
  function IntToString(n: int): (s: string)
    ensures |s| >= 1
    ensures (s[0] == '-') == (n < 0)
    ensures n < 0 ==> |s| >= 2 && AllDigits(s[1..])
    ensures n >= 0 ==> AllDigits(s)
  {
    if n < 0 then "-" + NatToString(-n) else NatToString(n)
  }

  /** Length of the longest run of digits at the start of `s`. */
  function DigitRun(s: string): (k: nat)
    ensures k <= |s| && AllDigits(s[..k])
    ensures k < |s| ==> !IsDigit(s[k])
  {
    if s == [] || !IsDigit(s[0]) then 0 else 1 + DigitRun(s[1..])
  }

  /**
   * Reads an optional '-' and a maximal non-empty run of digits from the front of
   * `s`; returns the integer read and the text that follows it.
   */
  function ReadInt(s: string): Option<(int, string)> {
    var neg := |s| > 0 && s[0] == '-';
    var body := if neg then s[1..] else s;
    var k := DigitRun(body);
    if k == 0 then None
    else
      var v: int := DigitsValue(body[..k]);
      Some((if neg then -v else v, body[k..]))
  }

  /** A digit run followed by a non-digit (or by nothing) is read exactly up to its end. */
  lemma DigitRunOfDigits(d: string, t: string)
    requires AllDigits(d)
    requires t == [] || !IsDigit(t[0])
    ensures DigitRun(d + t) == |d|
  {
    var s := d + t;
    var k := DigitRun(s);
    assert forall i :: 0 <= i < |d| ==> s[i] == d[i];
    if |t| > 0 {
      assert s[|d|] == t[0];
    }
  }

  /** Cutting a concatenation at the seam gives back its two parts. */
  lemma AppendParts(a: string, b: string)
    ensures (a + b)[..|a|] == a && (a + b)[|a|..] == b
  {
  }

  lemma AppendAssoc(a: string, b: string, c: string)
    ensures (a + b) + c == a + (b + c)
  {
  }

  /** Reading back the text of any integer, followed by a non-digit, yields that integer and the rest. */
  lemma ReadIntString(n: int, t: string)
    requires t == [] || !IsDigit(t[0])
    ensures ReadInt(IntToString(n) + t) == Some((n, t))
  {
    var m: nat := if n < 0 then -n else n;
    var d := NatToString(m);
    DigitRunOfDigits(d, t);
    AppendParts(d, t);
    NatToStringValue(m);
    if n < 0 {
      AppendAssoc("-", d, t);
      AppendParts("-", d + t);
      assert ("-" + (d + t))[0] == '-';
    } else {
      assert (d + t)[0] == d[0];
    }
  }

  /** Distinct integers have distinct decimal texts. */
  lemma IntToStringInjective(a: int, b: int)
    requires IntToString(a) == IntToString(b)
    ensures a == b
  {
    ReadIntString(a, "");
    ReadIntString(b, "");
    assert IntToString(a) + "" == IntToString(a);
    assert IntToString(b) + "" == IntToString(b);
  }
}
