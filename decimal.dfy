/**
 * The decimal text JavaScript gives an integer in a template literal or in
 * `Array.prototype.join`, and its inverse for digit strings.
 */
module Decimal {

  predicate IsDigit(c: char) {
    '0' <= c <= '9'
  }

  predicate AllDigits(s: string) {
    forall i :: 0 <= i < |s| ==> IsDigit(s[i])
  }

  function DigitChar(d: nat): (c: char)
    requires d < 10
    ensures IsDigit(c)
  {
    ('0' as int + d) as char
  }

  function DigitValue(c: char): (d: nat)
    requires IsDigit(c)
    ensures d < 10
  {
    c as int - '0' as int
  }

  /** The canonical decimal digits of n: never empty, no leading zero. */
  function NatToString(n: nat): (s: string)
    ensures |s| > 0 && AllDigits(s)
    ensures s[0] == '0' ==> n == 0
    decreases n
  {
    if n < 10 then [DigitChar(n)] else NatToString(n / 10) + [DigitChar(n % 10)]
  }

  /** The number a digit string denotes. */
  function ValueOf(s: string): nat
    requires AllDigits(s)
  {
    if |s| == 0 then 0 else 10 * ValueOf(s[..|s| - 1]) + DigitValue(s[|s| - 1])
  }

  /** Reading back the digits of n gives n. */
  lemma {:induction false} ValueOfNatToString(n: nat)
    ensures ValueOf(NatToString(n)) == n
    decreases n
  {
    var s := NatToString(n);
    if n >= 10 {
      assert s[..|s| - 1] == NatToString(n / 10);
      ValueOfNatToString(n / 10);
    }
  }

  /** The decimal text of an integer: a minus sign when it is negative, then the digits of its magnitude. */
  function IntToString(i: int): (s: string)
    ensures |s| > 0 && ',' !in s
    ensures s[0] == '-' <==> i < 0
    ensures i >= 0 ==> AllDigits(s) && ValueOf(s) == i
    ensures i < 0 ==> AllDigits(s[1..]) && ValueOf(s[1..]) == -i
  {
    if i < 0 then
      ValueOfNatToString(-i);
      assert ("-" + NatToString(-i))[1..] == NatToString(-i);
      "-" + NatToString(-i)
    else
      ValueOfNatToString(i);
      NatToString(i)
  }

  /** `xs.join(",")`: the decimal texts of xs separated by commas; "" for no elements. */
  function JoinComma(xs: seq<int>): string
    decreases |xs|
  {
    if |xs| == 0 then ""
    else if |xs| == 1 then IntToString(xs[0])
    else JoinComma(xs[..|xs| - 1]) + "," + IntToString(xs[|xs| - 1])
  }

  /** A pair `[w, h]` joins as `w,h`. */
  lemma JoinCommaPair(w: int, h: int)
    ensures JoinComma([w, h]) == IntToString(w) + "," + IntToString(h)
  {
    assert [w, h][..1] == [w];
  }

  /** Joining n > 0 integers gives a non-empty text with exactly n - 1 commas. */
  lemma {:induction false} JoinCommaSeparators(xs: seq<int>)
    requires |xs| > 0
    ensures JoinComma(xs) != ""
    ensures multiset(JoinComma(xs))[','] == |xs| - 1
    decreases |xs|
  {
    var last := IntToString(xs[|xs| - 1]);
    assert multiset(last)[','] == 0;
    if |xs| > 1 {
      JoinCommaSeparators(xs[..|xs| - 1]);
    }
  }
}
