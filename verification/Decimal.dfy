/** Decimal text of integers, as `str` prints it and a strict reader accepts it. */
module Decimal {
  type Digit = d: nat | d < 10

  function DigitChar(d: Digit): (c: char)
    ensures '0' <= c <= '9'
  {
    ('0' as int + d) as char
  }

  predicate IsDigit(c: char) {
    '0' <= c <= '9'
  }

  function CharDigit(c: char): Digit
    requires IsDigit(c)
  {
    c as int - '0' as int
  }

  /** `str(n)` for a natural number. */
  function NatText(n: nat): (s: string)
    ensures s != [] && forall i :: 0 <= i < |s| ==> IsDigit(s[i])
    ensures s[0] == '0' <==> n == 0
    ensures s[0] == '0' ==> |s| == 1
  {
    if n < 10 then [DigitChar(n)] else NatText(n / 10) + [DigitChar(n % 10)]
  }

  /** `0|[1-9][0-9]*` */
  predicate IsNatText(s: string) {
    s != [] && (forall i :: 0 <= i < |s| ==> IsDigit(s[i])) && (s[0] == '0' ==> |s| == 1)
  }

  /** `int(s)` on digits. */
  function NatValue(s: string): nat
    requires forall i :: 0 <= i < |s| ==> IsDigit(s[i])
  {
    if s == [] then 0 else NatValue(s[..|s| - 1]) * 10 + CharDigit(s[|s| - 1])
  }

  lemma {:induction false} NatRoundTrip(n: nat)
    ensures IsNatText(NatText(n)) && NatValue(NatText(n)) == n
  {
    if n >= 10 {
      NatRoundTrip(n / 10);
      var t := NatText(n / 10);
      assert NatText(n)[..|t|] == t;
    } else {
      assert NatText(n)[..0] == [];
    }
  }

  /** Reading canonical digits and printing the number gives the same digits. */
  lemma {:induction false} NatTextOfValue(s: string)
    requires IsNatText(s)
    ensures NatText(NatValue(s)) == s
    decreases |s|
  {
    var k := |s| - 1;
    var d := CharDigit(s[k]);
    if k == 0 {
      assert s[..0] == [];
      assert NatValue(s) == d;
    } else {
      var t := s[..k];
      NatTextOfValue(t);
      var v := NatValue(t);
      NatRoundTrip(v);
      assert v != 0;
      assert NatValue(s) == v * 10 + d;
      assert (v * 10 + d) / 10 == v && (v * 10 + d) % 10 == d;
      assert s == t + [s[k]];
    }
  }

  function IntText(i: int): string {
    if i < 0 then "-" + NatText(-i) else NatText(i)
  }

  lemma {:induction false} IntTextInjective(i: int, j: int)
    requires IntText(i) == IntText(j)
    ensures i == j
  {
    NatRoundTrip(if i < 0 then -i else i);
    NatRoundTrip(if j < 0 then -j else j);
    assert i < 0 ==> IntText(i)[1..] == NatText(-i);
    assert j < 0 ==> IntText(j)[1..] == NatText(-j);
    assert i < 0 <==> IntText(i)[0] == '-';
    assert j < 0 <==> IntText(j)[0] == '-';
  }
}
