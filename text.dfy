/**
 * String helpers shared by the generator, the analyzer and the ingestion code:
 * decimal rendering (Python's `str` on integers), `str.zfill`, `str.lstrip` of
 * one character, and splitting on a separator.
 */
module Text {

  predicate IsDigit(c: char) {
    '0' <= c <= '9'
  }

  predicate AllDigits(s: string) {
    forall i :: 0 <= i < |s| ==> IsDigit(s[i])
  }

  function DigitChar(d: nat): (c: char)
    requires d < 10
    ensures IsDigit(c)
  {
    "0123456789"[d]
  }

  function DigitValue(c: char): (d: nat)
    requires IsDigit(c)
    ensures d < 10
  {
    (c - '0') as nat
  }

  /** `str(n)` for a non-negative integer: the shortest decimal rendering. */
  function NatToDecimal(n: nat): (s: string)
    ensures 1 <= |s| && AllDigits(s)
    ensures n > 0 ==> s[0] != '0'
    decreases n
  {
    if n < 10 then [DigitChar(n)] else NatToDecimal(n / 10) + [DigitChar(n % 10)]
  }

  /** `str(i)` for any integer: a minus sign before the magnitude when negative. */
  function IntToString(i: int): (s: string)
    ensures i >= 0 ==> AllDigits(s) && DecimalValue(s) == i
    ensures i < 0 ==> |s| >= 2 && s[0] == '-' && AllDigits(s[1..]) && DecimalValue(s[1..]) == -i
    ensures i != 0 ==> s[if i < 0 then 1 else 0] != '0'
  {
    if i < 0 then
      var m := NatToDecimal(-i);
      DecimalRoundTrip(-i);
      MinusSign(m, -i);
      "-" + m
    else
      DecimalRoundTrip(i);
      NatToDecimal(i)
  }

  lemma MinusSign(m: string, n: nat)
    requires AllDigits(m) && DecimalValue(m) == n
    ensures ("-" + m)[0] == '-' && ("-" + m)[1..] == m
    ensures AllDigits(("-" + m)[1..]) && DecimalValue(("-" + m)[1..]) == n
  {
    assert ("-" + m)[1..] == m;
  }

  /** The number a string of decimal digits denotes (leading zeros allowed). */
  function DecimalValue(s: string): nat
    requires AllDigits(s)
  {
    if s == [] then 0 else DecimalValue(s[..|s| - 1]) * 10 + DigitValue(s[|s| - 1])
  }

  lemma {:induction false} DecimalRoundTrip(n: nat)
    ensures DecimalValue(NatToDecimal(n)) == n
    decreases n
  {
    var s := NatToDecimal(n);
    if n >= 10 {
      DecimalRoundTrip(n / 10);
      assert s[..|s| - 1] == NatToDecimal(n / 10);
    }
  }

  function Zeros(k: nat): (z: string)
    ensures |z| == k && AllDigits(z)
    ensures forall i :: 0 <= i < k ==> z[i] == '0'
  {
    seq(k, _ => '0')
  }

  lemma {:induction false} LeadingZerosKeepValue(k: nat, s: string)
    requires AllDigits(s)
    ensures DecimalValue(Zeros(k) + s) == DecimalValue(s)
    decreases |s|
  {
    if s == [] {
      assert Zeros(k) + s == Zeros(k);
      ZerosHaveNoValue(k);
    } else {
      var p := s[..|s| - 1];
      LeadingZerosKeepValue(k, p);
      assert (Zeros(k) + s)[..|Zeros(k) + s| - 1] == Zeros(k) + p;
    }
  }

  lemma {:induction false} ZerosHaveNoValue(k: nat)
    ensures DecimalValue(Zeros(k)) == 0
    decreases k
  {
    if k > 0 {
      ZerosHaveNoValue(k - 1);
      assert Zeros(k)[..k - 1] == Zeros(k - 1);
    }
  }

  /**
   * Python's `s.zfill(width)` on a string without a sign: zeros are added on
   * the left up to `width` characters; a longer string is returned unchanged.
   */
  function ZFill(s: string, width: nat): (r: string)
    ensures |r| == if |s| < width then width else |s|
    ensures r[|r| - |s|..] == s
    ensures forall i :: 0 <= i < |r| - |s| ==> r[i] == '0'
  {
    if |s| < width then Zeros(width - |s|) + s else s
  }

  lemma ZFillKeepsValue(s: string, width: nat)
    requires AllDigits(s)
    ensures AllDigits(ZFill(s, width))
    ensures DecimalValue(ZFill(s, width)) == DecimalValue(s)
  {
    if |s| < width {
      LeadingZerosKeepValue(width - |s|, s);
    }
  }

  /** Python's `s.lstrip(c)` for a single character `c`. */
  function LStrip(s: string, c: char): (r: string)
    ensures |r| <= |s|
    ensures r == [] || r[0] != c
  {
    if s != [] && s[0] == c then LStrip(s[1..], c) else s
  }

  /** `lstrip` removes a run of `c` from the front and keeps the rest as it is. */
  lemma {:induction false} LStripDropsOnly(s: string, c: char)
    ensures var r := LStrip(s, c);
      && r == s[|s| - |r|..]
      && forall i :: 0 <= i < |s| - |r| ==> s[i] == c
    decreases |s|
  {
    if s != [] && s[0] == c {
      LStripDropsOnly(s[1..], c);
      var r := LStrip(s, c);
      assert s[1..][|s| - 1 - |r|..] == s[|s| - |r|..];
      forall i | 0 <= i < |s| - |r| ensures s[i] == c {
        if i > 0 {
          assert s[i] == s[1..][i - 1];
        }
      }
    }
  }

  /** Position of the first `c` in `s`, or `|s|` when there is none. */
  function FirstIndexOf(s: string, c: char): (k: nat)
    ensures k <= |s|
    ensures forall i :: 0 <= i < k ==> s[i] != c
    ensures k < |s| ==> s[k] == c
  {
    if s == [] then 0 else if s[0] == c then 0 else 1 + FirstIndexOf(s[1..], c)
  }

  /** Python's `s.split(c)`: the pieces between the occurrences of `c`. */
  function Split(s: string, c: char): (parts: seq<string>)
    ensures |parts| >= 1
    ensures forall k :: 0 <= k < |parts| ==> c !in parts[k]
    decreases |s|
  {
    var k := FirstIndexOf(s, c);
    if k == |s| then [s] else [s[..k]] + Split(s[k + 1..], c)
  }

  lemma SplitJoined(a: string, b: string, c: char)
    requires c !in a
    ensures Split(a + [c] + b, c) == [a] + Split(b, c)
  {
    var s := a + [c] + b;
    var k := FirstIndexOf(s, c);
    assert forall i :: 0 <= i < |a| ==> s[i] == a[i];
    assert s[|a|] == c;
    assert s[..k] == a;
    assert s[k + 1..] == b;
  }

  lemma SplitPlain(a: string, c: char)
    requires c !in a
    ensures Split(a, c) == [a]
  {
  }
}
