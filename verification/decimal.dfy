/**
  Decimal rendering of unsigned integers, as Rust's `format!` prints them:
  `{}` gives the shortest rendering, `{:0w}` left-pads it with '0' up to a
  MINIMUM width `w` and never truncates. `ParseDec` is the reading back of a
  digit string, used to state what a rendering means.
*/
module Decimal {

  predicate IsDigit(c: char) {
    '0' <= c <= '9'
  }

  predicate AllDigits(s: string) {
    forall i :: 0 <= i < |s| ==> IsDigit(s[i])
  }

  function DigitValue(c: char): (d: nat)
    requires IsDigit(c)
  {
    c as int - '0' as int
  }

  function DigitChar(d: nat): (c: char)
    requires d < 10
    ensures IsDigit(c) && DigitValue(c) == d
  {
    ('0' as int + d) as char
  }

  function Pow10(k: nat): (p: nat)
    ensures 1 <= p
  {
    if k == 0 then 1 else 10 * Pow10(k - 1)
  }

  lemma {:induction false} Pow10Monotone(a: nat, b: nat)
    requires a <= b
    ensures Pow10(a) <= Pow10(b)
    decreases b
  {
    if a < b {
      Pow10Monotone(a, b - 1);
    }
  }

  /** A run of `k` '0' characters. */
  function Zeros(k: nat): (s: string)
    ensures |s| == k && AllDigits(s)
  {
    seq(k, _ => '0')
  }

  /** The number a digit string denotes, most significant digit first. */
  function ParseDec(s: string): (n: nat)
    requires AllDigits(s)
  {
    if s == [] then 0 else 10 * ParseDec(s[..|s| - 1]) + DigitValue(s[|s| - 1])
  }

  /**
    The shortest decimal rendering of `n` (Rust `{}`): at least one digit
    and no leading zero. `DecStrReadsBack` states that it denotes `n` with
    as many digits as `n` needs.
  */
  function DecStr(n: nat): (s: string)
    ensures 1 <= |s| && AllDigits(s)
    ensures 1 < |s| ==> s[0] != '0'
    decreases n
  {
    if n < 10 then [DigitChar(n)] else DecStr(n / 10) + [DigitChar(n % 10)]
  }

  /**
    `DecStr(n)` reads back as `n`, and its length is the number of digits
    `n` needs: `10^(len-1) <= n < 10^len` (the lower bound for `n >= 10`).
  */
  lemma {:induction false} DecStrReadsBack(n: nat)
    ensures ParseDec(DecStr(n)) == n
    ensures n < Pow10(|DecStr(n)|)
    ensures 1 < |DecStr(n)| ==> Pow10(|DecStr(n)| - 1) <= n
    decreases n
  {
    var s := DecStr(n);
    if 10 <= n {
      DecStrReadsBack(n / 10);
      assert s[..|s| - 1] == DecStr(n / 10);
    }
  }

  /** A number below `10^w` needs at most `w` digits. */
  lemma DecStrFitsWidth(n: nat, w: nat)
    ensures 1 <= w && n < Pow10(w) ==> |DecStr(n)| <= w
  {
    var k := |DecStr(n)|;
    DecStrReadsBack(n);
    if 1 <= w < k {
      Pow10Monotone(w, k - 1);
    }
  }

  lemma {:induction false} ParseDecZeros(k: nat)
    ensures ParseDec(Zeros(k)) == 0
  {
    if k > 0 {
      assert Zeros(k)[..k - 1] == Zeros(k - 1);
      ParseDecZeros(k - 1);
    }
  }

  /** Leading zeros do not change the number a digit string denotes. */
  lemma {:induction false} ParseDecLeadingZeros(k: nat, d: string)
    requires AllDigits(d)
    ensures AllDigits(Zeros(k) + d)
    ensures ParseDec(Zeros(k) + d) == ParseDec(d)
    decreases |d|
  {
    var s := Zeros(k) + d;
    if d == [] {
      assert s == Zeros(k);
      ParseDecZeros(k);
    } else {
      assert s[..|s| - 1] == Zeros(k) + d[..|d| - 1];
      ParseDecLeadingZeros(k, d[..|d| - 1]);
    }
  }

  /**
    Rust `{:0w}` on an unsigned integer: the rendering of `n` left-padded
    with '0' to at least `width` characters. It is never shorter than
    `width`, is longer only when `n` itself needs more digits (and then is
    unpadded), carries a leading zero only as padding, and is exactly
    `width` long whenever `n` fits in `width` digits. `PadDecReadsBack`
    states that it denotes `n`.
  */
  function PadDec(n: nat, width: nat): (s: string)
    ensures AllDigits(s)
    ensures width <= |s|
    ensures width < |s| ==> s == DecStr(n)
    ensures 1 < |s| && s[0] == '0' ==> |s| == width
    ensures 1 <= width && n < Pow10(width) ==> |s| == width
  {
    var d := DecStr(n);
    DecStrFitsWidth(n, width);
    if |d| < width then Zeros(width - |d|) + d else d
  }

  /** `PadDec(n, width)` reads back as `n`: padding adds only leading zeros. */
  lemma PadDecReadsBack(n: nat, width: nat)
    ensures ParseDec(PadDec(n, width)) == n
  {
    var d := DecStr(n);
    DecStrReadsBack(n);
    if |d| < width {
      ParseDecLeadingZeros(width - |d|, d);
    }
  }

  /** A single digit padded to `width`: `width - 1` zeros, then the digit. */
  lemma PadDecDigit(d: nat, width: nat)
    requires d < 10 && 1 <= width
    ensures PadDec(d, width) == Zeros(width - 1) + [DigitChar(d)]
  {
    assert DecStr(d) == [DigitChar(d)];
  }
}
