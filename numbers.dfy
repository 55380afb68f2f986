/** Python's integer conversions and decimal text, as the core uses them:
    `int(x)` of a float truncates toward zero, `math.ceil` rounds up,
    `int("0042")` reads a run of ASCII digits and `f"{n:06}"` writes one. */
module Numbers {

  /** `int(r)` for a float `r`: truncation toward zero. */
  function Trunc(r: real): (i: int)
    ensures 0.0 <= r ==> i as real <= r < i as real + 1.0
    ensures r < 0.0 ==> i as real - 1.0 < r <= i as real
    ensures 0.0 <= r ==> 0 <= i
  {
    if 0.0 <= r then r.Floor else -((-r).Floor)
  }

  /** `math.ceil(r)`. */
  function Ceil(r: real): (i: int)
    ensures i as real - 1.0 < r <= i as real
  {
    -((-r).Floor)
  }

  lemma TruncOfInt(n: int)
    ensures Trunc(n as real) == n
  {
  }

  function Max(a: real, b: real): real { if a < b then b else a }

  function Min(a: real, b: real): real { if a < b then a else b }

  predicate IsDigit(c: char) { '0' <= c <= '9' }

  predicate AllDigits(s: string) { forall i :: 0 <= i < |s| ==> IsDigit(s[i]) }

  function DigitChar(d: nat): (c: char)
    requires d < 10
    ensures IsDigit(c)
  {
    ['0', '1', '2', '3', '4', '5', '6', '7', '8', '9'][d]
  }

  function DigitValue(c: char): (d: nat)
    requires IsDigit(c)
    ensures d < 10 && DigitChar(d) == c
  {
    (c as int - '0' as int) as nat
  }

  /** Value of a run of decimal digits, most significant first: `int(s)`. */
  function Value(s: string): nat
    requires AllDigits(s)
  {
    if s == [] then 0 else Value(s[..|s| - 1]) * 10 + DigitValue(s[|s| - 1])
  }

  /** Shortest decimal text of `n` (`str(n)` for an `int`). */
  function Decimal(n: nat): (s: string)
    ensures AllDigits(s) && 1 <= |s|
    ensures n < 10 ==> |s| == 1
    ensures 10 <= n ==> s[0] != '0'
  {
    if n < 10 then [DigitChar(n)] else Decimal(n / 10) + [DigitChar(n % 10)]
  }

  function Zeros(k: nat): (s: string)
    ensures |s| == k && AllDigits(s)
  {
    if k == 0 then "" else Zeros(k - 1) + "0"
  }

  /** `f"{n:0{width}}"`: `Decimal(n)` padded on the left with zeros to `width`. */
  function ZeroPadded(n: nat, width: nat): (s: string)
    ensures AllDigits(s)
  {
    var d := Decimal(n);
    if |d| < width then Zeros(width - |d|) + d else d
  }

  lemma {:induction false} ValueOfDecimal(n: nat)
    ensures Value(Decimal(n)) == n
  {
    if 10 <= n {
      var s := Decimal(n);
      assert s[..|s| - 1] == Decimal(n / 10);
      ValueOfDecimal(n / 10);
      assert DigitValue(s[|s| - 1]) == n % 10 by {
        DigitValueOfChar(n % 10);
      }
      assert n == n / 10 * 10 + n % 10;
    }
  }

  lemma DigitValueOfChar(d: nat)
    requires d < 10
    ensures DigitValue(DigitChar(d)) == d
  {
  }

  lemma {:induction false} ValueIgnoresLeadingZeros(k: nat, s: string)
    requires AllDigits(s)
    ensures AllDigits(Zeros(k) + s) && Value(Zeros(k) + s) == Value(s)
  {
    var t := Zeros(k) + s;
    assert AllDigits(t) by {
      forall i | 0 <= i < |t| ensures IsDigit(t[i]) {
        if i < k { assert t[i] == Zeros(k)[i]; } else { assert t[i] == s[i - k]; }
      }
    }
    if s == [] {
      assert t == Zeros(k);
      ZerosValue(k);
    } else {
      assert t[..|t| - 1] == Zeros(k) + s[..|s| - 1];
      ValueIgnoresLeadingZeros(k, s[..|s| - 1]);
    }
  }

  lemma {:induction false} ZerosValue(k: nat)
    ensures Value(Zeros(k)) == 0
  {
    if k > 0 {
      assert Zeros(k)[..k - 1] == Zeros(k - 1);
      ZerosValue(k - 1);
    }
  }

  lemma {:induction false} DecimalLength(n: nat, w: nat)
    requires 1 <= w && n < Pow10(w)
    ensures |Decimal(n)| <= w
  {
    if 10 <= n {
      assert 2 <= w;
      DecimalLength(n / 10, w - 1);
    }
  }

  function Pow10(w: nat): (p: nat)
    ensures 1 <= p
  {
    if w == 0 then 1 else 10 * Pow10(w - 1)
  }

  /** Zero padding to `width` gives exactly `width` digits when `n` fits, and
      reads back as `n`: distinct numbers give distinct padded texts. */
  lemma ZeroPaddedRoundTrip(n: nat, width: nat)
    requires 1 <= width && n < Pow10(width)
    ensures |ZeroPadded(n, width)| == width
    ensures Value(ZeroPadded(n, width)) == n
  {
    DecimalLength(n, width);
    ValueOfDecimal(n);
    var d := Decimal(n);
    if |d| < width {
      ValueIgnoresLeadingZeros(width - |d|, d);
    }
  }
}
