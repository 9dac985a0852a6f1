/**
 Decimal digit strings: the value a string of digits denotes, the canonical digits of a number,
 and the padding and stripping helpers the USDC code uses.
 */
module Decimal {

  predicate IsDigit(c: char) {
    '0' <= c <= '9'
  }

  predicate AllDigits(s: string) {
    forall i | 0 <= i < |s| :: IsDigit(s[i])
  }

  function DigitValue(c: char): nat
    requires IsDigit(c)
  {
    c as int - '0' as int
  }

  function DigitChar(d: nat): char
    requires d < 10
  {
    ('0' as int + d) as char
  }

  /** What BigInt(s) yields on a string of decimal digits; the empty string counts as zero. */
  function Value(s: string): nat
    requires AllDigits(s)
  {
    if s == "" then 0 else 10 * Value(s[..|s| - 1]) + DigitValue(s[|s| - 1])
  }

  function Pow10(n: nat): (p: nat)
    ensures p > 0
  {
    if n == 0 then 1 else 10 * Pow10(n - 1)
  }

  /** What n.toString() yields for a bigint n >= 0. */
  function Digits(n: nat): string {
    if n < 10 then [DigitChar(n)] else Digits(n / 10) + [DigitChar(n % 10)]
  }

  function Zeros(n: nat): (z: string)
    ensures |z| == n && forall i | 0 <= i < n :: z[i] == '0'
  {
    if n == 0 then "" else Zeros(n - 1) + "0"
  }

  /** s.padStart(width, "0") */
  function PadStart(s: string, width: nat): string {
    if |s| >= width then s else Zeros(width - |s|) + s
  }

  /** s.padEnd(width, "0") */
  function PadEnd(s: string, width: nat): string {
    if |s| >= width then s else s + Zeros(width - |s|)
  }

  /** s.replace(/0+$/, "") */
  function StripZeros(s: string): string {
    if s != "" && s[|s| - 1] == '0' then StripZeros(s[..|s| - 1]) else s
  }

  lemma TenTimes(v: nat, p: nat, w: nat)
    ensures 10 * (v * p + w) == v * (10 * p) + 10 * w
  {
    assert v * (10 * p) == 10 * (v * p);
  }

  lemma {:induction false} ValueConcat(a: string, b: string)
    requires AllDigits(a) && AllDigits(b)
    ensures AllDigits(a + b)
    ensures Value(a + b) == Value(a) * Pow10(|b|) + Value(b)
  {
    if b == "" {
      assert a + b == a;
    } else {
      var b' := b[..|b| - 1];
      ValueConcat(a, b');
      assert (a + b)[..|a + b| - 1] == a + b' && (a + b)[|a + b| - 1] == b[|b| - 1];
      TenTimes(Value(a), Pow10(|b'|), Value(b'));
    }
  }

  lemma {:induction false} ValueZeros(n: nat)
    ensures Value(Zeros(n)) == 0
  {
    if n > 0 {
      ValueZeros(n - 1);
      assert Zeros(n)[..n - 1] == Zeros(n - 1);
    }
  }

  lemma {:induction false} ValueBound(s: string)
    requires AllDigits(s)
    ensures Value(s) < Pow10(|s|)
  {
    if s != "" {
      ValueBound(s[..|s| - 1]);
    }
  }

  lemma TenTimesProduct(v: nat, p: nat)
    ensures 10 * (v * p) == v * (10 * p)
  {
  }

  lemma Pow10Step(n: nat)
    requires n > 0
    ensures Pow10(n) == 10 * Pow10(n - 1)
  {
  }

  lemma {:induction false} Pow10Add(a: nat, b: nat)
    ensures Pow10(a + b) == Pow10(a) * Pow10(b)
  {
    if a > 0 {
      Pow10Add(a - 1, b);
      Pow10Step(a);
      Pow10Step(a + b);
      assert a + b - 1 == (a - 1) + b;
      TenTimesProduct(Pow10(b), Pow10(a - 1));
    }
  }

  /** Padding on the right multiplies by a power of ten. */
  lemma ValuePadEnd(s: string, width: nat)
    requires AllDigits(s) && |s| <= width
    ensures AllDigits(PadEnd(s, width)) && |PadEnd(s, width)| == width
    ensures Value(PadEnd(s, width)) == Value(s) * Pow10(width - |s|)
  {
    if |s| == width {
      assert Pow10(0) == 1;
    } else {
      ValueConcat(s, Zeros(width - |s|));
      ValueZeros(width - |s|);
    }
  }

  /** Padding on the left changes nothing. */
  lemma ValuePadStart(s: string, width: nat)
    requires AllDigits(s)
    ensures AllDigits(PadStart(s, width)) && |PadStart(s, width)| == if |s| >= width then |s| else width
    ensures Value(PadStart(s, width)) == Value(s)
  {
    if |s| < width {
      ValueConcat(Zeros(width - |s|), s);
      ValueZeros(width - |s|);
    }
  }

  /** Stripping trailing zeros keeps the digits and divides by a power of ten. */
  lemma {:induction false} ValueStripZeros(s: string)
    requires AllDigits(s)
    ensures var t := StripZeros(s);
            |t| <= |s| && AllDigits(t) && Value(s) == Value(t) * Pow10(|s| - |t|)
    ensures StripZeros(s) == "" ==> Value(s) == 0
  {
    if s != "" && s[|s| - 1] == '0' {
      var s' := s[..|s| - 1];
      var t := StripZeros(s');
      ValueStripZeros(s');
      assert |s| - |t| == |s'| - |t| + 1;
      TenTimesProduct(Value(t), Pow10(|s'| - |t|));
    } else {
      assert Pow10(0) == 1;
    }
  }

  /** Reading back the digits of a number gives the number. */
  lemma {:induction false} DigitsValue(n: nat)
    ensures AllDigits(Digits(n)) && Digits(n) != "" && Value(Digits(n)) == n
  {
    if n >= 10 {
      DigitsValue(n / 10);
      assert Digits(n)[..|Digits(n)| - 1] == Digits(n / 10);
    }
  }

  /** A number below 10^k has at most k digits. */
  lemma {:induction false} DigitsLength(n: nat, k: nat)
    requires n < Pow10(k) && k > 0
    ensures |Digits(n)| <= k
  {
    if k > 1 && n >= 10 {
      DigitsLength(n / 10, k - 1);
    }
  }

  // ----- division -----

  lemma AtLeast(k: int, q: nat)
    requires k >= 1
    ensures k * q >= q
  {
  }

  lemma UniqueQuotient(v: nat, r: nat, d: nat, m: nat, q: nat)
    requires v * q + r == d * q + m && r < q && m < q
    ensures v == d
  {
    assert (v - d) * q == v * q - d * q && (d - v) * q == d * q - v * q;
    if v > d {
      AtLeast(v - d, q);
    } else if d > v {
      AtLeast(d - v, q);
    }
  }

  lemma DivideMultiple(v: nat, q: nat, r: nat)
    requires r < q
    ensures (v * q + r) / q == v
  {
    var n := v * q + r;
    assert n == n / q * q + n % q;
    UniqueQuotient(v, r, n / q, n % q, q);
  }
}
