/**
 Exact decimals in canonical form. A finite double is the shortest decimal that denotes it, the one Number::toString
 prints (section 6.1.6.1.20 of ECMAScript); zero has no sign.
 */
module Numbers {
  import opened Decimal

  /** digits * 10^exponent, negated if so */
  datatype Scaled = Scaled(negative: bool, digits: nat, exponent: int)

  predicate Canonical(x: Scaled) {
    if x.digits == 0 then !x.negative && x.exponent == 0 else x.digits % 10 != 0
  }

  type Num = x: Scaled | Canonical(x) witness Scaled(false, 0, 0)

  const NOUGHT: Num := Scaled(false, 0, 0)

  function Normalize(negative: bool, m: nat, e: int): Num
    decreases m
  {
    if m == 0 then NOUGHT
    else if m % 10 == 0 then Normalize(negative, m / 10, e + 1)
    else Scaled(negative, m, e)
  }

  function Integer(n: int): Num {
    if n < 0 then Normalize(true, -n, 0) else Normalize(false, n, 0)
  }

  /** Number.isInteger */
  predicate IsInteger(x: Num) {
    x.exponent >= 0
  }

  function IntegerValue(x: Num): int
    requires IsInteger(x)
  {
    var n := x.digits * Pow10(x.exponent);
    if x.negative then -n else n
  }

  /** m * 10^e == n * 10^f, said without division. */
  predicate SameValue(m: nat, e: int, n: nat, f: int) {
    if e >= f then m * Pow10(e - f) == n else m == n * Pow10(f - e)
  }

  lemma SameValueIsSymmetric(m: nat, e: int, n: nat, f: int)
    ensures SameValue(m, e, n, f) <==> SameValue(n, f, m, e)
  {
  }

  /** Dividing a multiple of ten while raising its exponent keeps the value. */
  lemma TenthHasSameValue(m: nat, e: int, n: nat, f: int)
    requires m % 10 == 0
    ensures SameValue(m, e, n, f) <==> SameValue(m / 10, e + 1, n, f)
  {
    var d := m / 10;
    if e >= f {
      Pow10Step(e + 1 - f);
      TenTimesProduct(d, Pow10(e - f));
      assert m * Pow10(e - f) == 10 * (d * Pow10(e - f));
    } else {
      Pow10Step(f - e);
      TenTimesProduct(n, Pow10(f - e - 1));
    }
  }

  lemma {:induction false} NormalizeKeepsValue(m: nat, e: int, n: nat, f: int)
    ensures var x := Normalize(false, m, e);
            SameValue(m, e, n, f) <==> SameValue(x.digits, x.exponent, n, f)
    decreases m
  {
    if m == 0 {
      ZeroOnly(e, n, f);
      ZeroOnly(0, n, f);
    } else if m % 10 == 0 {
      TenthHasSameValue(m, e, n, f);
      NormalizeKeepsValue(m / 10, e + 1, n, f);
    }
  }

  lemma ZeroOnly(e: int, n: nat, f: int)
    ensures SameValue(0, e, n, f) <==> n == 0
  {
    if e < f && n > 0 {
      AtLeast(n, Pow10(f - e));
    }
  }

  lemma CanonicalIsUnique(x: Num, y: Num)
    requires !x.negative && !y.negative && SameValue(x.digits, x.exponent, y.digits, y.exponent)
    ensures x == y
  {
    if x.digits == 0 {
      ZeroOnly(x.exponent, y.digits, y.exponent);
    } else if y.digits == 0 {
      ZeroOnly(y.exponent, x.digits, x.exponent);
      SameValueIsSymmetric(x.digits, x.exponent, y.digits, y.exponent);
    } else if x.exponent > y.exponent {
      NoMultipleOfTen(x.digits, x.exponent - y.exponent);
    } else if x.exponent < y.exponent {
      NoMultipleOfTen(y.digits, y.exponent - x.exponent);
    }
  }

  lemma NoMultipleOfTen(d: nat, k: nat)
    requires k > 0
    ensures d * Pow10(k) % 10 == 0
  {
    Pow10Step(k);
    TenTimesProduct(d, Pow10(k - 1));
  }

  /** Two decimals have one canonical form exactly when they have one value. */
  lemma NormalizeDecidesValue(m: nat, e: int, n: nat, f: int)
    ensures Normalize(false, m, e) == Normalize(false, n, f) <==> SameValue(m, e, n, f)
  {
    var x, y := Normalize(false, m, e), Normalize(false, n, f);
    NormalizedIsPositive(m, e);
    NormalizedIsPositive(n, f);
    NormalizeKeepsValue(m, e, n, f);
    NormalizeKeepsValue(n, f, x.digits, x.exponent);
    SameValueIsSymmetric(n, f, x.digits, x.exponent);
    SameValueIsSymmetric(y.digits, y.exponent, x.digits, x.exponent);
    if SameValue(m, e, n, f) {
      CanonicalIsUnique(x, y);
    }
  }

  lemma {:induction false} NormalizedIsPositive(m: nat, e: int)
    ensures !Normalize(false, m, e).negative
    decreases m
  {
    if m > 0 && m % 10 == 0 {
      NormalizedIsPositive(m / 10, e + 1);
    }
  }

  lemma {:induction false} ZeroNormalizes(m: nat, e: int)
    ensures Normalize(false, m, e) == NOUGHT <==> m == 0
    decreases m
  {
    if m > 0 && m % 10 == 0 {
      ZeroNormalizes(m / 10, e + 1);
    }
  }

  /** The sign is kept, but for zero. */
  lemma {:induction false} NormalizeSign(m: nat, e: int)
    ensures m == 0 ==> Normalize(true, m, e) == NOUGHT
    ensures m > 0 ==> Normalize(true, m, e) == Normalize(false, m, e).(negative := true)
    decreases m
  {
    if m > 0 && m % 10 == 0 {
      NormalizeSign(m / 10, e + 1);
    }
  }

  /** Trailing zeros are exactly what normalisation takes away. */
  lemma {:induction false} NormalizeScaled(x: Num, k: nat)
    requires x.digits > 0
    ensures Normalize(x.negative, x.digits * Pow10(k), x.exponent - k) == x
    decreases k
  {
    if k == 0 {
      assert x.digits * Pow10(0) == x.digits;
    } else {
      var m := x.digits * Pow10(k);
      Pow10Step(k);
      TenTimesProduct(x.digits, Pow10(k - 1));
      AtLeast(x.digits, Pow10(k - 1));
      assert m == 10 * (x.digits * Pow10(k - 1));
      NormalizeScaled(x, k - 1);
    }
  }
}
