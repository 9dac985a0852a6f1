/**
 The USDC decimal-string parsers and printers of four packages, side by side. All work on the JavaScript strings
 they are given; BigInt arithmetic is Dafny's unbounded integers.
 */
module Usdc {
  import opened Basics
  import opened Decimal

  const SCALE: nat := 1_000_000

  // ----- the parts of a decimal string -----

  /** The index of the first '.', or the length of s. */
  function FirstDot(s: string): (d: nat)
    ensures d <= |s|
    ensures forall i | 0 <= i < d :: s[i] != '.'
    ensures d < |s| ==> s[d] == '.'
  {
    if s == "" || s[0] == '.' then 0 else 1 + FirstDot(s[1..])
  }

  /** s.split(".")[0] */
  function Whole(s: string): string {
    s[..FirstDot(s)]
  }

  /** s.split(".")[1], with "" when there is none. */
  function Fraction(s: string): string {
    var d := FirstDot(s);
    if d == |s| then "" else Whole(s[d + 1..])
  }

  /** The pattern ^\d+(\.\d+)?$ . */
  predicate IsDecimal(s: string) {
    var d := FirstDot(s);
    && d > 0
    && AllDigits(s[..d])
    && (d == |s| || (d + 1 < |s| && AllDigits(s[d + 1..])))
  }

  /** The pattern ^\d+(\.\d{1,6})?$ . */
  predicate IsAmount(s: string) {
    IsDecimal(s) && |s| <= FirstDot(s) + 7
  }

  lemma DecimalParts(s: string)
    requires IsDecimal(s)
    ensures AllDigits(Whole(s)) && AllDigits(Fraction(s)) && Whole(s) != ""
    ensures s == if Fraction(s) == "" then Whole(s) else Whole(s) + "." + Fraction(s)
    ensures IsAmount(s) <==> |Fraction(s)| <= 6
  {
    var d := FirstDot(s);
    if d < |s| {
      var f := s[d + 1..];
      assert forall i | 0 <= i < |f| :: IsDigit(f[i]);
      assert FirstDot(f) == |f|;
      assert s == s[..d] + "." + f;
    }
  }

  lemma PartsOf(w: string, f: string)
    requires AllDigits(w) && w != "" && AllDigits(f) && f != ""
    ensures IsDecimal(w + "." + f) && Whole(w + "." + f) == w && Fraction(w + "." + f) == f
  {
    var s := w + "." + f;
    assert s[|w|] == '.';
    assert forall i | 0 <= i < |w| :: s[i] == w[i] && IsDigit(w[i]);
    assert FirstDot(s) == |w|;
    assert s[..|w|] == w && s[|w| + 1..] == f;
    assert FirstDot(f) == |f|;
  }

  lemma WholeOnly(w: string)
    requires AllDigits(w) && w != ""
    ensures IsAmount(w) && Whole(w) == w && Fraction(w) == ""
  {
    assert FirstDot(w) == |w|;
  }

  // ----- reference meaning -----

  /** All digits of s as one integer: s denotes Mantissa(s) / 10^|Fraction(s)|. */
  ghost function Mantissa(s: string): nat
    requires IsDecimal(s)
  {
    DecimalParts(s);
    Value(Whole(s)) * Pow10(|Fraction(s)|) + Value(Fraction(s))
  }

  /** floor(10^6 * x) for the number x that s denotes. */
  ghost function Micros(s: string): nat
    requires IsDecimal(s)
  {
    Mantissa(s) * SCALE / Pow10(|Fraction(s)|)
  }

  // ----- the parsers -----

  /** JavaScript white space and line terminators, which String.trim removes. */
  predicate IsSpace(c: char) {
    || c in {'\U{0009}', '\U{000A}', '\U{000B}', '\U{000C}', '\U{000D}', ' ', '\U{00A0}', '\U{1680}'}
    || '\U{2000}' <= c <= '\U{200A}'
    || c in {'\U{2028}', '\U{2029}', '\U{202F}', '\U{205F}', '\U{3000}', '\U{FEFF}'}
  }

  function Trim(s: string): string {
    if s != "" && IsSpace(s[0]) then Trim(s[1..])
    else if s != "" && IsSpace(s[|s| - 1]) then Trim(s[..|s| - 1])
    else s
  }

  predicate AllSpace(s: string) {
    forall i | 0 <= i < |s| :: IsSpace(s[i])
  }

  lemma SpaceInFront(c: char, before: string, middle: string, after: string)
    requires IsSpace(c) && AllSpace(before)
    ensures AllSpace([c] + before) && [c] + (before + middle + after) == [c] + before + middle + after
  {
  }

  lemma SpaceBehind(c: char, before: string, middle: string, after: string)
    requires IsSpace(c) && AllSpace(after)
    ensures AllSpace(after + [c]) && before + middle + after + [c] == before + middle + (after + [c])
  {
  }

  /** Trimming takes white space off both ends, and all of it. */
  lemma {:induction false} TrimSpec(s: string) returns (before: string, after: string)
    ensures s == before + Trim(s) + after && AllSpace(before) && AllSpace(after)
    ensures Trim(s) != "" ==> !IsSpace(Trim(s)[0]) && !IsSpace(Trim(s)[|Trim(s)| - 1])
  {
    if s != "" && IsSpace(s[0]) {
      before, after := TrimSpec(s[1..]);
      SpaceInFront(s[0], before, Trim(s[1..]), after);
      before := [s[0]] + before;
      assert s == [s[0]] + s[1..];
    } else if s != "" && IsSpace(s[|s| - 1]) {
      before, after := TrimSpec(s[..|s| - 1]);
      SpaceBehind(s[|s| - 1], before, Trim(s[..|s| - 1]), after);
      after := after + [s[|s| - 1]];
      assert s == s[..|s| - 1] + [s[|s| - 1]];
    } else {
      before, after := "", "";
    }
  }

  /** The white space of section 12.2 and the line terminators of section 12.3 of ECMAScript. */
  lemma SpacesAre(c: char)
    ensures IsSpace(c) <==>
              c as int in {0x9, 0xA, 0xB, 0xC, 0xD, 0x20, 0xA0, 0x1680, 0x2000, 0x2001, 0x2002, 0x2003, 0x2004, 0x2005, 0x2006,
                           0x2007, 0x2008, 0x2009, 0x200A, 0x2028, 0x2029, 0x202F, 0x205F, 0x3000, 0xFEFF}
  {
    assert c == c as int as char;
  }

  datatype AmountError = InvalidUsdcAmount

  /** spend-policy.ts: trims, accepts "" as zero, pads and cuts the fraction to six digits. */
  function UsdcToMicros(value: string): Result<nat, AmountError> {
    if value == "" then Ok(0)
    else
      var raw := Trim(value);
      if !IsAmount(raw) then Err(InvalidUsdcAmount)
      else
        DecimalParts(raw);
        Ok(Value(Whole(raw)) * SCALE + Value((Fraction(raw) + "000000")[..6]))
  }

  /** job-envelope.ts: anchored pattern, then padEnd. */
  function ParseUsdcToAtomic(value: string): Result<nat, AmountError> {
    if !IsAmount(value) then Err(InvalidUsdcAmount)
    else
      DecimalParts(value);
      ValuePadEnd(Fraction(value), 6);
      Ok(Value(Whole(value)) * SCALE + Value(PadEnd(Fraction(value), 6)))
  }

  /** policy.ts: no pattern at all; the fraction is cut, never rejected, after six digits. */
  function DecimalToMicros(amount: string): Result<nat, AmountError> {
    var whole, frac := Whole(amount), (Fraction(amount) + "000000")[..6];
    if AllDigits(whole) && AllDigits(frac) then Ok(Value(whole) * SCALE + Value(frac)) else Err(InvalidUsdcAmount)
  }

  /** tools.ts: one BigInt of the whole digits followed by the padded fraction digits. */
  function ParseUsdcMicros(amount: string): Result<nat, AmountError> {
    if !IsAmount(amount) then Err(InvalidUsdcAmount)
    else
      DecimalParts(amount);
      ValuePadEnd(Fraction(amount), 6);
      ValueConcat(Whole(amount), PadEnd(Fraction(amount), 6));
      Ok(Value(Whole(amount) + PadEnd(Fraction(amount), 6)))
  }

  // ----- the printers -----

  /** spend-policy.ts: always six fraction digits. */
  function MicrosToUsdc(value: nat): string {
    Digits(value / SCALE) + "." + PadStart(Digits(value % SCALE), 6)
  }

  /** job-envelope.ts: no trailing zeros, and no point when the fraction is zero. */
  function AtomicToUsdc(atomic: nat): string {
    var whole, frac := Digits(atomic / SCALE), atomic % SCALE;
    if frac == 0 then whole else whole + "." + StripZeros(PadStart(Digits(frac), 6))
  }

  // ----- exactness -----

  lemma Pow10Six()
    ensures Pow10(6) == SCALE
  {
    assert Pow10(1) == 10 && Pow10(2) == 100 && Pow10(3) == 1000 && Pow10(4) == 10000 && Pow10(5) == 100000;
  }

  lemma SixIs(f: string)
    ensures (f + "000000")[..6] == if |f| <= 6 then PadEnd(f, 6) else f[..6]
  {
    assert "000000" == Zeros(6);
    if |f| < 6 {
      assert forall i | |f| <= i < 6 :: (f + "000000")[i] == '0';
    }
  }

  /** What the six-digit fraction is worth, whether it was padded or cut. */
  lemma SixDigits(f: string)
    requires AllDigits(f)
    ensures AllDigits((f + "000000")[..6])
    ensures Value((f + "000000")[..6]) == Value(f) * SCALE / Pow10(|f|)
  {
    SixIs(f);
    if |f| <= 6 {
      PaddedSix(f);
    } else {
      CutSix(f);
    }
  }

  lemma PaddedSix(f: string)
    requires AllDigits(f) && |f| <= 6
    ensures AllDigits(PadEnd(f, 6)) && Value(PadEnd(f, 6)) == Value(f) * SCALE / Pow10(|f|)
  {
    Pow10Six();
    ValuePadEnd(f, 6);
    Pow10Add(6 - |f|, |f|);
    ExactQuotient(Value(f), Pow10(6 - |f|), Pow10(|f|));
  }

  lemma CutSix(f: string)
    requires AllDigits(f) && |f| > 6
    ensures Value(f[..6]) == Value(f) * SCALE / Pow10(|f|)
  {
    Pow10Six();
    var six, rest := f[..6], f[6..];
    assert f == six + rest;
    ValueConcat(six, rest);
    ValueBound(rest);
    Pow10Add(6, |rest|);
    CutQuotient(Value(six), Value(rest), Pow10(|rest|), SCALE);
  }

  lemma ExactQuotient(v: nat, p: nat, q: nat)
    requires q > 0
    ensures v * (p * q) / q == v * p
  {
    assert v * (p * q) == (v * p) * q;
    DivideMultiple(v * p, q, 0);
  }

  lemma CutQuotient(v: nat, r: nat, p: nat, k: nat)
    requires r < p && k > 0
    ensures (v * p + r) * k / (k * p) == v
  {
    assert (v * p + r) * k == v * (k * p) + r * k;
    assert r * k < p * k;
    DivideMultiple(v, k * p, r * k);
  }

  /**
   policy.ts is exact for any number of fraction digits: it is the floor of a million times the number written.
   */
  lemma DecimalToMicrosIsFloor(s: string)
    requires IsDecimal(s)
    ensures DecimalToMicros(s) == Ok(Micros(s))
  {
    DecimalParts(s);
    var w, f := Value(Whole(s)), Fraction(s);
    SixDigits(f);
    var p := Pow10(|f|);
    ScaleMantissa(w, p, Value(f), SCALE);
    AddMultipleQuotient(w * SCALE, p, Value(f) * SCALE);
  }

  lemma ScaleMantissa(w: nat, p: nat, f: nat, k: nat)
    ensures (w * p + f) * k == (w * k) * p + f * k
  {
    assert w * p * k == (w * k) * p;
  }

  lemma AddMultipleQuotient(a: nat, p: nat, b: nat)
    requires p > 0
    ensures (a * p + b) / p == a + b / p
  {
    var d, m := b / p, b % p;
    assert a * p + b == (a + d) * p + m;
    DivideMultiple(a + d, p, m);
  }

  /**
   On every amount with at most six fraction digits the four parsers give the same, exact result;
   three of them accept nothing else.
   */
  lemma ParsersAgree(s: string)
    ensures IsAmount(s) ==>
              && ParseUsdcToAtomic(s) == Ok(Micros(s))
              && ParseUsdcMicros(s) == Ok(Micros(s))
              && UsdcToMicros(s) == Ok(Micros(s))
              && DecimalToMicros(s) == Ok(Micros(s))
              && Micros(s) * Pow10(|Fraction(s)|) == Mantissa(s) * SCALE
    ensures !IsAmount(s) ==> ParseUsdcToAtomic(s).Err? && ParseUsdcMicros(s).Err?
    ensures UsdcToMicros(s).Ok? <==> s == "" || IsAmount(Trim(s))
  {
    if IsAmount(s) {
      DecimalToMicrosIsFloor(s);
      EnvelopeParser(s);
      PricingParser(s);
      PolicyParser(s);
      ExactMicros(s);
    }
    PolicyAccepts(s);
  }

  lemma PolicyAccepts(s: string)
    ensures UsdcToMicros(s).Ok? <==> s == "" || IsAmount(Trim(s))
  {
  }

  lemma SixDigitsCut(s: string)
    requires IsAmount(s)
    ensures AllDigits(Whole(s)) && |Fraction(s) + "000000"| >= 6 && AllDigits((Fraction(s) + "000000")[..6])
  {
    PaddedFraction(s);
  }

  lemma PolicyReads(s: string)
    requires IsAmount(s) && Trim(s) == s
    requires AllDigits(Whole(s)) && |Fraction(s) + "000000"| >= 6 && AllDigits((Fraction(s) + "000000")[..6])
    ensures UsdcToMicros(s) == Ok(Value(Whole(s)) * SCALE + Value((Fraction(s) + "000000")[..6]))
  {
  }

  lemma PricingReads(s: string)
    requires AllDigits(Whole(s)) && |Fraction(s) + "000000"| >= 6 && AllDigits((Fraction(s) + "000000")[..6])
    ensures DecimalToMicros(s) == Ok(Value(Whole(s)) * SCALE + Value((Fraction(s) + "000000")[..6]))
  {
  }

  lemma PolicyParser(s: string)
    requires IsAmount(s)
    ensures UsdcToMicros(s) == DecimalToMicros(s)
  {
    TrimAmount(s);
    SixDigitsCut(s);
    PolicyReads(s);
    PricingReads(s);
  }

  lemma PaddedFraction(s: string)
    requires IsAmount(s)
    ensures AllDigits(Whole(s)) && AllDigits(PadEnd(Fraction(s), 6))
    ensures (Fraction(s) + "000000")[..6] == PadEnd(Fraction(s), 6)
  {
    DecimalParts(s);
    SixIs(Fraction(s));
    ValuePadEnd(Fraction(s), 6);
  }

  lemma EnvelopeParser(s: string)
    requires IsAmount(s)
    ensures ParseUsdcToAtomic(s) == DecimalToMicros(s)
  {
    PaddedFraction(s);
  }

  lemma PricingParser(s: string)
    requires IsAmount(s)
    ensures ParseUsdcMicros(s) == DecimalToMicros(s)
  {
    DecimalParts(s);
    SixIs(Fraction(s));
    ConcatenatedDigits(Whole(s), Fraction(s));
  }

  lemma ConcatenatedDigits(w: string, f: string)
    requires AllDigits(w) && AllDigits(f) && |f| <= 6
    ensures AllDigits(w + PadEnd(f, 6)) && AllDigits(PadEnd(f, 6))
    ensures Value(w + PadEnd(f, 6)) == Value(w) * SCALE + Value(PadEnd(f, 6))
  {
    Pow10Six();
    ValuePadEnd(f, 6);
    ValueConcat(w, PadEnd(f, 6));
  }

  lemma ExactMicros(s: string)
    requires IsAmount(s)
    ensures Micros(s) * Pow10(|Fraction(s)|) == Mantissa(s) * SCALE
  {
    DecimalParts(s);
    var p := Pow10(|Fraction(s)|);
    Pow10Six();
    Pow10Add(6 - |Fraction(s)|, |Fraction(s)|);
    ExactQuotient(Mantissa(s), Pow10(6 - |Fraction(s)|), p);
    assert Mantissa(s) * (Pow10(6 - |Fraction(s)|) * p) == Mantissa(s) * Pow10(6 - |Fraction(s)|) * p;
  }

  lemma TrimAmount(s: string)
    requires IsAmount(s)
    ensures Trim(s) == s
  {
    var d := FirstDot(s);
    assert s[0] == s[..d][0];
    if d < |s| {
      assert s[|s| - 1] == s[d + 1..][|s| - d - 2];
    } else {
      assert s[|s| - 1] == s[..d][|s| - 1];
    }
  }

  /** Both printers are inverted by their parsers, on every amount of micros. */
  lemma MicrosRoundTrip(n: nat)
    ensures IsAmount(MicrosToUsdc(n)) && UsdcToMicros(MicrosToUsdc(n)) == Ok(n)
  {
    PrintedParts(n);
    PolicyParser(MicrosToUsdc(n));
    PrintedValue(n);
  }

  lemma PrintedParts(n: nat)
    ensures var s, f := MicrosToUsdc(n), PadStart(Digits(n % SCALE), 6);
            IsAmount(s) && Whole(s) == Digits(n / SCALE) && Fraction(s) == f && |f| == 6 && AllDigits(f)
  {
    var f := PadStart(Digits(n % SCALE), 6);
    SixPadded(n);
    DigitsValue(n / SCALE);
    PartsOf(Digits(n / SCALE), f);
    DecimalParts(MicrosToUsdc(n));
  }

  lemma PrintedValue(n: nat)
    ensures DecimalToMicros(MicrosToUsdc(n)) == Ok(n)
  {
    var f := PadStart(Digits(n % SCALE), 6);
    PrintedParts(n);
    SixPadded(n);
    DigitsValue(n / SCALE);
    assert (f + "000000")[..6] == f;
  }

  lemma SixPadded(n: nat)
    ensures var f := PadStart(Digits(n % SCALE), 6);
            |f| == 6 && AllDigits(f) && Value(f) == n % SCALE
  {
    Pow10Six();
    DigitsValue(n % SCALE);
    DigitsLength(n % SCALE, 6);
    ValuePadStart(Digits(n % SCALE), 6);
  }

  lemma AtomicRoundTrip(n: nat)
    ensures IsAmount(AtomicToUsdc(n)) && ParseUsdcToAtomic(AtomicToUsdc(n)) == Ok(n)
  {
    if n % SCALE == 0 {
      WholeRoundTrip(n);
    } else {
      FractionRoundTrip(n);
    }
  }

  lemma WholeRoundTrip(n: nat)
    requires n % SCALE == 0
    ensures IsAmount(AtomicToUsdc(n)) && ParseUsdcToAtomic(AtomicToUsdc(n)) == Ok(n)
  {
    DigitsValue(n / SCALE);
    WholeOnly(AtomicToUsdc(n));
    ValuePadEnd("", 6);
  }

  /** The six padded fraction digits without their trailing zeros, and padded again. */
  lemma StrippedFraction(n: nat)
    requires n % SCALE != 0
    ensures var f := StripZeros(PadStart(Digits(n % SCALE), 6));
            f != "" && |f| <= 6 && AllDigits(f) && AllDigits(PadEnd(f, 6)) && Value(PadEnd(f, 6)) == n % SCALE
  {
    var six := PadStart(Digits(n % SCALE), 6);
    SixPadded(n);
    ValueStripZeros(six);
    ValuePadEnd(StripZeros(six), 6);
  }

  lemma FractionRoundTrip(n: nat)
    requires n % SCALE != 0
    ensures IsAmount(AtomicToUsdc(n)) && ParseUsdcToAtomic(AtomicToUsdc(n)) == Ok(n)
  {
    var f := StripZeros(PadStart(Digits(n % SCALE), 6));
    DigitsValue(n / SCALE);
    StrippedFraction(n);
    PartsOf(Digits(n / SCALE), f);
    DecimalParts(AtomicToUsdc(n));
  }

  /** The printed form is canonical: printing what was parsed and parsing again loses nothing. */
  lemma PrintersAgreeOnValue(s: string)
    requires IsAmount(s)
    ensures ParseUsdcToAtomic(AtomicToUsdc(Micros(s))) == ParseUsdcToAtomic(s)
    ensures UsdcToMicros(MicrosToUsdc(Micros(s))) == UsdcToMicros(s)
  {
    ParsersAgree(s);
    AtomicRoundTrip(Micros(s));
    MicrosRoundTrip(Micros(s));
  }

  /** tools.ts: a suggested budget is cut to the policy maximum. */
  function ClampBudgetToPolicyMax(suggested: string, maximum: string): Result<string, AmountError> {
    match (ParseUsdcMicros(suggested), ParseUsdcMicros(maximum))
    case (Ok(s), Ok(m)) => Ok(if s > m then maximum else suggested)
    case _ => Err(InvalidUsdcAmount)
  }

  /** Clamping keeps the suggested text unless its exact value is the larger, and then returns the other; it refuses others. */
  lemma ClampIsMinimum(suggested: string, maximum: string)
    ensures IsAmount(suggested) && IsAmount(maximum) ==>
              && ClampBudgetToPolicyMax(suggested, maximum).Ok?
              && var clamped := ClampBudgetToPolicyMax(suggested, maximum).value;
                 && (Micros(suggested) <= Micros(maximum) ==> clamped == suggested)
                 && (Micros(suggested) > Micros(maximum) ==> clamped == maximum)
    ensures !(IsAmount(suggested) && IsAmount(maximum)) ==> ClampBudgetToPolicyMax(suggested, maximum).Err?
  {
    ParsersAgree(suggested);
    ParsersAgree(maximum);
  }
}
