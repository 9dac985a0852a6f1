/** Section 6 of RFC 8259: every way to write a number is read as its exact value, the printed way among them. */
module JsonNumbers {
  import opened Basics
  import opened SortedEntries
  import opened Json
  import opened Numbers
  import Decimal

  predicate Digits(t: Text) {
    forall i | 0 <= i < |t| :: IsDigit(t[i])
  }

  /** The grammar of section 6, apart from the minus sign. */
  predicate Grammatical(w: Written) {
    && w.whole != [] && Digits(w.whole) && (w.whole[0] == ZERO ==> |w.whole| == 1)
    && Digits(w.fraction) && Digits(w.exponent)
    && (w.mark == LOWER_E || w.mark == UPPER_E) && (w.sign == [] || w.sign == [PLUS] || w.sign == [MINUS])
  }

  function ExponentOf(w: Written): int
    requires Digits(w.exponent)
  {
    if w.exponent == [] then 0 else if w.sign == [MINUS] then -(NumValue(w.exponent) as int) else NumValue(w.exponent)
  }

  /** All digits before the exponent as one number, times ten to the exponent less the count of fraction digits. */
  function TokenOf(w: Written): Token
    requires Grammatical(w)
  {
    Tokened(w.whole, w.fraction, ExponentOf(w))
  }

  lemma {:induction false} NatTextSpec(n: nat)
    ensures var t := NatText(n);
            && t != [] && (forall i | 0 <= i < |t| :: IsDigit(t[i]))
            && NumValue(t) == n
            && (t[0] == ZERO ==> |t| == 1)
            && (n == 0 <==> t[0] == ZERO)
  {
    if n >= 10 {
      NatTextSpec(n / 10);
      assert NatText(n)[..|NatText(n)| - 1] == NatText(n / 10);
    }
  }

  lemma CountDigits(t: Text, rest: Text)
    requires (forall i | 0 <= i < |t| :: IsDigit(t[i])) && (rest != [] ==> !IsDigit(rest[0]))
    ensures DigitCount(t + rest) == |t|
  {
    var s := t + rest;
    assert forall i | 0 <= i < |t| :: s[i] == t[i];
    assert rest != [] ==> s[|t|] == rest[0];
  }

  /** What may follow a value: nothing, or a character that does not continue a number. */
  predicate Delimited(rest: Text) {
    rest == [] || (!IsDigit(rest[0]) && rest[0] !in {DOT, LOWER_E, UPPER_E})
  }

  lemma Associative(a: Text, b: Text, c: Text)
    ensures (a + b) + c == a + (b + c)
  {
  }

  lemma DigitsThen(d: Text, rest: Text)
    requires Digits(d) && (rest != [] ==> !IsDigit(rest[0]))
    ensures DigitCount(d + rest) == |d| && (d + rest)[..|d|] == d && (d + rest)[|d|..] == rest
  {
    CountDigits(d, rest);
  }

  lemma PlainExponent(w: Written, rest: Text)
    requires Grammatical(w) && Delimited(rest) && w.exponent != [] && w.sign == []
    ensures ParseExponent([w.mark] + (w.exponent + rest)) == Some(Parsed(ExponentOf(w), rest))
  {
    var s := [w.mark] + (w.exponent + rest);
    DigitsThen(w.exponent, rest);
    assert s[1..] == w.exponent + rest && (w.exponent + rest)[0] == w.exponent[0];
  }

  lemma SignedExponent(w: Written, rest: Text)
    requires Grammatical(w) && Delimited(rest) && w.exponent != [] && w.sign != []
    ensures ParseExponent([w.mark] + (w.sign + (w.exponent + rest))) == Some(Parsed(ExponentOf(w), rest))
  {
    var t := w.sign + (w.exponent + rest);
    DigitsThen(w.exponent, rest);
    assert ([w.mark] + t)[1..] == t && t[1..] == w.exponent + rest && t[0] == w.sign[0];
  }

  lemma ReadsExponent(w: Written, rest: Text)
    requires Grammatical(w) && Delimited(rest)
    ensures ParseExponent(ExponentText(w) + rest) == Some(Parsed(ExponentOf(w), rest))
  {
    if w.exponent == [] {
      assert ExponentText(w) + rest == rest;
    } else if w.sign == [] {
      assert ExponentText(w) + rest == [w.mark] + (w.exponent + rest);
      PlainExponent(w, rest);
    } else {
      Regroup([w.mark], w.sign, w.exponent, rest);
      SignedExponent(w, rest);
    }
  }

  lemma Regroup(a: Text, b: Text, c: Text, d: Text)
    ensures a + b + c + d == a + (b + (c + d))
  {
  }

  lemma ReadsFraction(w: Written, after: Text)
    requires Grammatical(w) && (after != [] ==> !IsDigit(after[0]) && after[0] != DOT)
    ensures ParseFraction(FractionText(w) + after) == Some(Parsed(w.fraction, after))
  {
    if w.fraction == [] {
      assert FractionText(w) + after == after;
    } else {
      assert FractionText(w) + after == [DOT] + (w.fraction + after);
      assert ([DOT] + (w.fraction + after))[1..] == w.fraction + after;
      DigitsThen(w.fraction, after);
    }
  }

  lemma ExponentStart(w: Written, rest: Text)
    requires Grammatical(w) && Delimited(rest)
    ensures var after := ExponentText(w) + rest; after != [] ==> !IsDigit(after[0]) && after[0] != DOT
    ensures var s := FractionText(w) + (ExponentText(w) + rest); s != [] ==> !IsDigit(s[0])
  {
  }

  lemma ReadsWhole(whole: Text, after: Text)
    requires whole != [] && (whole[0] == ZERO ==> |whole| == 1) && Digits(whole)
    requires after != [] ==> !IsDigit(after[0])
    ensures ParseUnsigned(whole + after) == ParseTail(whole, after)
  {
    DigitsThen(whole, after);
    assert (whole + after)[0] == whole[0];
  }

  lemma ReadsTail(w: Written, rest: Text)
    requires Grammatical(w) && Delimited(rest)
    ensures ParseTail(w.whole, FractionText(w) + (ExponentText(w) + rest)) == Some(Parsed(TokenOf(w), rest))
  {
    ExponentStart(w, rest);
    ReadsFraction(w, ExponentText(w) + rest);
    ReadsExponent(w, rest);
  }

  /** Every grammatical number is read as the token it writes, and leaves what follows. */
  lemma ReadsWritten(w: Written, rest: Text)
    requires Grammatical(w) && Delimited(rest)
    ensures ParseUnsigned(NumberText(w) + rest) == Some(Parsed(TokenOf(w), rest))
  {
    Associative(w.whole, FractionText(w) + ExponentText(w), rest);
    Associative(FractionText(w), ExponentText(w), rest);
    ExponentStart(w, rest);
    ReadsWhole(w.whole, FractionText(w) + (ExponentText(w) + rest));
    ReadsTail(w, rest);
  }

  // ----- the value of a number -----

  lemma NothingToSkip(s: Text)
    requires s != [] && !IsSpace(s[0])
    ensures SkipSpace(s) == s
  {
  }

  lemma ParsesAsNumber(s: Text)
    requires s != [] && (s[0] == MINUS || IsDigit(s[0]))
    ensures ParseValue(s) == ParseNumber(s)
  {
    NothingToSkip(s);
    assert s[0] !in {QUOTE, LBRACKET, LBRACE, LOWER_N, LOWER_T, LOWER_F};
  }

  function SignText(negative: bool): Text {
    if negative then [MINUS] else []
  }

  function ValueOf(negative: bool, w: Written): Num
    requires Grammatical(w)
  {
    Normalize(negative, TokenOf(w).mantissa, TokenOf(w).exponent)
  }

  lemma NumberStart(w: Written, negative: bool, rest: Text)
    requires Grammatical(w)
    ensures var s := SignText(negative) + NumberText(w) + rest;
            s != [] && s[0] == if negative then MINUS else w.whole[0]
  {
  }

  lemma ReadsSigned(negative: bool, s: Text, t: Token, rest: Text)
    requires s != [] && IsDigit(s[0]) && ParseUnsigned(s) == Some(Parsed(t, rest))
    ensures ParseNumber(SignText(negative) + s) ==
              Some(Parsed(JNum(Normalize(negative, t.mantissa, t.exponent)), rest))
  {
    if negative {
      assert ([MINUS] + s)[1..] == s;
    } else {
      assert [] + s == s;
    }
  }

  lemma SignedNumberReads(w: Written, negative: bool, rest: Text)
    requires Grammatical(w) && Delimited(rest)
    ensures ParseNumber(SignText(negative) + NumberText(w) + rest) == Some(Parsed(JNum(ValueOf(negative, w)), rest))
  {
    ReadsWritten(w, rest);
    StartsWithDigit(w, rest);
    Associative(SignText(negative), NumberText(w), rest);
    ReadsSigned(negative, NumberText(w) + rest, TokenOf(w), rest);
  }

  lemma StartsWithDigit(w: Written, rest: Text)
    requires Grammatical(w)
    ensures NumberText(w) + rest != [] && IsDigit((NumberText(w) + rest)[0])
  {
  }

  /** A number by itself is parsed as the double that its exact value is read as. */
  lemma ParsesToValue(double: Num -> Num, negative: bool, w: Written)
    requires Grammatical(w)
    ensures Parse(double, SignText(negative) + NumberText(w)) == Some(JNum(double(ValueOf(negative, w))))
  {
    var s := SignText(negative) + NumberText(w);
    SignedNumberReads(w, negative, []);
    NumberStart(w, negative, []);
    assert s + [] == s;
    ParsesWhole(double, s, ValueOf(negative, w));
  }

  lemma ParsesWhole(double: Num -> Num, s: Text, x: Num)
    requires s != [] && (s[0] == MINUS || IsDigit(s[0])) && ParseNumber(s) == Some(Parsed(JNum(x), []))
    ensures Parse(double, s) == Some(JNum(double(x)))
  {
    ParsesAsNumber(s);
  }

  /** Two notations are read as one exact value when, and only when, they have it; then they are parsed alike. */
  lemma NotationsReadAlike(double: Num -> Num, negative: bool, w: Written, v: Written)
    requires Grammatical(w) && Grammatical(v)
    ensures var (t, u) := (TokenOf(w), TokenOf(v));
            && (ValueOf(negative, w) == ValueOf(negative, v) <==>
                  SameValue(t.mantissa, t.exponent, u.mantissa, u.exponent))
            && (SameValue(t.mantissa, t.exponent, u.mantissa, u.exponent) ==>
                  Parse(double, SignText(negative) + NumberText(w)) == Parse(double, SignText(negative) + NumberText(v)))
  {
    var t, u := TokenOf(w), TokenOf(v);
    NormalizeDecidesValue(t.mantissa, t.exponent, u.mantissa, u.exponent);
    SignedValues(t, u);
    ParsesToValue(double, negative, w);
    ParsesToValue(double, negative, v);
  }

  lemma SignedValues(t: Token, u: Token)
    ensures Normalize(true, t.mantissa, t.exponent) == Normalize(true, u.mantissa, u.exponent) <==>
            Normalize(false, t.mantissa, t.exponent) == Normalize(false, u.mantissa, u.exponent)
  {
    NormalizeSign(t.mantissa, t.exponent);
    NormalizeSign(u.mantissa, u.exponent);
    NormalizedIsPositive(t.mantissa, t.exponent);
    NormalizedIsPositive(u.mantissa, u.exponent);
    ZeroNormalizes(t.mantissa, t.exponent);
    ZeroNormalizes(u.mantissa, u.exponent);
  }

  // ----- printed numbers -----

  lemma {:induction false} NumValueConcat(a: Text, b: Text)
    requires Digits(a) && Digits(b)
    ensures NumValue(a + b) == NumValue(a) * Decimal.Pow10(|b|) + NumValue(b)
  {
    if b == [] {
      assert a + b == a;
    } else {
      var b' := b[..|b| - 1];
      NumValueConcat(a, b');
      assert (a + b)[..|a + b| - 1] == a + b' && (a + b)[|a + b| - 1] == b[|b| - 1];
      Decimal.TenTimes(NumValue(a), Decimal.Pow10(|b'|), NumValue(b'));
    }
  }

  lemma {:induction false} NumValueZeros(n: nat)
    ensures NumValue(ZeroText(n)) == 0
  {
    if n > 0 {
      NumValueZeros(n - 1);
      assert ZeroText(n)[..n - 1] == ZeroText(n - 1);
    }
  }

  lemma PlainDenotes(whole: Text, fraction: Text, v: nat)
    requires whole != [] && Digits(whole) && Digits(fraction) && (whole[0] == ZERO ==> |whole| == 1)
    requires NumValue(whole + fraction) == v
    ensures Grammatical(Plain(whole, fraction)) && TokenOf(Plain(whole, fraction)) == Token(v, -|fraction|)
  {
  }

  lemma PaddedDenotes(d: Text, n: nat)
    requires Digits(d) && d != [] && d[0] != ZERO && |d| <= n
    ensures Grammatical(Padded(d, n)) && TokenOf(Padded(d, n)) == Token(NumValue(d) * Decimal.Pow10(n - |d|), 0)
  {
    var z := ZeroText(n - |d|);
    NumValueConcat(d, z);
    NumValueZeros(n - |d|);
    assert (d + z)[0] == d[0] && d + z + [] == d + z;
    PlainDenotes(d + z, [], NumValue(d) * Decimal.Pow10(n - |d|));
  }

  lemma SplitDigits(d: Text, n: nat)
    requires Digits(d) && n <= |d|
    ensures Digits(d[..n]) && Digits(d[n..]) && NumValue(d[..n] + d[n..]) == NumValue(d)
  {
    assert d[..n] + d[n..] == d;
  }

  lemma PointedDenotes(d: Text, n: nat)
    requires Digits(d) && 0 < n <= |d| && d[0] != ZERO
    ensures Grammatical(Pointed(d, n)) && TokenOf(Pointed(d, n)) == Token(NumValue(d), n - |d|)
  {
    SplitDigits(d, n);
    PlainDenotes(d[..n], d[n..], NumValue(d));
  }

  lemma LeadingZeros(d: Text, k: nat)
    requires Digits(d)
    ensures Digits(ZeroText(k) + d) && |ZeroText(k) + d| == k + |d| && NumValue(ZeroText(k) + d) == NumValue(d)
  {
    NumValueConcat(ZeroText(k), d);
    NumValueZeros(k);
  }

  lemma ZeroFirst(zero: Text, fraction: Text)
    requires |zero| == 1 && zero[0] == ZERO && Digits(fraction)
    ensures Digits(zero) && NumValue(zero + fraction) == NumValue(fraction)
  {
    assert zero[..0] == [];
    NumValueConcat(zero, fraction);
  }

  lemma ZeroThenDenotes(zero: Text, fraction: Text)
    requires |zero| == 1 && zero[0] == ZERO && Digits(fraction)
    ensures Grammatical(Plain(zero, fraction)) && TokenOf(Plain(zero, fraction)) == Token(NumValue(fraction), -|fraction|)
  {
    ZeroFirst(zero, fraction);
    PlainDenotes(zero, fraction, NumValue(fraction));
  }

  lemma SmallDenotes(d: Text, n: int)
    requires Digits(d) && n <= 0
    ensures Grammatical(Small(d, n)) && TokenOf(Small(d, n)) == Token(NumValue(d), n - |d|)
  {
    LeadingZeros(d, -n);
    ZeroThenDenotes([ZERO], ZeroText(-n) + d);
  }

  /** The exponent after the e is the place of the point less one. */
  lemma ScientificExponent(d: Text, n: int)
    requires d != []
    ensures Digits(Scientific(d, n).exponent) && ExponentOf(Scientific(d, n)) == n - 1
  {
    NatTextSpec(if n >= 1 then n - 1 else 1 - n);
    assert Scientific(d, n).sign[0] == if n >= 1 then PLUS else MINUS;
  }

  lemma ScientificDenotes(d: Text, n: int)
    requires Digits(d) && d != [] && d[0] != ZERO
    ensures Grammatical(Scientific(d, n)) && TokenOf(Scientific(d, n)) == Token(NumValue(d), n - |d|)
  {
    ScientificExponent(d, n);
    SplitDigits(d, 1);
    TokenIs(Scientific(d, n), NumValue(d), n - 1);
  }

  lemma TokenIs(w: Written, v: nat, e: int)
    requires Grammatical(w) && NumValue(w.whole + w.fraction) == v && ExponentOf(w) == e
    ensures TokenOf(w) == Token(v, e - |w.fraction|)
  {
  }

  /** The token denotes v * 10^e, with k zeros written out. */
  predicate Stands(t: Token, v: nat, e: int, k: nat) {
    t == Token(v * Decimal.Pow10(k), e - k)
  }

  lemma StandsAsIs(t: Token, v: nat, e: int)
    requires t == Token(v, e)
    ensures Stands(t, v, e, 0)
  {
    assert v * Decimal.Pow10(0) == v;
  }

  /** In each of the layouts the parts denote the digits, with the point where it belongs. */
  lemma LaidOutDenotes(d: Text, n: int) returns (k: nat)
    requires Digits(d) && d != [] && d[0] != ZERO
    ensures Grammatical(LaidOut(d, n)) && Stands(TokenOf(LaidOut(d, n)), NumValue(d), n - |d|, k)
  {
    if |d| <= n <= 21 {
      PaddedDenotes(d, n);
      k := n - |d|;
    } else {
      if 0 < n <= 21 {
        PointedDenotes(d, n);
      } else if -6 < n <= 0 {
        SmallDenotes(d, n);
      } else {
        ScientificDenotes(d, n);
      }
      StandsAsIs(TokenOf(LaidOut(d, n)), NumValue(d), n - |d|);
      k := 0;
    }
  }

  lemma ZeroDenotes()
    ensures Grammatical(Plain([ZERO], [])) && TokenOf(Plain([ZERO], [])) == Token(0, 0)
  {
    assert [ZERO] + [] == [ZERO] && [ZERO][..0] == [];
    assert NumValue([ZERO]) == 0;
  }

  /** What is printed denotes the number itself. */
  lemma PrintedValue(x: Num)
    ensures Grammatical(AsWritten(x)) && ValueOf(x.negative, AsWritten(x)) == x
  {
    if x.digits == 0 {
      ZeroDenotes();
    } else {
      var d := NatText(x.digits);
      NatTextSpec(x.digits);
      var k := LaidOutDenotes(d, |d| + x.exponent);
      assert AsWritten(x) == LaidOut(d, |d| + x.exponent);
      StandsForNumber(TokenOf(AsWritten(x)), x, k);
    }
  }

  lemma StandsForNumber(t: Token, x: Num, k: nat)
    requires x.digits > 0 && Stands(t, x.digits, x.exponent, k)
    ensures Normalize(x.negative, t.mantissa, t.exponent) == x
  {
    NormalizeScaled(x, k);
  }

  /** A printed number, with whatever follows it, is read as that number. */
  lemma PrintedNumberReads(x: Num, rest: Text)
    requires Delimited(rest)
    ensures ParseNumber(NumText(x) + rest) == Some(Parsed(JNum(x), rest))
  {
    PrintedValue(x);
    SignedNumberReads(AsWritten(x), x.negative, rest);
  }
}
