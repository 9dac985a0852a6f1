/** The very text canonicalStringify yields, said without its functions. */
module CanonicalText {
  import opened SortedEntries
  import opened Numbers
  import opened Json
  import opened JsonNumbers
  import opened Schemas
  import Decimal

  // ----- lists and objects -----

  /** Parts with a comma between each two. */
  function Separated(parts: seq<Text>): Text {
    if parts == [] then []
    else if |parts| == 1 then parts[0]
    else Separated(parts[..|parts| - 1]) + Ascii(",") + parts[|parts| - 1]
  }

  lemma {:induction false} SeparatedFromFront(first: Text, rest: seq<Text>)
    requires rest != []
    ensures Separated([first] + rest) == first + Ascii(",") + Separated(rest)
  {
    var all, init, last := [first] + rest, rest[..|rest| - 1], rest[|rest| - 1];
    assert all[..|all| - 1] == [first] + init && all[|all| - 1] == last;
    if init == [] {
      assert rest == [last] && [first] + init == [first];
    } else {
      SeparatedFromFront(first, init);
      assert Separated(rest) == Separated(init) + Ascii(",") + last;
      Regrouped(first + Ascii(","), Separated(init), Ascii(","), last);
    }
  }

  lemma Regrouped(a: Text, b: Text, c: Text, d: Text)
    ensures a + b + c + d == a + (b + c + d)
  {
  }

  lemma {:induction false} JoinedIsSeparated(parts: seq<Text>)
    ensures Joined(parts) == Separated(parts)
  {
    if |parts| > 1 {
      JoinedIsSeparated(parts[1..]);
      SeparatedFromFront(parts[0], parts[1..]);
      assert parts == [parts[0]] + parts[1..];
      assert Ascii(",") == [COMMA];
    }
  }

  lemma Marks()
    ensures Ascii(",") == [COMMA] && Ascii(":") == [COLON] && Ascii("\"") == [QUOTE]
    ensures Ascii("[") == [LBRACKET] && Ascii("]") == [RBRACKET] && Ascii("{") == [LBRACE] && Ascii("}") == [RBRACE]
  {
  }

  lemma ListForm(es: seq<Json>)
    ensures Print(JArr(es)) == [LBRACKET] + Joined(PrintAll(es)) + [RBRACKET]
  {
  }

  lemma ObjectForm(ms: seq<Entry<Json>>)
    ensures Print(JObj(ms)) == [LBRACE] + Joined(MemberTexts(Sort(PrintMembers(ms)))) + [RBRACE]
  {
  }

  /** The elements in their order, between brackets. */
  lemma PrintedList(es: seq<Json>, texts: seq<Text>)
    requires |texts| == |es| && forall i | 0 <= i < |es| :: texts[i] == Print(es[i])
    ensures Print(JArr(es)) == Ascii("[") + Separated(texts) + Ascii("]")
  {
    Marks();
    ListForm(es);
    assert PrintAll(es) == texts;
    JoinedIsSeparated(texts);
  }

  lemma SameEntriesPrinted(ms: seq<Entry<Json>>, arranged: seq<Entry<Json>>)
    requires forall x :: x in arranged <==> x in ms
    ensures forall p :: p in PrintMembers(arranged) <==> p in PrintMembers(ms)
  {
    forall p
      ensures p in PrintMembers(arranged) <==> p in PrintMembers(ms)
    {
      PrintedEntry(ms, arranged, p);
      PrintedEntry(arranged, ms, p);
    }
  }

  lemma PrintedEntry(ms: seq<Entry<Json>>, arranged: seq<Entry<Json>>, p: Entry<Text>)
    requires forall x :: x in ms ==> x in arranged
    ensures p in PrintMembers(ms) ==> p in PrintMembers(arranged)
  {
    if p in PrintMembers(ms) {
      var i :| 0 <= i < |ms| && PrintMembers(ms)[i] == p;
      assert ms[i] in arranged;
      var j :| 0 <= j < |arranged| && arranged[j] == ms[i];
      assert PrintMembers(arranged)[j] == p;
    }
  }

  lemma TextsOfMembers(ps: seq<Entry<Text>>, ms: seq<Entry<Json>>, texts: seq<Text>)
    requires |ps| == |ms| == |texts| && forall i | 0 <= i < |ms| :: ps[i] == Entry(ms[i].key, Print(ms[i].val))
    requires forall i | 0 <= i < |texts| :: texts[i] == Quoted(ms[i].key) + Ascii(":") + Print(ms[i].val)
    ensures MemberTexts(ps) == texts
  {
    Marks();
  }

  /** The members in ascending order of their keys by code units, each as key, colon and value, between braces. */
  lemma PrintedObject(ms: seq<Entry<Json>>, arranged: seq<Entry<Json>>, texts: seq<Text>)
    requires DistinctKeys(ms) && Ascending(arranged) && forall x :: x in arranged <==> x in ms
    requires |texts| == |arranged|
    requires forall i | 0 <= i < |texts| :: texts[i] == Quoted(arranged[i].key) + Ascii(":") + Print(arranged[i].val)
    ensures Print(JObj(ms)) == Ascii("{") + Separated(texts) + Ascii("}")
  {
    var ps := PrintMembers(arranged);
    Marks();
    ObjectForm(ms);
    SameEntriesPrinted(ms, arranged);
    AscendingIsSorted(PrintMembers(ms), ps);
    TextsOfMembers(ps, arranged, texts);
    JoinedIsSeparated(texts);
  }

  // ----- strings -----

  function Hex(d: nat): Unit
    requires d < 16
  {
    Ascii("0123456789abcdef")[d]
  }

  function Coded(u: Unit): Text {
    Ascii("\\u") + [Hex(u / 4096), Hex(u / 256 % 16), Hex(u / 16 % 16), Hex(u % 16)]
  }

  /** The unit at a place of a string, as it is printed. */
  function Shown(s: Text, i: nat): Text
    requires i < |s|
  {
    var u := s[i];
    if 0xD800 <= u < 0xDC00 then if i + 1 < |s| && 0xDC00 <= s[i + 1] < 0xE000 then [u] else Coded(u)
    else if 0xDC00 <= u < 0xE000 then if i > 0 && 0xD800 <= s[i - 1] < 0xDC00 then [u] else Coded(u)
    else if u == 0x22 then Ascii("\\\"")
    else if u == 0x5C then Ascii("\\\\")
    else if u == 0x08 then Ascii("\\b")
    else if u == 0x09 then Ascii("\\t")
    else if u == 0x0A then Ascii("\\n")
    else if u == 0x0C then Ascii("\\f")
    else if u == 0x0D then Ascii("\\r")
    else if u < 0x20 then Coded(u)
    else [u]
  }

  function ShownFrom(s: Text, i: nat): Text
    requires i <= |s|
    decreases |s| - i
  {
    if i == |s| then [] else Shown(s, i) + ShownFrom(s, i + 1)
  }

  lemma HexIsDigit(d: nat)
    requires d < 16
    ensures Hex(d) == HexDigit(d)
  {
  }

  lemma CodedIsEscape(u: Unit)
    ensures Coded(u) == UnicodeEscape(u)
  {
    HexIsDigit(u / 4096);
    HexIsDigit(u / 256 % 16);
    HexIsDigit(u / 16 % 16);
    HexIsDigit(u % 16);
    assert Ascii("\\u") == [BACKSLASH, LOWER_U];
  }

  lemma ShortEscapes()
    ensures Ascii("\\\"") == [BACKSLASH, QUOTE] && Ascii("\\\\") == [BACKSLASH, BACKSLASH]
    ensures Ascii("\\b") == [BACKSLASH, LOWER_B] && Ascii("\\t") == [BACKSLASH, LOWER_T] && Ascii("\\n") == [BACKSLASH, LOWER_N]
    ensures Ascii("\\f") == [BACKSLASH, LOWER_F] && Ascii("\\r") == [BACKSLASH, LOWER_R]
  {
  }

  /** What one unit is printed as, unless it belongs to a surrogate pair. */
  lemma ShownAlone(s: Text, i: nat)
    requires i < |s| && !(i + 1 < |s| && IsHigh(s[i]) && IsLow(s[i + 1])) && !(i > 0 && IsHigh(s[i - 1]) && IsLow(s[i]))
    ensures Shown(s, i) == if IsHigh(s[i]) || IsLow(s[i]) then UnicodeEscape(s[i]) else EscapeUnit(s[i])
  {
    CodedIsEscape(s[i]);
    ShortEscapes();
  }

  lemma ShownPair(s: Text, i: nat)
    requires i + 1 < |s| && IsHigh(s[i]) && IsLow(s[i + 1])
    ensures Shown(s, i) == [s[i]] && Shown(s, i + 1) == [s[i + 1]]
  {
  }

  lemma EscapedPair(rest: Text)
    requires |rest| > 1 && IsHigh(rest[0]) && IsLow(rest[1])
    ensures Escaped(rest) == [rest[0]] + ([rest[1]] + Escaped(rest[2..]))
  {
    PairInFront(rest[0], rest[1], Escaped(rest[2..]));
    assert rest[..2] == [rest[0], rest[1]];
  }

  lemma PairInFront(a: Unit, b: Unit, t: Text)
    ensures [a, b] + t == [a] + ([b] + t)
  {
  }

  lemma EscapedAlone(rest: Text)
    requires rest != [] && !(|rest| > 1 && IsHigh(rest[0]) && IsLow(rest[1]))
    ensures Escaped(rest) == (if IsHigh(rest[0]) || IsLow(rest[0]) then UnicodeEscape(rest[0]) else EscapeUnit(rest[0]))
                             + Escaped(rest[1..])
  {
  }

  /** From a place that does not split a surrogate pair, the escaped rest is what is shown of it. */
  lemma {:induction false} EscapedIsShown(s: Text, i: nat)
    requires i <= |s| && (0 < i < |s| ==> !(IsHigh(s[i - 1]) && IsLow(s[i])))
    ensures Escaped(s[i..]) == ShownFrom(s, i)
    decreases |s| - i
  {
    if i < |s| {
      var rest := s[i..];
      if IsHigh(s[i]) && i + 1 < |s| && IsLow(s[i + 1]) {
        EscapedIsShown(s, i + 2);
        EscapedPair(rest);
        ShownPair(s, i);
        assert rest[2..] == s[i + 2..];
      } else {
        EscapedIsShown(s, i + 1);
        EscapedAlone(rest);
        ShownAlone(s, i);
        assert rest[1..] == s[i + 1..];
      }
    }
  }

  /** A string is printed between quotes, each unit as it is shown. */
  lemma PrintedString(s: Text)
    ensures Print(JStr(s)) == Ascii("\"") + ShownFrom(s, 0) + Ascii("\"")
    ensures Quoted(s) == Print(JStr(s))
  {
    EscapedIsShown(s, 0);
    Marks();
    assert s[0..] == s;
  }

  lemma PrintedWords()
    ensures Print(JNull) == Ascii("null") && Print(JUndefined) == Ascii("null")
    ensures Print(JBool(true)) == Ascii("true") && Print(JBool(false)) == Ascii("false")
  {
  }

  // ----- numbers -----

  /** The text of a number whose digits are d, with the point before place n of them; the exponent's digits are given. */
  predicate LaidOutAs(t: Text, d: Text, n: int, e: Text) {
    && d != []
    && (|d| <= n <= 21 ==> t == d + ZeroText(n - |d|))
    && (0 < n < |d| && n <= 21 ==> t == d[..n] + Ascii(".") + d[n..])
    && (-6 < n <= 0 ==> t == Ascii("0.") + ZeroText(-n) + d)
    && (n > 21 || n <= -6 ==>
          t == d[..1] + (if |d| > 1 then Ascii(".") + d[1..] else []) + Ascii(if n > 21 then "e+" else "e-") + e)
  }

  lemma NumberMarks()
    ensures Ascii(".") == [DOT] && Ascii("0.") == [ZERO, DOT]
    ensures Ascii("e+") == [LOWER_E, PLUS] && Ascii("e-") == [LOWER_E, MINUS] && Ascii("-") == [MINUS]
  {
  }

  lemma PlainText(whole: Text, fraction: Text)
    ensures NumberText(Plain(whole, fraction)) == if fraction == [] then whole else whole + [DOT] + fraction
  {
  }

  lemma ScientificText(d: Text, n: int)
    requires d != [] && (n > 21 || n <= -6)
    ensures var e := NatText(if n >= 1 then n - 1 else 1 - n);
            NumberText(Scientific(d, n)) ==
              d[..1] + (if |d| > 1 then [DOT] + d[1..] else []) + [LOWER_E, if n > 21 then PLUS else MINUS] + e
  {
    var e, sign := NatText(if n >= 1 then n - 1 else 1 - n), if n > 21 then PLUS else MINUS;
    assert [LOWER_E] + [sign] + e == [LOWER_E, sign] + e;
    var f: Text := if |d| > 1 then [DOT] + d[1..] else [];
    assert FractionText(Scientific(d, n)) == f;
    Associative(d[..1], f, [LOWER_E, sign] + e);
    Associative(d[..1] + f, [LOWER_E, sign], e);
  }

  lemma SmallText(d: Text, n: int)
    requires d != [] && n <= 0
    ensures NumberText(Small(d, n)) == [ZERO, DOT] + ZeroText(-n) + d
  {
    PlainText([ZERO], ZeroText(-n) + d);
    Associative([ZERO, DOT], ZeroText(-n), d);
    assert [ZERO] + [DOT] == [ZERO, DOT];
  }

  lemma LaidOutText(d: Text, n: int)
    requires d != []
    ensures LaidOutAs(NumberText(LaidOut(d, n)), d, n, NatText(if n >= 1 then n - 1 else 1 - n))
  {
    NumberMarks();
    if |d| <= n <= 21 {
      PlainText(d + ZeroText(n - |d|), []);
    } else if 0 < n <= 21 {
      PlainText(d[..n], d[n..]);
    } else if -6 < n <= 0 {
      SmallText(d, n);
    } else {
      ScientificText(d, n);
    }
  }

  /**
   A number is printed from its digits: a minus sign if negative, then in one of four layouts, by where the point falls.
   */
  lemma PrintedNumber(x: Num, d: Text, e: Text) returns (t: Text)
    requires x.digits > 0 && d == NatText(x.digits)
    requires var n := |d| + x.exponent; e == NatText(if n >= 1 then n - 1 else 1 - n)
    ensures LaidOutAs(t, d, |d| + x.exponent, e)
    ensures Print(JNum(x)) == if x.negative then Ascii("-") + t else t
  {
    t := LaidOutDigits(d, |d| + x.exponent, e);
    MinusMark();
    NumberForm(x);
  }

  lemma LaidOutDigits(d: Text, n: int, e: Text) returns (t: Text)
    requires d != [] && e == NatText(if n >= 1 then n - 1 else 1 - n)
    ensures t == NumberText(LaidOut(d, n)) && LaidOutAs(t, d, n, e)
  {
    t := NumberText(LaidOut(d, n));
    LaidOutText(d, n);
  }

  lemma MinusMark()
    ensures Ascii("-") == [MINUS]
  {
  }

  lemma NumberForm(x: Num)
    requires x.digits > 0
    ensures var t := NumberText(LaidOut(NatText(x.digits), |NatText(x.digits)| + x.exponent));
            Print(JNum(x)) == if x.negative then [MINUS] + t else t
  {
    var t := NumberText(LaidOut(NatText(x.digits), |NatText(x.digits)| + x.exponent));
    assert [] + t == t;
  }

  lemma PrintedZero()
    ensures Print(JNum(NOUGHT)) == Ascii("0")
  {
    assert Ascii("0") == [ZERO];
    PlainText([ZERO], []);
  }

  /** The digits of a number below ten to the k are at most k, and the other way round. */
  lemma {:induction false} DigitsBelow(m: nat, k: nat)
    requires m > 0
    ensures m < Decimal.Pow10(k) <==> |NatText(m)| <= k
    decreases m
  {
    if k > 0 {
      Decimal.Pow10Step(k);
      if m >= 10 {
        DigitsBelow(m / 10, k - 1);
      } else {
        assert Decimal.Pow10(k - 1) >= 1;
      }
    }
  }

  /** The exponent is printed exactly from 10^21 on, and below 10^-6. */
  lemma ExponentFrom(x: Num)
    requires x.digits > 0
    ensures |NatText(x.digits)| + x.exponent > 21 <==>
              if x.exponent >= 0 then x.digits * Decimal.Pow10(x.exponent) >= Decimal.Pow10(21)
              else x.digits >= Decimal.Pow10(21 - x.exponent)
    ensures |NatText(x.digits)| + x.exponent <= -6 <==>
              x.exponent <= -7 && x.digits < Decimal.Pow10(-6 - x.exponent)
  {
    if x.exponent > 21 {
      HugeNumber(x.digits, 21, x.exponent);
    } else {
      DigitsBelow(x.digits, 21 - x.exponent);
      if x.exponent >= 0 {
        Decimal.Pow10Add(21 - x.exponent, x.exponent);
        Scales(x.digits, Decimal.Pow10(21 - x.exponent), Decimal.Pow10(x.exponent));
      }
    }
    if x.exponent <= -6 {
      DigitsBelow(x.digits, -6 - x.exponent);
    }
  }

  lemma HugeNumber(d: nat, k: nat, e: nat)
    requires d > 0 && e > k
    ensures d * Decimal.Pow10(e) >= Decimal.Pow10(k)
  {
    Decimal.Pow10Add(k, e - k);
    Decimal.AtLeast(d, Decimal.Pow10(e));
    Decimal.AtLeast(Decimal.Pow10(e - k), Decimal.Pow10(k));
    assert Decimal.Pow10(k) * Decimal.Pow10(e - k) == Decimal.Pow10(e - k) * Decimal.Pow10(k);
  }

  lemma Scales(a: nat, b: nat, p: nat)
    requires p > 0
    ensures a < b <==> a * p < b * p
  {
    if a < b {
      assert (b - a) * p == b * p - a * p;
      Decimal.AtLeast(b - a, p);
    } else {
      assert (a - b) * p == a * p - b * p;
      assert (a - b) * p >= 0;
    }
  }
}
