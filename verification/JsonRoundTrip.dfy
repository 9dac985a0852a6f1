/** Parsing inverts the canonical printer, whatever follows the printed text. */
module JsonRoundTrip {
  import opened Basics
  import opened SortedEntries
  import opened Json
  import opened JsonNumbers
  import opened Numbers

  /** No object repeats a key. */
  ghost predicate WellFormed(v: Json) {
    match v
    case JArr(es) => forall i | 0 <= i < |es| :: WellFormed(es[i])
    case JObj(ms) => DistinctKeys(ms) && forall i | 0 <= i < |ms| :: WellFormed(ms[i].val)
    case _ => true
  }

  /** What is left of a value after printing: null for undefined, members in key order. */
  function Norm(v: Json): Json
    decreases v, 1
  {
    match v
    case JUndefined => JNull
    case JArr(es) => JArr(NormAll(es))
    case JObj(ms) => JObj(Sort(NormMembers(ms)))
    case _ => v
  }

  function NormAll(es: seq<Json>): (r: seq<Json>)
    ensures |r| == |es| && forall i | 0 <= i < |es| :: r[i] == Norm(es[i])
    decreases es, 0
  {
    if es == [] then [] else [Norm(es[0])] + NormAll(es[1..])
  }

  function NormMembers(ms: seq<Entry<Json>>): (r: seq<Entry<Json>>)
    ensures |r| == |ms| && forall i | 0 <= i < |ms| :: r[i] == Entry(ms[i].key, Norm(ms[i].val))
    decreases ms, 0
  {
    if ms == [] then [] else [Entry(ms[0].key, Norm(ms[0].val))] + NormMembers(ms[1..])
  }

  // ----- strings -----

  /** The four hexadecimal digits of a unit add up to it. */
  lemma HexDigitsAddUp(u: Unit)
    ensures u / 4096 < 16 && 4096 * (u / 4096) + 256 * (u / 256 % 16) + 16 * (u / 16 % 16) + u % 16 == u
  {
    var a, b, c := u / 16, u / 256, u / 4096;
    assert b == a / 16 && c == b / 16;
  }

  lemma HexRoundTrip(u: Unit, rest: Text)
    ensures var t := UnicodeEscape(u) + rest;
            |t| >= 6 && t[0] == BACKSLASH && t[1] == LOWER_U && t[6..] == rest && ParseHex4(t[2..6]) == Some(u)
  {
    var t := UnicodeEscape(u) + rest;
    var a, b, c, d := u / 4096, u / 256 % 16, u / 16 % 16, u % 16;
    HexDigitsAddUp(u);
    assert t[2..6] == [HexDigit(a), HexDigit(b), HexDigit(c), HexDigit(d)];
    HexDigitRoundTrip(a);
    HexDigitRoundTrip(b);
    HexDigitRoundTrip(c);
    HexDigitRoundTrip(d);
  }

  lemma HexDigitRoundTrip(d: nat)
    requires d < 16
    ensures HexValue(HexDigit(d)) == Some(d)
  {
  }

  /** One escaped unit is read back as that unit. */
  lemma UnitRoundTrip(u: Unit, rest: Text)
    ensures ParseString(EscapeUnit(u) + rest) == Prefixed(u, ParseString(rest))
  {
    if EscapeUnit(u) == UnicodeEscape(u) {
      UnicodeRoundTrip(u, rest);
    } else {
      ShortRoundTrip(u, rest);
    }
  }

  lemma UnicodeRoundTrip(u: Unit, rest: Text)
    ensures ParseString(UnicodeEscape(u) + rest) == Prefixed(u, ParseString(rest))
  {
    HexRoundTrip(u, rest);
  }

  lemma ShortRoundTrip(u: Unit, rest: Text)
    requires EscapeUnit(u) != UnicodeEscape(u)
    ensures ParseString(EscapeUnit(u) + rest) == Prefixed(u, ParseString(rest))
  {
    var t := EscapeUnit(u) + rest;
    if |EscapeUnit(u)| == 2 {
      assert t[2..] == rest;
    } else {
      assert t[1..] == rest;
    }
  }

  /** A surrogate pair is printed raw and read back unit by unit. */
  lemma PairRoundTrip(high: Unit, low: Unit, tail: Text)
    requires IsHigh(high) && IsLow(low)
    ensures ParseString([high, low] + tail) == Prefixed(high, Prefixed(low, ParseString(tail)))
  {
    var t := [high, low] + tail;
    assert t[1..] == [low] + tail && t[1..][1..] == tail;
  }

  /** Escaped takes its text apart into a head, which reads as the first units, and the rest. */
  lemma EscapedStep(s: Text, after: Text)
    requires s != []
    ensures ParseString(Escaped(s) + after) ==
              if IsHigh(s[0]) && |s| > 1 && IsLow(s[1])
              then Prefixed(s[0], Prefixed(s[1], ParseString(Escaped(s[2..]) + after)))
              else Prefixed(s[0], ParseString(Escaped(s[1..]) + after))
  {
    if IsHigh(s[0]) && |s| > 1 && IsLow(s[1]) {
      assert s[..2] == [s[0], s[1]];
      Associative(s[..2], Escaped(s[2..]), after);
      PairRoundTrip(s[0], s[1], Escaped(s[2..]) + after);
    } else {
      var head := if IsHigh(s[0]) || IsLow(s[0]) then UnicodeEscape(s[0]) else EscapeUnit(s[0]);
      Associative(head, Escaped(s[1..]), after);
      UnitRoundTrip(s[0], Escaped(s[1..]) + after);
      UnicodeRoundTrip(s[0], Escaped(s[1..]) + after);
    }
  }

  lemma {:induction false} StringRoundTrip(s: Text, rest: Text)
    ensures ParseString(Escaped(s) + ([QUOTE] + rest)) == Some(Parsed(s, rest))
  {
    var after := [QUOTE] + rest;
    if s == [] {
      assert Escaped(s) + after == after && after[1..] == rest;
    } else {
      EscapedStep(s, after);
      if IsHigh(s[0]) && |s| > 1 && IsLow(s[1]) {
        StringRoundTrip(s[2..], rest);
        assert s == [s[0]] + ([s[1]] + s[2..]);
      } else {
        StringRoundTrip(s[1..], rest);
        assert s == [s[0]] + s[1..];
      }
    }
  }

  // ----- scalars and brackets -----

  lemma ParsesAsString(s: Text, value: Text, rest: Text)
    requires ParseString(s) == Some(Parsed(value, rest))
    ensures ParseValue([QUOTE] + s) == Some(Parsed(JStr(value), rest))
  {
    var t := [QUOTE] + s;
    assert SkipSpace(t) == t && t[1..] == s;
  }

  lemma ParsesAsArray(s: Text, js: seq<Json>, rest: Text)
    requires s != [] && !IsSpace(s[0])
    requires if s[0] == RBRACKET then js == [] && s == [RBRACKET] + rest
             else ParseElements(s) == Some(Parsed(js, rest))
    ensures ParseValue([LBRACKET] + s) == Some(Parsed(JArr(js), rest))
  {
    var t := [LBRACKET] + s;
    assert SkipSpace(t) == t && t[1..] == s && SkipSpace(s) == s;
    assert ([RBRACKET] + rest)[1..] == rest;
  }

  lemma ParsesAsObject(s: Text, ms: seq<Entry<Json>>, rest: Text)
    requires s != [] && !IsSpace(s[0])
    requires if s[0] == RBRACE then ms == [] && s == [RBRACE] + rest
             else ParseMembers(s) == Some(Parsed(ms, rest))
    ensures ParseValue([LBRACE] + s) == Some(Parsed(JObj(LastWins(ms)), rest))
  {
    var t := [LBRACE] + s;
    assert SkipSpace(t) == t && t[1..] == s && SkipSpace(s) == s;
    assert ([RBRACE] + rest)[1..] == rest;
  }

  // ----- values -----

  /** Text t reads as j in every context, and starts with neither space nor a closing bracket. */
  ghost predicate Reads(t: Text, j: Json) {
    && t != [] && !IsSpace(t[0]) && t[0] != RBRACKET && t[0] != RBRACE
    && forall rest | Delimited(rest) :: ParseValue(t + rest) == Some(Parsed(j, rest))
  }

  lemma ReadsWord(word: Text, j: Json)
    requires (word, j) in {(NULL_TEXT, JNull), (TRUE_TEXT, JBool(true)), (FALSE_TEXT, JBool(false))}
    ensures Reads(word, j)
  {
    forall rest | Delimited(rest)
      ensures ParseValue(word + rest) == Some(Parsed(j, rest))
    {
      var t := word + rest;
      assert t[0] == word[0] && SkipSpace(t) == t;
      assert word <= t && t[|word|..] == rest;
    }
  }

  lemma ReadsNum(n: Num)
    ensures Reads(NumText(n), JNum(n))
  {
    PrintedValue(n);
    NumberStart(AsWritten(n), n.negative, []);
    assert NumText(n) + [] == NumText(n);
    forall rest | Delimited(rest)
      ensures ParseValue(NumText(n) + rest) == Some(Parsed(JNum(n), rest))
    {
      PrintedNumberReads(n, rest);
      NumberStart(AsWritten(n), n.negative, rest);
      ParsesAsNumber(NumText(n) + rest);
    }
  }

  /** A quoted string and what follows it, after the opening quote. */
  lemma QuotedThen(s: Text, after: Text)
    ensures Quoted(s) + after == [QUOTE] + (Escaped(s) + ([QUOTE] + after))
  {
  }

  lemma ReadsString(s: Text)
    ensures Reads(Quoted(s), JStr(s))
  {
    forall rest | Delimited(rest)
      ensures ParseValue(Quoted(s) + rest) == Some(Parsed(JStr(s), rest))
    {
      QuotedThen(s, rest);
      StringRoundTrip(s, rest);
      ParsesAsString(Escaped(s) + ([QUOTE] + rest), s, rest);
    }
  }

  lemma LastElement(t: Text, j: Json, rest: Text)
    requires Reads(t, j)
    ensures ParseElements(t + ([RBRACKET] + rest)) == Some(Parsed([j], rest))
  {
    var after := [RBRACKET] + rest;
    assert SkipSpace(after) == after && after[1..] == rest;
    assert ParseValue(t + after) == Some(Parsed(j, after));
  }

  lemma NextElement(t: Text, j: Json, tail: Text)
    requires Reads(t, j) && ParseElements(tail).Some?
    ensures var q := ParseElements(tail).value;
            ParseElements(t + ([COMMA] + tail)) == Some(Parsed([j] + q.value, q.rest))
  {
    var after := [COMMA] + tail;
    assert SkipSpace(after) == after && after[1..] == tail;
    assert ParseValue(t + after) == Some(Parsed(j, after));
  }

  lemma JoinedOne(t: Text, end: Unit, rest: Text)
    ensures Joined([t]) + [end] + rest == t + ([end] + rest)
  {
    Associative(t, [end], rest);
  }

  lemma JoinedStep(ts: seq<Text>, end: Unit, rest: Text)
    requires |ts| > 1
    ensures Joined(ts) + [end] + rest == ts[0] + ([COMMA] + (Joined(ts[1..]) + [end] + rest))
  {
    var tail := Joined(ts[1..]);
    assert Joined(ts) == ts[0] + [COMMA] + tail;
    calc {
      ts[0] + [COMMA] + tail + [end] + rest;
    == { Associative(ts[0] + [COMMA] + tail, [end], rest); }
      ts[0] + [COMMA] + tail + ([end] + rest);
    == { Associative(ts[0] + [COMMA], tail, [end] + rest); }
      ts[0] + [COMMA] + (tail + ([end] + rest));
    == { Associative(tail, [end], rest); }
      ts[0] + [COMMA] + (tail + [end] + rest);
    == { Associative(ts[0], [COMMA], tail + [end] + rest); }
      ts[0] + ([COMMA] + (tail + [end] + rest));
    }
  }

  lemma OneElement(t: Text, j: Json, rest: Text)
    requires Reads(t, j)
    ensures ParseElements(Joined([t]) + [RBRACKET] + rest) == Some(Parsed([j], rest))
  {
    JoinedOne(t, RBRACKET, rest);
    LastElement(t, j, rest);
  }

  lemma MoreElements(ts: seq<Text>, j: Json, js: seq<Json>, rest: Text)
    requires |ts| > 1 && Reads(ts[0], j)
    requires ParseElements(Joined(ts[1..]) + [RBRACKET] + rest) == Some(Parsed(js, rest))
    ensures ParseElements(Joined(ts) + [RBRACKET] + rest) == Some(Parsed([j] + js, rest))
  {
    JoinedStep(ts, RBRACKET, rest);
    NextElement(ts[0], j, Joined(ts[1..]) + [RBRACKET] + rest);
  }

  lemma {:induction false} ReadsElements(ts: seq<Text>, js: seq<Json>, rest: Text)
    requires |ts| == |js| > 0 && forall i | 0 <= i < |ts| :: Reads(ts[i], js[i])
    ensures ParseElements(Joined(ts) + [RBRACKET] + rest) == Some(Parsed(js, rest))
  {
    if |ts| == 1 {
      assert ts == [ts[0]] && js == [js[0]];
      OneElement(ts[0], js[0], rest);
    } else {
      ReadsElements(ts[1..], js[1..], rest);
      MoreElements(ts, js[0], js[1..], rest);
      assert [js[0]] + js[1..] == js;
    }
  }

  /** Brackets around a text, and what follows: the inside begins as the text does. */
  lemma Bracketed(open: Unit, inside: Text, close: Unit, rest: Text)
    ensures [open] + inside + [close] + rest == [open] + (inside + [close] + rest)
    ensures inside == [] ==> inside + [close] + rest == [close] + rest
    ensures inside != [] ==> (inside + [close] + rest)[0] == inside[0]
  {
  }

  lemma JoinedStart(ts: seq<Text>)
    requires ts != [] && ts[0] != []
    ensures Joined(ts) != [] && Joined(ts)[0] == ts[0][0]
  {
  }

  lemma ReadsArray(ts: seq<Text>, js: seq<Json>)
    requires |ts| == |js| && forall i | 0 <= i < |ts| :: Reads(ts[i], js[i])
    ensures Reads([LBRACKET] + Joined(ts) + [RBRACKET], JArr(js))
  {
    forall rest | Delimited(rest)
      ensures ParseValue([LBRACKET] + Joined(ts) + [RBRACKET] + rest) == Some(Parsed(JArr(js), rest))
    {
      Bracketed(LBRACKET, Joined(ts), RBRACKET, rest);
      if ts != [] {
        JoinedStart(ts);
        ReadsElements(ts, js, rest);
      }
      ParsesAsArray(Joined(ts) + [RBRACKET] + rest, js, rest);
    }
  }

  /** Texts and values of members that go together. */
  ghost predicate ReadsMembers(ps: seq<Entry<Text>>, ms: seq<Entry<Json>>) {
    |ps| == |ms| && forall i | 0 <= i < |ps| :: ps[i].key == ms[i].key && Reads(ps[i].val, ms[i].val)
  }

  /** The text of a member, parenthesized as it is read. */
  lemma MemberParts(key: Text, t: Text, rest: Text)
    ensures Quoted(key) + [COLON] + t + rest == [QUOTE] + (Escaped(key) + ([QUOTE] + ([COLON] + (t + rest))))
  {
    Associative(Quoted(key) + [COLON], t, rest);
    Associative(Quoted(key), [COLON], t + rest);
    QuotedThen(key, [COLON] + (t + rest));
  }

  lemma MemberRoundTrip(key: Text, t: Text, j: Json, rest: Text)
    requires Reads(t, j) && Delimited(rest)
    ensures ParseMember(Quoted(key) + [COLON] + t + rest) == Some(Parsed(Entry(key, j), rest))
  {
    var after := [COLON] + (t + rest);
    var inside := Escaped(key) + ([QUOTE] + after);
    var s := [QUOTE] + inside;
    MemberParts(key, t, rest);
    StringRoundTrip(key, after);
    assert SkipSpace(s) == s && s[1..] == inside;
    assert SkipSpace(after) == after && after[1..] == t + rest;
    assert ParseValue(t + rest) == Some(Parsed(j, rest));
  }

  lemma LastMember(key: Text, t: Text, j: Json, m: Text, rest: Text)
    requires Reads(t, j) && m == Quoted(key) + [COLON] + t
    ensures ParseMembers(m + ([RBRACE] + rest)) == Some(Parsed([Entry(key, j)], rest))
  {
    var after := [RBRACE] + rest;
    MemberRoundTrip(key, t, j, after);
    assert SkipSpace(after) == after && after[1..] == rest;
  }

  lemma NextMember(key: Text, t: Text, j: Json, m: Text, tail: Text)
    requires Reads(t, j) && m == Quoted(key) + [COLON] + t && ParseMembers(tail).Some?
    ensures var q := ParseMembers(tail).value;
            ParseMembers(m + ([COMMA] + tail)) == Some(Parsed([Entry(key, j)] + q.value, q.rest))
  {
    var after := [COMMA] + tail;
    MemberRoundTrip(key, t, j, after);
    assert SkipSpace(after) == after && after[1..] == tail;
  }

  lemma MemberTextsStep(ps: seq<Entry<Text>>)
    requires ps != []
    ensures MemberTexts(ps)[0] == Quoted(ps[0].key) + [COLON] + ps[0].val
    ensures MemberTexts(ps)[1..] == MemberTexts(ps[1..])
  {
  }

  lemma OneMember(p: Entry<Text>, m: Entry<Json>, rest: Text)
    requires p.key == m.key && Reads(p.val, m.val)
    ensures ParseMembers(Joined(MemberTexts([p])) + [RBRACE] + rest) == Some(Parsed([m], rest))
  {
    var t := MemberTexts([p])[0];
    MemberTextsStep([p]);
    assert MemberTexts([p]) == [t] && Entry(p.key, m.val) == m;
    JoinedOne(t, RBRACE, rest);
    LastMember(p.key, p.val, m.val, t, rest);
  }

  lemma MoreMembers(ps: seq<Entry<Text>>, m: Entry<Json>, ms: seq<Entry<Json>>, rest: Text)
    requires |ps| > 1 && ps[0].key == m.key && Reads(ps[0].val, m.val)
    requires ParseMembers(Joined(MemberTexts(ps[1..])) + [RBRACE] + rest) == Some(Parsed(ms, rest))
    ensures ParseMembers(Joined(MemberTexts(ps)) + [RBRACE] + rest) == Some(Parsed([m] + ms, rest))
  {
    var ts := MemberTexts(ps);
    MemberTextsStep(ps);
    JoinedStep(ts, RBRACE, rest);
    assert Entry(ps[0].key, m.val) == m;
    NextMember(ps[0].key, ps[0].val, m.val, ts[0], Joined(ts[1..]) + [RBRACE] + rest);
  }

  lemma {:induction false} ReadsMemberList(ps: seq<Entry<Text>>, ms: seq<Entry<Json>>, rest: Text)
    requires ReadsMembers(ps, ms) && ps != []
    ensures ParseMembers(Joined(MemberTexts(ps)) + [RBRACE] + rest) == Some(Parsed(ms, rest))
  {
    if |ps| == 1 {
      assert ps == [ps[0]] && ms == [ms[0]];
      OneMember(ps[0], ms[0], rest);
    } else {
      assert ReadsMembers(ps[1..], ms[1..]);
      ReadsMemberList(ps[1..], ms[1..], rest);
      MoreMembers(ps, ms[0], ms[1..], rest);
      assert [ms[0]] + ms[1..] == ms;
    }
  }

  lemma {:induction false} PutNew(ms: seq<Entry<Json>>, m: Entry<Json>)
    requires forall i | 0 <= i < |ms| :: ms[i].key != m.key
    ensures Put(ms, m) == ms + [m]
  {
    if ms != [] {
      PutNew(ms[1..], m);
      assert ms + [m] == [ms[0]] + (ms[1..] + [m]);
    }
  }

  lemma {:induction false} LastWinsDistinct(ms: seq<Entry<Json>>)
    requires DistinctKeys(ms)
    ensures LastWins(ms) == ms
  {
    if ms != [] {
      var init := ms[..|ms| - 1];
      LastWinsDistinct(init);
      PutNew(init, ms[|ms| - 1]);
      assert ms == init + [ms[|ms| - 1]];
    }
  }

  lemma ReadsObject(ps: seq<Entry<Text>>, ms: seq<Entry<Json>>)
    requires ReadsMembers(ps, ms) && DistinctKeys(ms)
    ensures Reads([LBRACE] + Joined(MemberTexts(ps)) + [RBRACE], JObj(ms))
  {
    var ts := MemberTexts(ps);
    LastWinsDistinct(ms);
    forall rest | Delimited(rest)
      ensures ParseValue([LBRACE] + Joined(ts) + [RBRACE] + rest) == Some(Parsed(JObj(ms), rest))
    {
      Bracketed(LBRACE, Joined(ts), RBRACE, rest);
      if ps != [] {
        assert ts[0][0] == QUOTE;
        JoinedStart(ts);
        ReadsMemberList(ps, ms, rest);
      }
      ParsesAsObject(Joined(ts) + [RBRACE] + rest, ms, rest);
    }
  }

  // ----- sorting texts and values alike -----

  lemma {:induction false} InsertAlike(p: Entry<Text>, ps: seq<Entry<Text>>, m: Entry<Json>, ms: seq<Entry<Json>>)
    requires ReadsMembers(ps, ms) && p.key == m.key && Reads(p.val, m.val)
    ensures ReadsMembers(Insert(p, ps), Insert(m, ms))
  {
    if ps != [] && !Less(p.key, ps[0].key) {
      assert ReadsMembers(ps[1..], ms[1..]);
      InsertAlike(p, ps[1..], m, ms[1..]);
    }
  }

  lemma {:induction false} SortAlike(ps: seq<Entry<Text>>, ms: seq<Entry<Json>>)
    requires ReadsMembers(ps, ms)
    ensures ReadsMembers(Sort(ps), Sort(ms))
  {
    if ps != [] {
      var n := |ps| - 1;
      assert ReadsMembers(ps[..n], ms[..n]);
      SortAlike(ps[..n], ms[..n]);
      InsertAlike(ps[n], Sort(ps[..n]), ms[n], Sort(ms[..n]));
    }
  }

  // ----- the theorem -----

  /** Printed text reads back as the normalised value, in every context. */
  lemma {:induction false} PrintReads(v: Json)
    requires WellFormed(v)
    ensures Reads(Print(v), Norm(v))
  {
    match v
    case JUndefined => ReadsWord(NULL_TEXT, JNull);
    case JNull => ReadsWord(NULL_TEXT, JNull);
    case JBool(b) => ReadsWord(if b then TRUE_TEXT else FALSE_TEXT, v);
    case JNum(n) => ReadsNum(n);
    case JStr(s) => ReadsString(s);
    case JArr(es) =>
      forall i | 0 <= i < |es|
        ensures Reads(PrintAll(es)[i], NormAll(es)[i])
      {
        PrintReads(es[i]);
      }
      ReadsArray(PrintAll(es), NormAll(es));
    case JObj(ms) =>
      var ps, ns := PrintMembers(ms), NormMembers(ms);
      forall i | 0 <= i < |ms|
        ensures Reads(ps[i].val, ns[i].val)
      {
        PrintReads(ms[i].val);
      }
      SortAlike(ps, ns);
      SortSpec(ns);
      ReadsObject(Sort(ps), Sort(ns));
  }

  /** The whole printed text, read exactly. */
  lemma PrintReadsExactly(v: Json)
    requires WellFormed(v)
    ensures ParseValue(Print(v)) == Some(Parsed(Norm(v), []))
  {
    PrintReads(v);
    assert Print(v) + [] == Print(v);
    assert Delimited([]);
  }

  // ----- doubles -----

  /** Every number is the decimal of a double, as it is in any JavaScript value. */
  ghost predicate Represented(double: Num -> Num, v: Json) {
    match v
    case JNum(n) => double(n) == n
    case JArr(es) => forall i | 0 <= i < |es| :: Represented(double, es[i])
    case JObj(ms) => forall i | 0 <= i < |ms| :: Represented(double, ms[i].val)
    case _ => true
  }

  /** The decimal that a double is printed as is read as that double. */
  ghost predicate PrintsBack(double: Num -> Num) {
    forall n :: double(double(n)) == double(n)
  }

  lemma {:induction false} RoundedIsRepresented(double: Num -> Num, v: Json)
    requires PrintsBack(double)
    ensures Represented(double, Rounded(double, v))
  {
    match v
    case JArr(es) =>
      forall i | 0 <= i < |es|
        ensures Represented(double, RoundedAll(double, es)[i])
      {
        RoundedIsRepresented(double, es[i]);
      }
    case JObj(ms) =>
      forall i | 0 <= i < |ms|
        ensures Represented(double, RoundedMembers(double, ms)[i].val)
      {
        RoundedIsRepresented(double, ms[i].val);
      }
    case _ =>
  }

  lemma {:induction false} RepresentedIsRounded(double: Num -> Num, v: Json)
    requires Represented(double, v)
    ensures Rounded(double, v) == v
  {
    match v
    case JArr(es) =>
      forall i | 0 <= i < |es|
        ensures RoundedAll(double, es)[i] == es[i]
      {
        RepresentedIsRounded(double, es[i]);
      }
      assert RoundedAll(double, es) == es;
    case JObj(ms) =>
      forall i | 0 <= i < |ms|
        ensures RoundedMembers(double, ms)[i] == ms[i]
      {
        RepresentedIsRounded(double, ms[i].val);
      }
      assert RoundedMembers(double, ms) == ms;
    case _ =>
  }

  lemma {:induction false} NormIsRepresented(double: Num -> Num, v: Json)
    requires WellFormed(v) && Represented(double, v)
    ensures Represented(double, Norm(v))
  {
    match v
    case JArr(es) =>
      forall i | 0 <= i < |es|
        ensures Represented(double, NormAll(es)[i])
      {
        NormIsRepresented(double, es[i]);
      }
    case JObj(ms) =>
      var ns := NormMembers(ms);
      SortSpec(ns);
      forall i | 0 <= i < |ms|
        ensures Represented(double, ns[i].val)
      {
        NormIsRepresented(double, ms[i].val);
      }
      forall j | 0 <= j < |Sort(ns)|
        ensures Represented(double, Sort(ns)[j].val)
      {
        assert Sort(ns)[j] in Sort(ns);
      }
    case _ =>
  }

  /** JSON.parse inverts canonicalStringify. */
  lemma ParsePrint(double: Num -> Num, v: Json)
    requires WellFormed(v) && Represented(double, v)
    ensures Parse(double, Print(v)) == Some(Norm(v))
  {
    PrintReadsExactly(v);
    NormIsRepresented(double, v);
    RepresentedIsRounded(double, Norm(v));
  }
}
