/**
 JSON values as the runner sees them, the canonical key-sorting printer, and JSON.parse.

 A number is an exact decimal; a finite double is the shortest decimal that denotes it. Strings are UTF-16 and are
 escaped as JSON.stringify does (section 7 of RFC 8259; a lone surrogate is escaped too). An object is its list of
 members; the property order of JavaScript is not otherwise used.
 */
module Json {
  import opened Basics
  import opened SortedEntries
  import opened Numbers

  datatype Json =
    | JUndefined
    | JNull
    | JBool(b: bool)
    | JNum(n: Num)
    | JStr(s: Text)
    | JArr(es: seq<Json>)
    | JObj(ms: seq<Entry<Json>>)

  // ----- characters -----

  const QUOTE: Unit := 34
  const BACKSLASH: Unit := 92
  const SLASH: Unit := 47
  const COMMA: Unit := 44
  const COLON: Unit := 58
  const LBRACKET: Unit := 91
  const RBRACKET: Unit := 93
  const LBRACE: Unit := 123
  const RBRACE: Unit := 125
  const PLUS: Unit := 43
  const MINUS: Unit := 45
  const DOT: Unit := 46
  const ZERO: Unit := 48
  const LOWER_B: Unit := 98
  const LOWER_E: Unit := 101
  const UPPER_E: Unit := 69
  const LOWER_F: Unit := 102
  const LOWER_N: Unit := 110
  const LOWER_R: Unit := 114
  const LOWER_T: Unit := 116
  const LOWER_U: Unit := 117

  const NULL_TEXT: Text := [110, 117, 108, 108]
  const TRUE_TEXT: Text := [116, 114, 117, 101]
  const FALSE_TEXT: Text := [102, 97, 108, 115, 101]

  predicate IsDigit(u: Unit) {
    48 <= u <= 57
  }

  predicate IsSpace(u: Unit) {
    u == 32 || u == 9 || u == 10 || u == 13
  }

  predicate IsHigh(u: Unit) {
    0xD800 <= u <= 0xDBFF
  }

  predicate IsLow(u: Unit) {
    0xDC00 <= u <= 0xDFFF
  }

  // ----- printing -----

  function NatText(n: nat): (t: Text)
    ensures t != []
  {
    if n < 10 then [48 + n] else NatText(n / 10) + [48 + n % 10]
  }

  function ZeroText(n: nat): (z: Text)
    ensures |z| == n && forall i | 0 <= i < n :: z[i] == ZERO
  {
    if n == 0 then [] else ZeroText(n - 1) + [ZERO]
  }

  /** The parts of a number as written: whole digits, fraction digits, and e, sign and digits of an exponent. */
  datatype Written = Written(whole: Text, fraction: Text, exponent: Text, mark: Unit, sign: Text)

  function FractionText(w: Written): Text {
    if w.fraction == [] then [] else [DOT] + w.fraction
  }

  function ExponentText(w: Written): Text {
    if w.exponent == [] then [] else [w.mark] + w.sign + w.exponent
  }

  function NumberText(w: Written): Text {
    w.whole + (FractionText(w) + ExponentText(w))
  }

  function Plain(whole: Text, fraction: Text): Written {
    Written(whole, fraction, [], LOWER_E, [])
  }

  /** The layouts of Number::toString, for digits d with the point before place n of them. */
  function Padded(d: Text, n: nat): Written
    requires |d| <= n
  {
    Plain(d + ZeroText(n - |d|), [])
  }

  function Pointed(d: Text, n: nat): Written
    requires n <= |d|
  {
    Plain(d[..n], d[n..])
  }

  function Small(d: Text, n: int): Written
    requires n <= 0
  {
    Plain([ZERO], ZeroText(-n) + d)
  }

  function Scientific(d: Text, n: int): Written
    requires d != []
  {
    Written(d[..1], d[1..], NatText(if n >= 1 then n - 1 else 1 - n), LOWER_E, if n >= 1 then [PLUS] else [MINUS])
  }

  function LaidOut(d: Text, n: int): Written
    requires d != []
  {
    if |d| <= n <= 21 then Padded(d, n)
    else if 0 < n <= 21 then Pointed(d, n)
    else if -6 < n <= 0 then Small(d, n)
    else Scientific(d, n)
  }

  /** Number::toString, the sign apart. */
  function AsWritten(x: Num): Written {
    if x.digits == 0 then Plain([ZERO], [])
    else LaidOut(NatText(x.digits), |NatText(x.digits)| + x.exponent)
  }

  /** String(n) */
  function NumText(x: Num): Text {
    (if x.negative then [MINUS] else []) + NumberText(AsWritten(x))
  }

  function HexDigit(d: nat): Unit
    requires d < 16
  {
    if d < 10 then 48 + d else 87 + d
  }

  /** \uXXXX with lower-case digits. */
  function UnicodeEscape(u: Unit): Text {
    [BACKSLASH, LOWER_U, HexDigit(u / 4096), HexDigit(u / 256 % 16), HexDigit(u / 16 % 16), HexDigit(u % 16)]
  }

  function EscapeUnit(u: Unit): Text {
    if u == QUOTE then [BACKSLASH, QUOTE]
    else if u == BACKSLASH then [BACKSLASH, BACKSLASH]
    else if u == 8 then [BACKSLASH, LOWER_B]
    else if u == 9 then [BACKSLASH, LOWER_T]
    else if u == 10 then [BACKSLASH, LOWER_N]
    else if u == 12 then [BACKSLASH, LOWER_F]
    else if u == 13 then [BACKSLASH, LOWER_R]
    else if u < 32 then UnicodeEscape(u)
    else [u]
  }

  function Escaped(s: Text): Text {
    if s == [] then []
    else if IsHigh(s[0]) && |s| > 1 && IsLow(s[1]) then s[..2] + Escaped(s[2..])
    else if IsHigh(s[0]) || IsLow(s[0]) then UnicodeEscape(s[0]) + Escaped(s[1..])
    else EscapeUnit(s[0]) + Escaped(s[1..])
  }

  /** JSON.stringify of a string. */
  function Quoted(s: Text): Text {
    [QUOTE] + Escaped(s) + [QUOTE]
  }

  /** Elements joined with commas. */
  function Joined(parts: seq<Text>): Text {
    if parts == [] then []
    else if |parts| == 1 then parts[0]
    else parts[0] + [COMMA] + Joined(parts[1..])
  }

  function MemberTexts(ps: seq<Entry<Text>>): seq<Text> {
    seq(|ps|, i requires 0 <= i < |ps| => Quoted(ps[i].key) + [COLON] + ps[i].val)
  }

  /** canonicalStringify. Undefined prints as null; keys are sorted. */
  function Print(v: Json): Text
    decreases v, 1
  {
    match v
    case JUndefined => NULL_TEXT
    case JNull => NULL_TEXT
    case JBool(b) => if b then TRUE_TEXT else FALSE_TEXT
    case JNum(n) => NumText(n)
    case JStr(s) => Quoted(s)
    case JArr(es) => [LBRACKET] + Joined(PrintAll(es)) + [RBRACKET]
    case JObj(ms) => [LBRACE] + Joined(MemberTexts(Sort(PrintMembers(ms)))) + [RBRACE]
  }

  function PrintAll(es: seq<Json>): (ts: seq<Text>)
    ensures |ts| == |es| && forall i | 0 <= i < |es| :: ts[i] == Print(es[i])
    decreases es, 0
  {
    if es == [] then [] else [Print(es[0])] + PrintAll(es[1..])
  }

  function PrintMembers(ms: seq<Entry<Json>>): (ts: seq<Entry<Text>>)
    ensures |ts| == |ms| && forall i | 0 <= i < |ms| :: ts[i] == Entry(ms[i].key, Print(ms[i].val))
    decreases ms, 0
  {
    if ms == [] then [] else [Entry(ms[0].key, Print(ms[0].val))] + PrintMembers(ms[1..])
  }

  // ----- parsing: sections 2 to 7 of RFC 8259 -----

  /** A value read and what follows it. */
  datatype Parsed<+T> = Parsed(value: T, rest: Text)

  function SkipSpace(s: Text): (r: Text)
    ensures |r| <= |s|
  {
    if s != [] && IsSpace(s[0]) then SkipSpace(s[1..]) else s
  }

  function HexValue(u: Unit): Option<nat> {
    if IsDigit(u) then Some(u - 48)
    else if 97 <= u <= 102 then Some(u - 87)
    else if 65 <= u <= 70 then Some(u - 55)
    else None
  }

  function ParseHex4(s: Text): Option<nat>
    requires |s| >= 4
  {
    match (HexValue(s[0]), HexValue(s[1]), HexValue(s[2]), HexValue(s[3]))
    case (Some(a), Some(b), Some(c), Some(d)) => Some(4096 * a + 256 * b + 16 * c + d)
    case _ => None
  }

  function UnescapeUnit(u: Unit): Option<Unit> {
    if u == QUOTE || u == BACKSLASH || u == SLASH then Some(u)
    else if u == LOWER_B then Some(8)
    else if u == LOWER_F then Some(12)
    else if u == LOWER_N then Some(10)
    else if u == LOWER_R then Some(13)
    else if u == LOWER_T then Some(9)
    else None
  }

  function Prefixed(u: Unit, p: Option<Parsed<Text>>): Option<Parsed<Text>> {
    match p
    case None => None
    case Some(q) => Some(Parsed([u] + q.value, q.rest))
  }

  /** The characters of a string after its opening quote, up to and including the closing one. */
  function ParseString(s: Text): (r: Option<Parsed<Text>>)
    ensures r.Some? ==> |r.value.rest| < |s|
  {
    if s == [] then None
    else if s[0] == QUOTE then Some(Parsed([], s[1..]))
    else if s[0] == BACKSLASH then
      if |s| < 2 then None
      else if s[1] == LOWER_U then
        if |s| < 6 || ParseHex4(s[2..6]).None? || ParseHex4(s[2..6]).value >= 0x10000 then None
        else Prefixed(ParseHex4(s[2..6]).value, ParseString(s[6..]))
      else
        match UnescapeUnit(s[1])
        case None => None
        case Some(u) => Prefixed(u, ParseString(s[2..]))
    else if s[0] < 32 then None
    else Prefixed(s[0], ParseString(s[1..]))
  }

  function DigitCount(s: Text): (k: nat)
    ensures k <= |s| && forall i | 0 <= i < k :: IsDigit(s[i])
    ensures k < |s| ==> !IsDigit(s[k])
  {
    if s != [] && IsDigit(s[0]) then 1 + DigitCount(s[1..]) else 0
  }

  function DigitValue(u: Unit): nat
    requires IsDigit(u)
  {
    u - 48
  }

  function NumValue(s: Text): nat
    requires forall i | 0 <= i < |s| :: IsDigit(s[i])
  {
    if s == [] then 0 else 10 * NumValue(s[..|s| - 1]) + DigitValue(s[|s| - 1])
  }

  /** A number without its sign: mantissa times ten to the exponent. */
  datatype Token = Token(mantissa: nat, exponent: int)

  /** [ "." 1*DIGIT ]: the digits. */
  function ParseFraction(s: Text): (r: Option<Parsed<Text>>)
    ensures r.Some? ==> |r.value.rest| <= |s| && forall i | 0 <= i < |r.value.value| :: IsDigit(r.value.value[i])
  {
    if s == [] || s[0] != DOT then Some(Parsed([], s))
    else
      var t := s[1..];
      var k := DigitCount(t);
      if k == 0 then None else Some(Parsed(t[..k], t[k..]))
  }

  /** [ ("e" / "E") [ "+" / "-" ] 1*DIGIT ] */
  function ParseExponent(s: Text): (r: Option<Parsed<int>>)
    ensures r.Some? ==> |r.value.rest| <= |s|
  {
    if s == [] || s[0] !in {LOWER_E, UPPER_E} then Some(Parsed(0, s))
    else
      var t := s[1..];
      var u := if t != [] && t[0] in {PLUS, MINUS} then t[1..] else t;
      var k := DigitCount(u);
      if k == 0 then None
      else Some(Parsed(if t[0] == MINUS then -(NumValue(u[..k]) as int) else NumValue(u[..k]), u[k..]))
  }

  /** The token of whole digits, fraction digits and exponent. */
  function Tokened(whole: Text, fraction: Text, exponent: int): Token
    requires (forall i | 0 <= i < |whole| :: IsDigit(whole[i])) && forall i | 0 <= i < |fraction| :: IsDigit(fraction[i])
  {
    Token(NumValue(whole + fraction), exponent - |fraction|)
  }

  /** [ frac ] [ exp ], after the whole digits. */
  function ParseTail(whole: Text, s: Text): (r: Option<Parsed<Token>>)
    requires forall i | 0 <= i < |whole| :: IsDigit(whole[i])
    ensures r.Some? ==> |r.value.rest| <= |s|
  {
    match ParseFraction(s)
    case None => None
    case Some(f) =>
      match ParseExponent(f.rest)
      case None => None
      case Some(x) => Some(Parsed(Tokened(whole, f.value, x.value), x.rest))
  }

  /** int [ frac ] [ exp ] */
  function ParseUnsigned(s: Text): (r: Option<Parsed<Token>>)
    ensures r.Some? ==> |r.value.rest| < |s|
  {
    var k := DigitCount(s);
    if k == 0 || (s[0] == ZERO && k > 1) then None
    else ParseTail(s[..k], s[k..])
  }

  function ParseNumber(s: Text): (r: Option<Parsed<Json>>)
    ensures r.Some? ==> |r.value.rest| < |s|
  {
    var negative := s != [] && s[0] == MINUS;
    match ParseUnsigned(if negative then s[1..] else s)
    case None => None
    case Some(p) => Some(Parsed(JNum(Normalize(negative, p.value.mantissa, p.value.exponent)), p.rest))
  }

  function ParseWord(s: Text, word: Text, v: Json): (r: Option<Parsed<Json>>)
    requires word != []
    ensures r.Some? ==> |r.value.rest| < |s|
  {
    if word <= s then Some(Parsed(v, s[|word|..])) else None
  }

  /** One value, after optional white space. */
  function ParseValue(text: Text): (r: Option<Parsed<Json>>)
    ensures r.Some? ==> |r.value.rest| < |text|
    decreases |text|, 0
  {
    var s := SkipSpace(text);
    if s == [] then None
    else if s[0] == QUOTE then
      match ParseString(s[1..])
      case None => None
      case Some(p) => Some(Parsed(JStr(p.value), p.rest))
    else if s[0] == LBRACKET then
      var t := SkipSpace(s[1..]);
      if t != [] && t[0] == RBRACKET then Some(Parsed(JArr([]), t[1..]))
      else
        match ParseElements(s[1..])
        case None => None
        case Some(p) => Some(Parsed(JArr(p.value), p.rest))
    else if s[0] == LBRACE then
      var t := SkipSpace(s[1..]);
      if t != [] && t[0] == RBRACE then Some(Parsed(JObj([]), t[1..]))
      else
        match ParseMembers(s[1..])
        case None => None
        case Some(p) => Some(Parsed(JObj(LastWins(p.value)), p.rest))
    else if s[0] == LOWER_N then ParseWord(s, NULL_TEXT, JNull)
    else if s[0] == LOWER_T then ParseWord(s, TRUE_TEXT, JBool(true))
    else if s[0] == LOWER_F then ParseWord(s, FALSE_TEXT, JBool(false))
    else ParseNumber(s)
  }

  /** One or more values separated by commas, up to and including the closing bracket. */
  function ParseElements(text: Text): (r: Option<Parsed<seq<Json>>>)
    ensures r.Some? ==> |r.value.rest| < |text|
    decreases |text|, 1
  {
    match ParseValue(text)
    case None => None
    case Some(p) =>
      var t := SkipSpace(p.rest);
      if t == [] then None
      else if t[0] == RBRACKET then Some(Parsed([p.value], t[1..]))
      else if t[0] == COMMA then
        match ParseElements(t[1..])
        case None => None
        case Some(q) => Some(Parsed([p.value] + q.value, q.rest))
      else None
  }

  /** One or more members separated by commas, up to and including the closing brace. */
  function ParseMembers(text: Text): (r: Option<Parsed<seq<Entry<Json>>>>)
    ensures r.Some? ==> |r.value.rest| < |text|
    decreases |text|, 1
  {
    match ParseMember(text)
    case None => None
    case Some(p) =>
      var t := SkipSpace(p.rest);
      if t == [] then None
      else if t[0] == RBRACE then Some(Parsed([p.value], t[1..]))
      else if t[0] == COMMA then
        match ParseMembers(t[1..])
        case None => None
        case Some(q) => Some(Parsed([p.value] + q.value, q.rest))
      else None
  }

  function ParseMember(text: Text): (r: Option<Parsed<Entry<Json>>>)
    ensures r.Some? ==> |r.value.rest| < |text|
    decreases |text|, 0
  {
    var s := SkipSpace(text);
    if s == [] || s[0] != QUOTE then None
    else
      match ParseString(s[1..])
      case None => None
      case Some(k) =>
        var t := SkipSpace(k.rest);
        if t == [] || t[0] != COLON then None
        else
          match ParseValue(t[1..])
          case None => None
          case Some(p) => Some(Parsed(Entry(k.value, p.value), p.rest))
  }

  /** Assigning a property: replace where the key exists, else append. */
  function Put(ms: seq<Entry<Json>>, m: Entry<Json>): seq<Entry<Json>> {
    if ms == [] then [m]
    else if ms[0].key == m.key then [m] + ms[1..]
    else [ms[0]] + Put(ms[1..], m)
  }

  /** Repeated keys: the last value wins. */
  function LastWins(ms: seq<Entry<Json>>): seq<Entry<Json>> {
    if ms == [] then [] else Put(LastWins(ms[..|ms| - 1]), ms[|ms| - 1])
  }

  /** A value with each of its numbers replaced. */
  function Rounded(double: Num -> Num, v: Json): Json
    decreases v, 1
  {
    match v
    case JNum(n) => JNum(double(n))
    case JArr(es) => JArr(RoundedAll(double, es))
    case JObj(ms) => JObj(RoundedMembers(double, ms))
    case _ => v
  }

  function RoundedAll(double: Num -> Num, es: seq<Json>): (r: seq<Json>)
    ensures |r| == |es| && forall i | 0 <= i < |es| :: r[i] == Rounded(double, es[i])
    decreases es, 0
  {
    if es == [] then [] else [Rounded(double, es[0])] + RoundedAll(double, es[1..])
  }

  function RoundedMembers(double: Num -> Num, ms: seq<Entry<Json>>): (r: seq<Entry<Json>>)
    ensures |r| == |ms| && forall i | 0 <= i < |ms| :: r[i] == Entry(ms[i].key, Rounded(double, ms[i].val))
    decreases ms, 0
  {
    if ms == [] then [] else [Entry(ms[0].key, Rounded(double, ms[0].val))] + RoundedMembers(double, ms[1..])
  }

  /**
   JSON.parse: one value and nothing but white space after it. double is how a decimal is read: as the shortest decimal
   of the double nearest to it.
   */
  function Parse(double: Num -> Num, text: Text): Option<Json> {
    match ParseValue(text)
    case None => None
    case Some(p) => if SkipSpace(p.rest) == [] then Some(Rounded(double, p.value)) else None
  }
}
