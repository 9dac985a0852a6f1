/** Section 7 of RFC 8259: every way to write a string is read as the units it stands for, and nothing else is. */
module JsonStrings {
  import opened Basics
  import opened SortedEntries
  import opened Json
  import opened JsonNumbers
  import opened Schemas

  /** A unit as it may be written: itself, a two-character escape, or four hexadecimal digits in either case. */
  datatype Piece = Raw(u: Unit) | Short(letter: Unit) | Coded(digits: Text)

  /** The value of a hexadecimal digit, by its place among the digits. */
  predicate IsHexOf(d: Unit, v: int) {
    0 <= v < 16 && (d == Ascii("0123456789abcdef")[v] || d == Ascii("0123456789ABCDEF")[v])
  }

  predicate Letter(letter: Unit, u: Unit) {
    || (letter == Ascii("\"")[0] && u == 0x22) || (letter == Ascii("\\")[0] && u == 0x5C)
    || (letter == Ascii("/")[0] && u == 0x2F) || (letter == Ascii("b")[0] && u == 0x08)
    || (letter == Ascii("f")[0] && u == 0x0C) || (letter == Ascii("n")[0] && u == 0x0A)
    || (letter == Ascii("r")[0] && u == 0x0D) || (letter == Ascii("t")[0] && u == 0x09)
  }

  /** The piece is well written and stands for the unit. */
  ghost predicate StandsFor(p: Piece, u: Unit) {
    match p
    case Raw(v) => v == u && u >= 0x20 && u != 0x22 && u != 0x5C
    case Short(letter) => Letter(letter, u)
    case Coded(h) =>
      |h| == 4 && exists a, b, c, d ::
        IsHexOf(h[0], a) && IsHexOf(h[1], b) && IsHexOf(h[2], c) && IsHexOf(h[3], d)
        && u == 4096 * a + 256 * b + 16 * c + d
  }

  function PieceText(p: Piece): Text {
    match p
    case Raw(u) => [u]
    case Short(letter) => [BACKSLASH, letter]
    case Coded(h) => [BACKSLASH, LOWER_U] + h
  }

  function PiecesText(ps: seq<Piece>): Text {
    if ps == [] then [] else PieceText(ps[0]) + PiecesText(ps[1..])
  }

  lemma HexIs(d: Unit, v: int)
    requires IsHexOf(d, v)
    ensures HexValue(d) == Some(v)
  {
  }

  lemma FourDigits(h: Text, a: nat, b: nat, c: nat, d: nat)
    requires |h| == 4 && IsHexOf(h[0], a) && IsHexOf(h[1], b) && IsHexOf(h[2], c) && IsHexOf(h[3], d)
    ensures ParseHex4(h) == Some(4096 * a + 256 * b + 16 * c + d)
  {
    HexIs(h[0], a);
    HexIs(h[1], b);
    HexIs(h[2], c);
    HexIs(h[3], d);
  }

  lemma CodedReads(h: Text, u: Unit, rest: Text)
    requires StandsFor(Coded(h), u)
    ensures ParseString([BACKSLASH, LOWER_U] + h + rest) == Prefixed(u, ParseString(rest))
  {
    var a, b, c, d :| IsHexOf(h[0], a) && IsHexOf(h[1], b) && IsHexOf(h[2], c) && IsHexOf(h[3], d)
                      && u == 4096 * a + 256 * b + 16 * c + d;
    FourDigits(h, a, b, c, d);
    CodedParses(h, u, rest);
  }

  lemma CodedParses(h: Text, u: Unit, rest: Text)
    requires |h| == 4 && ParseHex4(h) == Some(u)
    ensures ParseString([BACKSLASH, LOWER_U] + h + rest) == Prefixed(u, ParseString(rest))
  {
    var t := [BACKSLASH, LOWER_U] + h + rest;
    assert t[2..6] == h && t[6..] == rest;
  }

  lemma LettersAre()
    ensures Ascii("\"")[0] == QUOTE && Ascii("\\")[0] == BACKSLASH && Ascii("/")[0] == SLASH && Ascii("b")[0] == LOWER_B
    ensures Ascii("f")[0] == LOWER_F && Ascii("n")[0] == LOWER_N && Ascii("r")[0] == LOWER_R && Ascii("t")[0] == LOWER_T
  {
  }

  lemma ShortReads(letter: Unit, u: Unit, rest: Text)
    requires Letter(letter, u)
    ensures ParseString([BACKSLASH, letter] + rest) == Prefixed(u, ParseString(rest))
  {
    LettersAre();
    var t := [BACKSLASH, letter] + rest;
    assert t[2..] == rest;
  }

  lemma RawReads(u: Unit, rest: Text)
    requires StandsFor(Raw(u), u)
    ensures ParseString([u] + rest) == Prefixed(u, ParseString(rest))
  {
    assert ([u] + rest)[1..] == rest;
  }

  /** However its units are written, a string is read as them, and what follows the closing quote is left. */
  lemma {:induction false} StringNotationsRead(ps: seq<Piece>, s: Text, rest: Text)
    requires |ps| == |s| && forall i | 0 <= i < |ps| :: StandsFor(ps[i], s[i])
    ensures ParseString(PiecesText(ps) + ([QUOTE] + rest)) == Some(Parsed(s, rest))
  {
    var after := [QUOTE] + rest;
    if ps == [] {
      assert PiecesText(ps) + after == after && after[1..] == rest;
    } else {
      StringNotationsRead(ps[1..], s[1..], rest);
      Associative(PieceText(ps[0]), PiecesText(ps[1..]), after);
      match ps[0] {
        case Raw(u) => RawReads(u, PiecesText(ps[1..]) + after);
        case Short(letter) => ShortReads(letter, s[0], PiecesText(ps[1..]) + after);
        case Coded(h) => CodedReads(h, s[0], PiecesText(ps[1..]) + after);
      }
      assert s == [s[0]] + s[1..];
    }
  }

  lemma {:induction false} ReadPieces(t: Text) returns (ps: seq<Piece>)
    requires ParseString(t).Some?
    ensures var s := ParseString(t).value;
            && |ps| == |s.value| && (forall i | 0 <= i < |ps| :: StandsFor(ps[i], s.value[i]))
            && t == PiecesText(ps) + ([QUOTE] + s.rest)
    decreases |t|
  {
    if t[0] == QUOTE {
      ps := [];
      assert t == [QUOTE] + t[1..];
    } else {
      var p, rest := FirstPiece(t);
      var more := ReadPieces(rest);
      ps := [p] + more;
      assert ps[1..] == more;
      var s := ParseString(t).value.value;
      assert s == [s[0]] + s[1..] && s[1..] == ParseString(rest).value.value;
      Associative(PieceText(p), PiecesText(more), [QUOTE] + ParseString(rest).value.rest);
      forall i | 0 <= i < |ps|
        ensures StandsFor(ps[i], s[i])
      {
        if i > 0 {
          assert ps[i] == more[i - 1] && s[i] == s[1..][i - 1];
        }
      }
    }
  }

  lemma HexHasValue(d: Unit)
    requires HexValue(d).Some?
    ensures IsHexOf(d, HexValue(d).value)
  {
  }

  /** What is read of a string that does not end yet starts with a well written piece. */
  lemma FirstPiece(t: Text) returns (p: Piece, rest: Text)
    requires ParseString(t).Some? && t[0] != QUOTE
    ensures t == PieceText(p) + rest && |rest| < |t| && ParseString(rest).Some?
    ensures exists u :: StandsFor(p, u) && ParseString(t) == Prefixed(u, ParseString(rest))
  {
    LettersAre();
    if t[0] == BACKSLASH && t[1] == LOWER_U {
      var h := t[2..6];
      p, rest := Coded(h), t[6..];
      assert t == [BACKSLASH, LOWER_U] + h + rest;
      HexHasValue(h[0]);
      HexHasValue(h[1]);
      HexHasValue(h[2]);
      HexHasValue(h[3]);
      assert StandsFor(p, ParseHex4(h).value);
    } else if t[0] == BACKSLASH {
      p, rest := Short(t[1]), t[2..];
      assert t == [BACKSLASH, t[1]] + rest;
      assert StandsFor(p, UnescapeUnit(t[1]).value);
    } else {
      p, rest := Raw(t[0]), t[1..];
      assert t == [t[0]] + rest;
      assert StandsFor(p, t[0]);
    }
  }

  /** White space between tokens is skipped: blanks, tabs, line feeds and carriage returns, and nothing else. */
  lemma {:induction false} SpaceIsSkipped(space: Text, s: Text)
    requires forall i | 0 <= i < |space| :: space[i] in {0x20, 0x09, 0x0A, 0x0D}
    requires s == [] || s[0] !in {0x20, 0x09, 0x0A, 0x0D}
    ensures SkipSpace(space + s) == s
  {
    if space == [] {
      assert space + s == s;
    } else {
      assert (space + s)[1..] == space[1..] + s;
      SpaceIsSkipped(space[1..], s);
    }
  }
}
