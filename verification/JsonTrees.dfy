/**
 The grammar of RFC 8259, sections 2 to 7, as trees: how a value is written, white space included. Every such text is read
 as the value it writes, and whatever JSON.parse reads is such a text.
 */
module JsonTrees {
  import opened Basics
  import opened SortedEntries
  import opened Numbers
  import opened Json
  import opened JsonNumbers
  import opened JsonRoundTrip
  import opened JsonStrings
  import opened CanonicalJson

  datatype Tree =
    | TNull
    | TTrue
    | TFalse
    | TNumber(negative: bool, w: Written)
    | TString(ps: seq<Piece>, s: Text)
    | TArray(items: seq<Item>, gap: Text)
    | TObject(slots: seq<Slot>, gap: Text)

  /** A value with the white space around it. */
  datatype Item = Item(before: Text, tree: Tree, after: Text)

  /** A member: its key, with the white space around it, and its value. */
  datatype Slot = Slot(before: Text, ps: seq<Piece>, key: Text, middle: Text, item: Item)

  predicate Blank(t: Text) {
    forall i | 0 <= i < |t| :: t[i] in {0x20, 0x09, 0x0A, 0x0D}
  }

  ghost predicate Writes(ps: seq<Piece>, s: Text) {
    |ps| == |s| && forall i | 0 <= i < |ps| :: StandsFor(ps[i], s[i])
  }

  ghost predicate Good(t: Tree)
    decreases t, 1
  {
    match t
    case TNumber(_, w) => Grammatical(w)
    case TString(ps, s) => Writes(ps, s)
    case TArray(items, gap) => Blank(gap) && GoodItems(items)
    case TObject(slots, gap) => Blank(gap) && GoodSlots(slots)
    case _ => true
  }

  ghost predicate GoodItem(i: Item)
    decreases i, 2
  {
    Blank(i.before) && Blank(i.after) && Good(i.tree)
  }

  ghost predicate GoodItems(items: seq<Item>)
    decreases items, 0
  {
    items == [] || (GoodItem(items[0]) && GoodItems(items[1..]))
  }

  ghost predicate GoodSlot(s: Slot)
    decreases s, 3
  {
    Blank(s.before) && Blank(s.middle) && Writes(s.ps, s.key) && GoodItem(s.item)
  }

  ghost predicate GoodSlots(slots: seq<Slot>)
    decreases slots, 0
  {
    slots == [] || (GoodSlot(slots[0]) && GoodSlots(slots[1..]))
  }

  // ----- the text and the value of a tree -----

  function StringText(ps: seq<Piece>): Text {
    [QUOTE] + (PiecesText(ps) + [QUOTE])
  }

  function TreeText(t: Tree): Text
    decreases t, 1
  {
    match t
    case TNull => NULL_TEXT
    case TTrue => TRUE_TEXT
    case TFalse => FALSE_TEXT
    case TNumber(negative, w) => SignText(negative) + NumberText(w)
    case TString(ps, _) => StringText(ps)
    case TArray(items, gap) => [LBRACKET] + ((if items == [] then gap else ItemsText(items)) + [RBRACKET])
    case TObject(slots, gap) => [LBRACE] + ((if slots == [] then gap else SlotsText(slots)) + [RBRACE])
  }

  function ItemText(i: Item): Text
    decreases i, 2
  {
    i.before + (TreeText(i.tree) + i.after)
  }

  /** One or more items with commas between them. */
  function ItemsText(items: seq<Item>): Text
    decreases items, 0
  {
    if items == [] then [] else if |items| == 1 then ItemText(items[0])
    else ItemText(items[0]) + ([COMMA] + ItemsText(items[1..]))
  }

  function SlotText(s: Slot): Text
    decreases s, 3
  {
    s.before + (StringText(s.ps) + (s.middle + ([COLON] + ItemText(s.item))))
  }

  function SlotsText(slots: seq<Slot>): Text
    decreases slots, 0
  {
    if slots == [] then [] else if |slots| == 1 then SlotText(slots[0])
    else SlotText(slots[0]) + ([COMMA] + SlotsText(slots[1..]))
  }

  function TreeValue(t: Tree): Json
    decreases t, 1
  {
    match t
    case TNull => JNull
    case TTrue => JBool(true)
    case TFalse => JBool(false)
    case TNumber(negative, w) => if Grammatical(w) then JNum(ValueOf(negative, w)) else JNull
    case TString(_, s) => JStr(s)
    case TArray(items, _) => JArr(ItemValues(items))
    case TObject(slots, _) => JObj(LastWins(SlotValues(slots)))
  }

  function ItemValues(items: seq<Item>): (vs: seq<Json>)
    ensures |vs| == |items|
    decreases items, 0
  {
    if items == [] then [] else [TreeValue(items[0].tree)] + ItemValues(items[1..])
  }

  function SlotValues(slots: seq<Slot>): (ms: seq<Entry<Json>>)
    ensures |ms| == |slots|
    decreases slots, 0
  {
    if slots == [] then [] else [Entry(slots[0].key, TreeValue(slots[0].item.tree))] + SlotValues(slots[1..])
  }

  // ----- every written value is read -----

  lemma BlankSkipped(gap: Text, s: Text)
    requires Blank(gap) && s != [] && !IsSpace(s[0])
    ensures SkipSpace(gap + s) == s
  {
    SpaceIsSkipped(gap, s);
  }

  lemma {:induction false} SkippingTwice(s: Text)
    ensures SkipSpace(SkipSpace(s)) == SkipSpace(s)
  {
    if s != [] && IsSpace(s[0]) {
      SkippingTwice(s[1..]);
    }
  }

  lemma ValueAfterSpace(gap: Text, s: Text)
    requires Blank(gap) && s != [] && !IsSpace(s[0])
    ensures ParseValue(gap + s) == ParseValue(s)
  {
    BlankSkipped(gap, s);
    BlankSkipped([], s);
    assert [] + s == s;
  }

  /** What follows an item: a comma or a closing bracket or brace. */
  predicate Closes(u: Unit) {
    u == COMMA || u == RBRACKET || u == RBRACE
  }

  lemma GapDelimits(gap: Text, u: Unit, tail: Text)
    requires Blank(gap) && Closes(u)
    ensures Delimited(gap + ([u] + tail)) && SkipSpace(gap + ([u] + tail)) == [u] + tail
  {
    BlankSkipped(gap, [u] + tail);
  }

  lemma ItemReads(i: Item, u: Unit, tail: Text)
    requires GoodItem(i) && Reads(TreeText(i.tree), TreeValue(i.tree)) && Closes(u)
    ensures ParseValue(ItemText(i) + ([u] + tail)) == Some(Parsed(TreeValue(i.tree), i.after + ([u] + tail)))
    ensures SkipSpace(i.after + ([u] + tail)) == [u] + tail
    ensures SkipSpace(ItemText(i) + ([u] + tail)) == TreeText(i.tree) + (i.after + ([u] + tail))
  {
    var t, x := TreeText(i.tree), [u] + tail;
    GapDelimits(i.after, u, tail);
    Associative(i.before, t + i.after, x);
    Associative(t, i.after, x);
    ValueAfterSpace(i.before, t + (i.after + x));
    BlankSkipped(i.before, t + (i.after + x));
  }

  lemma LastItem(i: Item, tail: Text)
    requires GoodItem(i) && Reads(TreeText(i.tree), TreeValue(i.tree))
    ensures ParseElements(ItemText(i) + ([RBRACKET] + tail)) == Some(Parsed([TreeValue(i.tree)], tail))
  {
    ItemReads(i, RBRACKET, tail);
    assert ([RBRACKET] + tail)[1..] == tail;
  }

  lemma NextItem(i: Item, tail: Text, vs: seq<Json>, rest: Text)
    requires GoodItem(i) && Reads(TreeText(i.tree), TreeValue(i.tree))
    requires ParseElements(tail) == Some(Parsed(vs, rest))
    ensures ParseElements(ItemText(i) + ([COMMA] + tail)) == Some(Parsed([TreeValue(i.tree)] + vs, rest))
  {
    ItemReads(i, COMMA, tail);
    assert ([COMMA] + tail)[1..] == tail;
  }

  lemma ItemsStep(items: seq<Item>, u: Unit, rest: Text)
    requires |items| > 1
    ensures ItemsText(items) + ([u] + rest) == ItemText(items[0]) + ([COMMA] + (ItemsText(items[1..]) + ([u] + rest)))
  {
    Associative(ItemText(items[0]), [COMMA] + ItemsText(items[1..]), [u] + rest);
    Associative([COMMA], ItemsText(items[1..]), [u] + rest);
  }

  lemma GoodFirst(items: seq<Item>)
    requires items != [] && GoodItems(items)
    ensures GoodItem(items[0]) && Good(items[0].tree) && GoodItems(items[1..])
  {
  }

  lemma OneItem(items: seq<Item>)
    requires |items| == 1
    ensures ItemsText(items) == ItemText(items[0]) && ItemValues(items) == [TreeValue(items[0].tree)]
  {
    assert items[1..] == [];
  }

  lemma {:induction false} ItemsRead(items: seq<Item>, rest: Text)
    requires items != [] && GoodItems(items)
    ensures ParseElements(ItemsText(items) + ([RBRACKET] + rest)) == Some(Parsed(ItemValues(items), rest))
    decreases items, 0
  {
    GoodFirst(items);
    TreeReads(items[0].tree);
    if |items| == 1 {
      LastItem(items[0], rest);
      OneItem(items);
    } else {
      ItemsRead(items[1..], rest);
      ItemsStep(items, RBRACKET, rest);
      NextItem(items[0], ItemsText(items[1..]) + ([RBRACKET] + rest), ItemValues(items[1..]), rest);
    }
  }

  lemma SlotKeyReads(s: Slot, after: Text)
    requires GoodSlot(s)
    ensures var t := SkipSpace(SlotText(s) + after);
            t != [] && t[0] == QUOTE && !IsSpace(t[0])
            && ParseString(t[1..]) == Some(Parsed(s.key, s.middle + ([COLON] + (ItemText(s.item) + after))))
    ensures SkipSpace(s.middle + ([COLON] + (ItemText(s.item) + after))) == [COLON] + (ItemText(s.item) + after)
  {
    var tail := [COLON] + (ItemText(s.item) + after);
    var body := PiecesText(s.ps) + ([QUOTE] + (s.middle + tail));
    StringNotationsRead(s.ps, s.key, s.middle + tail);
    SlotTextIs(s, after);
    BlankSkipped(s.before, [QUOTE] + body);
    BlankSkipped(s.middle, tail);
    assert ([QUOTE] + body)[1..] == body;
  }

  lemma SlotTextIs(s: Slot, after: Text)
    ensures SlotText(s) + after
         == s.before + ([QUOTE] + (PiecesText(s.ps) + ([QUOTE] + (s.middle + ([COLON] + (ItemText(s.item) + after))))))
  {
    var item := ItemText(s.item);
    Associative(s.before, StringText(s.ps) + (s.middle + ([COLON] + item)), after);
    Associative(StringText(s.ps), s.middle + ([COLON] + item), after);
    Associative(s.middle, [COLON] + item, after);
    Associative([COLON], item, after);
    var tail := s.middle + ([COLON] + (item + after));
    Associative([QUOTE], PiecesText(s.ps) + [QUOTE], tail);
    Associative(PiecesText(s.ps), [QUOTE], tail);
  }

  lemma SlotReads(s: Slot, u: Unit, tail: Text)
    requires GoodSlot(s) && Reads(TreeText(s.item.tree), TreeValue(s.item.tree)) && Closes(u)
    ensures ParseMember(SlotText(s) + ([u] + tail)) ==
              Some(Parsed(Entry(s.key, TreeValue(s.item.tree)), s.item.after + ([u] + tail)))
    ensures SkipSpace(s.item.after + ([u] + tail)) == [u] + tail
  {
    var x := [u] + tail;
    SlotKeyReads(s, x);
    ItemReads(s.item, u, tail);
    assert ([COLON] + (ItemText(s.item) + x))[1..] == ItemText(s.item) + x;
  }

  lemma LastSlot(s: Slot, tail: Text)
    requires GoodSlot(s) && Reads(TreeText(s.item.tree), TreeValue(s.item.tree))
    ensures ParseMembers(SlotText(s) + ([RBRACE] + tail)) == Some(Parsed([Entry(s.key, TreeValue(s.item.tree))], tail))
  {
    SlotReads(s, RBRACE, tail);
    assert ([RBRACE] + tail)[1..] == tail;
  }

  lemma NextSlot(s: Slot, tail: Text, ms: seq<Entry<Json>>, rest: Text)
    requires GoodSlot(s) && Reads(TreeText(s.item.tree), TreeValue(s.item.tree))
    requires ParseMembers(tail) == Some(Parsed(ms, rest))
    ensures ParseMembers(SlotText(s) + ([COMMA] + tail)) == Some(Parsed([Entry(s.key, TreeValue(s.item.tree))] + ms, rest))
  {
    SlotReads(s, COMMA, tail);
    assert ([COMMA] + tail)[1..] == tail;
  }

  lemma SlotsStep(slots: seq<Slot>, u: Unit, rest: Text)
    requires |slots| > 1
    ensures SlotsText(slots) + ([u] + rest) == SlotText(slots[0]) + ([COMMA] + (SlotsText(slots[1..]) + ([u] + rest)))
  {
    Associative(SlotText(slots[0]), [COMMA] + SlotsText(slots[1..]), [u] + rest);
    Associative([COMMA], SlotsText(slots[1..]), [u] + rest);
  }

  lemma GoodFirstSlot(slots: seq<Slot>)
    requires slots != [] && GoodSlots(slots)
    ensures GoodSlot(slots[0]) && GoodItem(slots[0].item) && Good(slots[0].item.tree) && GoodSlots(slots[1..])
  {
    assert GoodSlot(slots[0]);
    assert GoodItem(slots[0].item);
  }

  lemma OneSlot(slots: seq<Slot>)
    requires |slots| == 1
    ensures SlotsText(slots) == SlotText(slots[0])
    ensures SlotValues(slots) == [Entry(slots[0].key, TreeValue(slots[0].item.tree))]
  {
    assert slots[1..] == [];
  }

  lemma MoreSlots(slots: seq<Slot>)
    requires slots != []
    ensures SlotValues(slots) == [Entry(slots[0].key, TreeValue(slots[0].item.tree))] + SlotValues(slots[1..])
  {
  }

  lemma {:induction false} SlotsRead(slots: seq<Slot>, rest: Text)
    requires slots != [] && GoodSlots(slots)
    ensures ParseMembers(SlotsText(slots) + ([RBRACE] + rest)) == Some(Parsed(SlotValues(slots), rest))
    decreases slots, 0
  {
    GoodFirstSlot(slots);
    TreeReads(slots[0].item.tree);
    if |slots| == 1 {
      LastSlot(slots[0], rest);
      OneSlot(slots);
    } else {
      SlotsRead(slots[1..], rest);
      SlotsStep(slots, RBRACE, rest);
      MoreSlots(slots);
      NextSlot(slots[0], SlotsText(slots[1..]) + ([RBRACE] + rest), SlotValues(slots[1..]), rest);
    }
  }

  /** The first character of written items, after white space, is that of a value. */
  lemma ItemsStart(items: seq<Item>, rest: Text)
    requires items != [] && GoodItem(items[0]) && Reads(TreeText(items[0].tree), TreeValue(items[0].tree))
    ensures var t := SkipSpace(ItemsText(items) + ([RBRACKET] + rest)); t != [] && t[0] != RBRACKET
  {
    if |items| == 1 {
      ItemReads(items[0], RBRACKET, rest);
    } else {
      ItemsStep(items, RBRACKET, rest);
      ItemReads(items[0], COMMA, ItemsText(items[1..]) + ([RBRACKET] + rest));
    }
  }

  lemma SlotsStart(slots: seq<Slot>, rest: Text)
    requires slots != [] && GoodSlot(slots[0])
    ensures var t := SkipSpace(SlotsText(slots) + ([RBRACE] + rest)); t != [] && t[0] != RBRACE
  {
    if |slots| == 1 {
      SlotKeyReads(slots[0], [RBRACE] + rest);
    } else {
      SlotsStep(slots, RBRACE, rest);
      SlotKeyReads(slots[0], [COMMA] + (SlotsText(slots[1..]) + ([RBRACE] + rest)));
    }
  }

  /** What stands between brackets or braces, and the closing one. */
  lemma Enclosed(open: Unit, inside: Text, close: Unit, rest: Text)
    ensures [open] + (inside + [close]) + rest == [open] + (inside + ([close] + rest))
  {
    Associative([open], inside + [close], rest);
    Associative(inside, [close], rest);
  }

  lemma ArrayParses(s: Text)
    ensures ParseValue([LBRACKET] + s) ==
              var t := SkipSpace(s);
              if t != [] && t[0] == RBRACKET then Some(Parsed(JArr([]), t[1..]))
              else match ParseElements(s) case None => None case Some(p) => Some(Parsed(JArr(p.value), p.rest))
  {
    assert SkipSpace([LBRACKET] + s) == [LBRACKET] + s && ([LBRACKET] + s)[1..] == s;
  }

  lemma ObjectParses(s: Text)
    ensures ParseValue([LBRACE] + s) ==
              var t := SkipSpace(s);
              if t != [] && t[0] == RBRACE then Some(Parsed(JObj([]), t[1..]))
              else match ParseMembers(s) case None => None case Some(p) => Some(Parsed(JObj(LastWins(p.value)), p.rest))
  {
    assert SkipSpace([LBRACE] + s) == [LBRACE] + s && ([LBRACE] + s)[1..] == s;
  }

  lemma ArrayReads(items: seq<Item>, gap: Text)
    requires Blank(gap) && GoodItems(items)
    ensures Reads(TreeText(TArray(items, gap)), JArr(ItemValues(items)))
    decreases items, 1
  {
    var inside := if items == [] then gap else ItemsText(items);
    forall rest | Delimited(rest)
      ensures ParseValue([LBRACKET] + (inside + [RBRACKET]) + rest) == Some(Parsed(JArr(ItemValues(items)), rest))
    {
      Enclosed(LBRACKET, inside, RBRACKET, rest);
      ArrayParses(inside + ([RBRACKET] + rest));
      if items == [] {
        BlankSkipped(gap, [RBRACKET] + rest);
        assert ([RBRACKET] + rest)[1..] == rest;
      } else {
        GoodFirst(items);
        TreeReads(items[0].tree);
        ItemsStart(items, rest);
        ItemsRead(items, rest);
      }
    }
  }

  lemma ObjectReads(slots: seq<Slot>, gap: Text)
    requires Blank(gap) && GoodSlots(slots)
    ensures Reads(TreeText(TObject(slots, gap)), JObj(LastWins(SlotValues(slots))))
    decreases slots, 1
  {
    var inside := if slots == [] then gap else SlotsText(slots);
    forall rest | Delimited(rest)
      ensures ParseValue([LBRACE] + (inside + [RBRACE]) + rest) == Some(Parsed(JObj(LastWins(SlotValues(slots))), rest))
    {
      Enclosed(LBRACE, inside, RBRACE, rest);
      ObjectParses(inside + ([RBRACE] + rest));
      if slots == [] {
        BlankSkipped(gap, [RBRACE] + rest);
        assert ([RBRACE] + rest)[1..] == rest;
      } else {
        GoodFirstSlot(slots);
        SlotsStart(slots, rest);
        SlotsRead(slots, rest);
      }
    }
  }

  lemma NumberReads(negative: bool, w: Written)
    requires Grammatical(w)
    ensures Reads(SignText(negative) + NumberText(w), JNum(ValueOf(negative, w)))
  {
    NumberStart(w, negative, []);
    var t := SignText(negative) + NumberText(w);
    assert t + [] == t;
    forall rest | Delimited(rest)
      ensures ParseValue(t + rest) == Some(Parsed(JNum(ValueOf(negative, w)), rest))
    {
      SignedNumberReads(w, negative, rest);
      NumberStart(w, negative, rest);
      ParsesAsNumber(t + rest);
    }
  }

  lemma StringReads(ps: seq<Piece>, s: Text)
    requires Writes(ps, s)
    ensures Reads(StringText(ps), JStr(s))
  {
    forall rest | Delimited(rest)
      ensures ParseValue(StringText(ps) + rest) == Some(Parsed(JStr(s), rest))
    {
      Enclosed(QUOTE, PiecesText(ps), QUOTE, rest);
      StringNotationsRead(ps, s, rest);
      ParsesAsString(PiecesText(ps) + ([QUOTE] + rest), s, rest);
    }
  }

  /** However a value is written, it is read as that value, in every context that does not continue it. */
  lemma {:induction false} TreeReads(t: Tree)
    requires Good(t)
    ensures Reads(TreeText(t), TreeValue(t))
    decreases t, 1
  {
    match t
    case TNull => ReadsWord(NULL_TEXT, JNull);
    case TTrue => ReadsWord(TRUE_TEXT, JBool(true));
    case TFalse => ReadsWord(FALSE_TEXT, JBool(false));
    case TNumber(negative, w) => NumberReads(negative, w);
    case TString(ps, s) => StringReads(ps, s);
    case TArray(items, gap) => ArrayReads(items, gap);
    case TObject(slots, gap) => ObjectReads(slots, gap);
  }

  // ----- whatever is read is written -----

  lemma {:induction false} SpaceTaken(text: Text) returns (gap: Text)
    ensures Blank(gap) && text == gap + SkipSpace(text)
    ensures var s := SkipSpace(text); s != [] ==> !IsSpace(s[0])
  {
    if text != [] && IsSpace(text[0]) {
      var rest := SpaceTaken(text[1..]);
      gap := [text[0]] + rest;
      assert text == [text[0]] + text[1..];
    } else {
      gap := [];
    }
  }

  lemma WrittenFraction(s: Text) returns (fraction: Text)
    requires ParseFraction(s).Some?
    ensures ParseFraction(s).value.value == fraction && Digits(fraction)
    ensures s == (if fraction == [] then [] else [DOT] + fraction) + ParseFraction(s).value.rest
  {
    fraction := ParseFraction(s).value.value;
    if s != [] && s[0] == DOT {
      var k := DigitCount(s[1..]);
      assert s == [s[0]] + s[1..] && s[1..] == s[1..][..k] + s[1..][k..];
    } else {
      assert s == [] + s;
    }
  }

  predicate IsSign(sign: Text) {
    sign == [] || sign == [PLUS] || sign == [MINUS]
  }

  lemma SignTaken(t: Text) returns (sign: Text, u: Text)
    ensures t == sign + u && IsSign(sign) && u == if t != [] && t[0] in {PLUS, MINUS} then t[1..] else t
    ensures sign == [MINUS] <==> t != [] && t[0] == MINUS
  {
    if t != [] && t[0] in {PLUS, MINUS} {
      sign, u := [t[0]], t[1..];
    } else {
      sign, u := [], t;
    }
  }

  lemma ExponentShape(s: Text, sign: Text, u: Text)
    requires s != [] && s[0] in {LOWER_E, UPPER_E} && ParseExponent(s).Some?
    requires u == (if s[1..] != [] && s[1..][0] in {PLUS, MINUS} then s[1..][1..] else s[1..])
    requires sign == [MINUS] <==> s[1..] != [] && s[1..][0] == MINUS
    ensures var k := DigitCount(u);
            && k > 0 && ParseExponent(s).value.rest == u[k..]
            && ParseExponent(s).value.value == if sign == [MINUS] then -(NumValue(u[..k]) as int) else NumValue(u[..k])
  {
  }

  lemma ExponentJoined(s: Text, mark: Unit, sign: Text, u: Text, k: nat)
    requires s != [] && s[0] == mark && s[1..] == sign + u && k <= |u|
    ensures s == [mark] + sign + u[..k] + u[k..]
  {
    assert u == u[..k] + u[k..] && s == [mark] + s[1..];
    Regroup([mark], sign, u[..k], u[k..]);
  }

  lemma NoExponent(s: Text)
    requires s == [] || s[0] !in {LOWER_E, UPPER_E}
    ensures ParseExponent(s) == Some(Parsed(0, s))
  {
  }

  lemma SomeExponent(s: Text) returns (sign: Text, digits: Text)
    requires s != [] && s[0] in {LOWER_E, UPPER_E} && ParseExponent(s).Some?
    ensures IsSign(sign) && Digits(digits) && digits != []
    ensures s == [s[0]] + sign + digits + ParseExponent(s).value.rest
    ensures ParseExponent(s).value.value == if sign == [MINUS] then -(NumValue(digits) as int) else NumValue(digits)
  {
    var u;
    sign, u := SignTaken(s[1..]);
    ExponentShape(s, sign, u);
    digits := LeadingDigits(u);
    ExponentJoined(s, s[0], sign, u, |digits|);
  }

  lemma LeadingDigits(u: Text) returns (digits: Text)
    ensures |digits| == DigitCount(u) && digits == u[..DigitCount(u)] && Digits(digits)
  {
    digits := u[..DigitCount(u)];
  }

  lemma WrittenExponent(s: Text) returns (mark: Unit, sign: Text, digits: Text)
    requires ParseExponent(s).Some?
    ensures (mark == LOWER_E || mark == UPPER_E) && IsSign(sign) && Digits(digits)
    ensures s == (if digits == [] then [] else [mark] + sign + digits) + ParseExponent(s).value.rest
    ensures ParseExponent(s).value.value ==
              if digits == [] then 0 else if sign == [MINUS] then -(NumValue(digits) as int) else NumValue(digits)
  {
    if s != [] && s[0] in {LOWER_E, UPPER_E} {
      mark := s[0];
      sign, digits := SomeExponent(s);
    } else {
      mark, sign, digits := LOWER_E, [], [];
      NoExponent(s);
      assert s == [] + s;
    }
  }

  lemma UnsignedShape(s: Text)
    requires ParseUnsigned(s).Some?
    ensures var k := DigitCount(s);
            && k > 0 && (s[0] == ZERO ==> k == 1) && ParseFraction(s[k..]).Some?
            && var f := ParseFraction(s[k..]).value;
               && ParseExponent(f.rest).Some?
               && ParseUnsigned(s).value ==
                    Parsed(Tokened(s[..k], f.value, ParseExponent(f.rest).value.value), ParseExponent(f.rest).value.rest)
  {
  }

  lemma NumberJoined(w: Written, s: Text, k: nat, rest: Text)
    requires k <= |s| && w.whole == s[..k] && s[k..] == FractionText(w) + (ExponentText(w) + rest)
    ensures s == NumberText(w) + rest
  {
    assert s == s[..k] + s[k..];
    Associative(FractionText(w), ExponentText(w), rest);
    Associative(w.whole, FractionText(w) + ExponentText(w), rest);
  }

  lemma WrittenNumber(s: Text) returns (w: Written)
    requires ParseUnsigned(s).Some?
    ensures Grammatical(w) && s == NumberText(w) + ParseUnsigned(s).value.rest
    ensures TokenOf(w) == ParseUnsigned(s).value.value
  {
    var k := DigitCount(s);
    UnsignedShape(s);
    var fraction := WrittenFraction(s[k..]);
    var f := ParseFraction(s[k..]).value;
    var mark, sign, digits := WrittenExponent(f.rest);
    w := Written(s[..k], fraction, digits, mark, sign);
    WholeIsGood(s, k);
    TokenIsSo(w, ParseExponent(f.rest).value.value);
    NumberJoined(w, s, k, ParseExponent(f.rest).value.rest);
  }

  lemma WholeIsGood(s: Text, k: nat)
    requires k == DigitCount(s) && k > 0 && (s[0] == ZERO ==> k == 1)
    ensures s[..k] != [] && Digits(s[..k]) && (s[..k][0] == ZERO ==> |s[..k]| == 1)
  {
  }

  lemma TokenIsSo(w: Written, e: int)
    requires w.whole != [] && Digits(w.whole) && (w.whole[0] == ZERO ==> |w.whole| == 1)
    requires Digits(w.fraction) && Digits(w.exponent) && IsSign(w.sign) && (w.mark == LOWER_E || w.mark == UPPER_E)
    requires e == if w.exponent == [] then 0 else if w.sign == [MINUS] then -(NumValue(w.exponent) as int)
                  else NumValue(w.exponent)
    ensures Grammatical(w) && TokenOf(w) == Tokened(w.whole, w.fraction, e)
  {
  }

  lemma NumberParts(s: Text)
    requires ParseNumber(s).Some?
    ensures var negative := s != [] && s[0] == MINUS;
            var u := if negative then s[1..] else s;
            && ParseUnsigned(u).Some? && ParseNumber(s).value.rest == ParseUnsigned(u).value.rest
            && ParseNumber(s).value.value
               == JNum(Normalize(negative, ParseUnsigned(u).value.value.mantissa, ParseUnsigned(u).value.value.exponent))
            && s == SignText(negative) + u
  {
  }

  lemma NumberTree(s: Text) returns (t: Tree)
    requires ParseNumber(s).Some?
    ensures Good(t) && s == TreeText(t) + ParseNumber(s).value.rest && TreeValue(t) == ParseNumber(s).value.value
  {
    var negative := s != [] && s[0] == MINUS;
    var u := if negative then s[1..] else s;
    NumberParts(s);
    var w := WrittenNumber(u);
    t := TNumber(negative, w);
    Associative(SignText(negative), NumberText(w), ParseUnsigned(u).value.rest);
    assert TreeText(t) == SignText(negative) + NumberText(w);
  }

  lemma StringTree(s: Text) returns (ps: seq<Piece>)
    requires s != [] && s[0] == QUOTE && ParseString(s[1..]).Some?
    ensures Writes(ps, ParseString(s[1..]).value.value)
    ensures s == StringText(ps) + ParseString(s[1..]).value.rest
  {
    ps := ReadPieces(s[1..]);
    assert s == [QUOTE] + s[1..];
    Enclosed(QUOTE, PiecesText(ps), QUOTE, ParseString(s[1..]).value.rest);
  }

  lemma WordTree(s: Text, word: Text, v: Json)
    requires word != [] && ParseWord(s, word, v).Some?
    ensures s == word + ParseWord(s, word, v).value.rest && ParseWord(s, word, v).value.value == v
  {
    assert s == s[..|word|] + s[|word|..];
  }

  /** What is read as an item: the value, and the white space before and after it. */
  lemma ItemTree(text: Text) returns (i: Item)
    requires ParseValue(text).Some?
    ensures var s := SkipSpace(ParseValue(text).value.rest);
            && GoodItem(i) && text == ItemText(i) + s && TreeValue(i.tree) == ParseValue(text).value.value
            && (s != [] ==> !IsSpace(s[0]))
    decreases |text|, 1
  {
    var before, t := ValueTree(text);
    var rest := ParseValue(text).value.rest;
    var after := SpaceTaken(rest);
    i := Item(before, t, after);
    Associative(TreeText(t), after, SkipSpace(rest));
    Associative(before, TreeText(t) + after, SkipSpace(rest));
  }

  lemma ItemsMore(text: Text, s: Text)
    requires ParseElements(text).Some? && s == SkipSpace(ParseValue(text).value.rest) && s != [] && s[0] != RBRACKET
    ensures s[0] == COMMA && ParseElements(s[1..]).Some?
    ensures ParseElements(text).value.value == [ParseValue(text).value.value] + ParseElements(s[1..]).value.value
    ensures ParseElements(text).value.rest == ParseElements(s[1..]).value.rest
  {
  }

  lemma ItemsEnd(text: Text, s: Text)
    requires ParseElements(text).Some? && s == SkipSpace(ParseValue(text).value.rest) && s != [] && s[0] == RBRACKET
    ensures ParseElements(text) == Some(Parsed([ParseValue(text).value.value], s[1..]))
  {
  }

  lemma OneGoodItem(i: Item)
    requires GoodItem(i)
    ensures GoodItems([i]) && ItemsText([i]) == ItemText(i) && ItemValues([i]) == [TreeValue(i.tree)]
  {
    OneItem([i]);
    assert [i][1..] == [];
  }

  lemma MoreGoodItems(i: Item, more: seq<Item>, rest: Text)
    requires GoodItem(i) && more != [] && GoodItems(more)
    ensures GoodItems([i] + more) && ItemValues([i] + more) == [TreeValue(i.tree)] + ItemValues(more)
    ensures ItemsText([i] + more) + ([RBRACKET] + rest) == ItemText(i) + ([COMMA] + (ItemsText(more) + ([RBRACKET] + rest)))
  {
    assert ([i] + more)[1..] == more;
    ItemsStep([i] + more, RBRACKET, rest);
  }

  lemma {:induction false} ElementsTree(text: Text) returns (items: seq<Item>)
    requires ParseElements(text).Some?
    ensures items != [] && GoodItems(items) && ItemValues(items) == ParseElements(text).value.value
    ensures text == ItemsText(items) + ([RBRACKET] + ParseElements(text).value.rest)
    decreases |text|, 2
  {
    var i := ItemTree(text);
    var s := SkipSpace(ParseValue(text).value.rest);
    assert s == [s[0]] + s[1..];
    if s[0] == RBRACKET {
      ItemsEnd(text, s);
      OneGoodItem(i);
      items := [i];
    } else {
      ItemsMore(text, s);
      var more := ElementsTree(s[1..]);
      MoreGoodItems(i, more, ParseElements(text).value.rest);
      items := [i] + more;
    }
  }

  lemma SlotTree(text: Text) returns (slot: Slot)
    requires ParseMember(text).Some?
    ensures var s := SkipSpace(ParseMember(text).value.rest);
            && GoodSlot(slot) && text == SlotText(slot) + s && (s != [] ==> !IsSpace(s[0]))
            && ParseMember(text).value.value == Entry(slot.key, TreeValue(slot.item.tree))
    decreases |text|, 1
  {
    var before := SpaceTaken(text);
    var s := SkipSpace(text);
    var ps := StringTree(s);
    var k := ParseString(s[1..]).value;
    var middle := SpaceTaken(k.rest);
    var t := SkipSpace(k.rest);
    assert t == [COLON] + t[1..];
    var i := ItemTree(t[1..]);
    slot := Slot(before, ps, k.value, middle, i);
    SlotTextIs(slot, SkipSpace(ParseMember(text).value.rest));
    Enclosed(QUOTE, PiecesText(ps), QUOTE, k.rest);
  }

  lemma {:induction false} MembersTree(text: Text) returns (slots: seq<Slot>)
    requires ParseMembers(text).Some?
    ensures slots != [] && GoodSlots(slots) && SlotValues(slots) == ParseMembers(text).value.value
    ensures text == SlotsText(slots) + ([RBRACE] + ParseMembers(text).value.rest)
    decreases |text|, 2
  {
    var slot := SlotTree(text);
    var s := SkipSpace(ParseMember(text).value.rest);
    assert s == [s[0]] + s[1..];
    if s[0] == RBRACE {
      slots := [slot];
      OneSlot(slots);
      assert GoodSlots(slots[1..]);
    } else {
      var more := MembersTree(s[1..]);
      slots := [slot] + more;
      assert slots[1..] == more;
      MoreSlots(slots);
      SlotsStep(slots, RBRACE, ParseMembers(text).value.rest);
    }
  }

  lemma ArrayTree(s: Text) returns (t: Tree)
    requires s != [] && s[0] == LBRACKET && ParseValue(s).Some?
    ensures Good(t) && s == TreeText(t) + ParseValue(s).value.rest && TreeValue(t) == ParseValue(s).value.value
    decreases |s|, 0, 0
  {
    var inside := s[1..];
    assert s == [LBRACKET] + inside;
    ArrayParses(inside);
    var u := SkipSpace(inside);
    if u != [] && u[0] == RBRACKET {
      t := EmptyArrayTree(inside, u[1..]);
    } else {
      var items := ElementsTree(inside);
      t := TArray(items, []);
      Enclosed(LBRACKET, ItemsText(items), RBRACKET, ParseElements(inside).value.rest);
    }
  }

  lemma EmptyArrayTree(inside: Text, rest: Text) returns (t: Tree)
    requires SkipSpace(inside) == [RBRACKET] + rest
    ensures Good(t) && [LBRACKET] + inside == TreeText(t) + rest && TreeValue(t) == JArr([])
  {
    var gap := SpaceTaken(inside);
    t := TArray([], gap);
    Enclosed(LBRACKET, gap, RBRACKET, rest);
  }

  lemma ObjectTree(s: Text) returns (t: Tree)
    requires s != [] && s[0] == LBRACE && ParseValue(s).Some?
    ensures Good(t) && s == TreeText(t) + ParseValue(s).value.rest && TreeValue(t) == ParseValue(s).value.value
    decreases |s|, 0, 0
  {
    var inside := s[1..];
    assert s == [LBRACE] + inside;
    ObjectParses(inside);
    var u := SkipSpace(inside);
    if u != [] && u[0] == RBRACE {
      t := EmptyObjectTree(inside, u[1..]);
    } else {
      var slots := MembersTree(inside);
      t := TObject(slots, []);
      Enclosed(LBRACE, SlotsText(slots), RBRACE, ParseMembers(inside).value.rest);
    }
  }

  lemma EmptyObjectTree(inside: Text, rest: Text) returns (t: Tree)
    requires SkipSpace(inside) == [RBRACE] + rest
    ensures Good(t) && [LBRACE] + inside == TreeText(t) + rest && TreeValue(t) == JObj([])
  {
    var gap := SpaceTaken(inside);
    t := TObject([], gap);
    Enclosed(LBRACE, gap, RBRACE, rest);
  }

  lemma PlainTree(s: Text) returns (t: Tree)
    requires s != [] && !IsSpace(s[0]) && s[0] != LBRACKET && s[0] != LBRACE && ParseValue(s).Some?
    ensures Good(t) && s == TreeText(t) + ParseValue(s).value.rest && TreeValue(t) == ParseValue(s).value.value
  {
    NothingToSkip(s);
    if s[0] == QUOTE {
      var ps := StringTree(s);
      t := TString(ps, ParseString(s[1..]).value.value);
    } else if s[0] == LOWER_N {
      t := TNull;
      WordTree(s, NULL_TEXT, JNull);
    } else if s[0] == LOWER_T {
      t := TTrue;
      WordTree(s, TRUE_TEXT, JBool(true));
    } else if s[0] == LOWER_F {
      t := TFalse;
      WordTree(s, FALSE_TEXT, JBool(false));
    } else {
      t := NumberTree(s);
    }
  }

  lemma ValueTree(text: Text) returns (gap: Text, t: Tree)
    requires ParseValue(text).Some?
    ensures Blank(gap) && Good(t) && text == gap + (TreeText(t) + ParseValue(text).value.rest)
    ensures TreeValue(t) == ParseValue(text).value.value
    decreases |text|, 0, 1
  {
    gap := SpaceTaken(text);
    var s := SkipSpace(text);
    SkippingTwice(text);
    assert ParseValue(s) == ParseValue(text);
    if s[0] == LBRACKET {
      t := ArrayTree(s);
    } else if s[0] == LBRACE {
      t := ObjectTree(s);
    } else {
      t := PlainTree(s);
    }
  }

  // ----- the theorem -----

  /** The text writes the value: a tree of the grammar with white space around it. */
  ghost predicate Denotes(text: Text, v: Json) {
    exists i: Item :: GoodItem(i) && text == ItemText(i) && TreeValue(i.tree) == v
  }

  lemma {:induction false} BlankIsSkipped(gap: Text)
    requires Blank(gap)
    ensures SkipSpace(gap) == []
  {
    SpaceIsSkipped(gap, []);
    assert gap + [] == gap;
  }

  /** JSON.parse reads exactly the texts of the grammar, each as the value it writes, its numbers rounded. */
  lemma ParsesExactlyJson(double: Num -> Num, text: Text, v: Json)
    ensures Parse(double, text) == Some(v) <==> exists w :: Denotes(text, w) && v == Rounded(double, w)
  {
    if Parse(double, text) == Some(v) {
      var i := ItemTree(text);
      var w := ParseValue(text).value.value;
      assert ItemText(i) + [] == ItemText(i);
      assert Denotes(text, w);
    }
    if w :| Denotes(text, w) && v == Rounded(double, w) {
      var i: Item :| GoodItem(i) && text == ItemText(i) && TreeValue(i.tree) == w;
      WholeItemReads(i);
    }
  }

  lemma WholeItemReads(i: Item)
    requires GoodItem(i)
    ensures ParseValue(ItemText(i)) == Some(Parsed(TreeValue(i.tree), i.after))
    ensures SkipSpace(i.after) == []
  {
    TreeReads(i.tree);
    BlankIsSkipped(i.after);
    assert Delimited(i.after);
    ValueAfterSpace(i.before, TreeText(i.tree) + i.after);
  }

  // ----- repeated keys -----

  ghost predicate LastOfKey(ms: seq<Entry<Json>>, i: nat, x: Entry<Json>) {
    i < |ms| && ms[i] == x && forall j | i < j < |ms| :: ms[j].key != x.key
  }

  lemma {:induction false} PutMeaning(ms: seq<Entry<Json>>, m: Entry<Json>, x: Entry<Json>)
    requires DistinctKeys(ms)
    ensures x in Put(ms, m) <==> x == m || (x in ms && x.key != m.key)
  {
    if ms != [] {
      assert ms == [ms[0]] + ms[1..];
      if ms[0].key == m.key {
        assert forall y | y in ms[1..] :: y.key != m.key;
      } else {
        PutMeaning(ms[1..], m, x);
      }
    }
  }

  lemma LastOfInit(ms: seq<Entry<Json>>, x: Entry<Json>)
    requires ms != []
    ensures var init, last := ms[..|ms| - 1], ms[|ms| - 1];
            (exists i: nat | i < |ms| :: LastOfKey(ms, i, x)) <==>
              x == last || ((exists i: nat | i < |init| :: LastOfKey(init, i, x)) && x.key != last.key)
  {
    var init, last := ms[..|ms| - 1], ms[|ms| - 1];
    if i: nat :| i < |ms| && LastOfKey(ms, i, x) {
      if i < |init| {
        assert LastOfKey(init, i, x) && ms[|ms| - 1].key != x.key;
      }
    }
    if x == last {
      assert LastOfKey(ms, |ms| - 1, x);
    } else if x.key != last.key {
      if i: nat :| i < |init| && LastOfKey(init, i, x) {
        assert LastOfKey(ms, i, x);
      }
    }
  }

  /** Of members with one key an object keeps the last, and keeps every such last one. */
  lemma {:induction false} LastWinsMeaning(ms: seq<Entry<Json>>, x: Entry<Json>)
    ensures x in LastWins(ms) <==> exists i: nat | i < |ms| :: LastOfKey(ms, i, x)
  {
    if ms != [] {
      var init := ms[..|ms| - 1];
      LastWinsMeaning(init, x);
      LastWinsIsDistinct(init);
      PutMeaning(LastWins(init), ms[|ms| - 1], x);
      LastOfInit(ms, x);
    }
  }
}
