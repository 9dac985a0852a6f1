/** The canonical printer is deterministic and unambiguous, and decoding its text gives the value back. */
module CanonicalJson {
  import opened SortedEntries
  import opened Json
  import opened Numbers
  import opened JsonRoundTrip

  predicate Nullish(v: Json) {
    v == JUndefined || v == JNull
  }

  /** Equal up to the order of object members; when not strict, undefined also equals null. */
  ghost predicate Same(a: Json, b: Json, strict: bool) {
    match a
    case JUndefined => if strict then b == a else Nullish(b)
    case JNull => if strict then b == a else Nullish(b)
    case JArr(es) =>
      && b.JArr? && |es| == |b.es|
      && forall i | 0 <= i < |es| :: Same(es[i], b.es[i], strict)
    case JObj(ms) =>
      && b.JObj?
      && (forall i | 0 <= i < |ms| :: HasKey(b.ms, ms[i].key))
      && (forall j | 0 <= j < |b.ms| :: HasKey(ms, b.ms[j].key))
      && (forall i, j | 0 <= i < |ms| && 0 <= j < |b.ms| && ms[i].key == b.ms[j].key ::
            Same(ms[i].val, b.ms[j].val, strict))
    case _ => a == b
  }

  ghost predicate HasKey<V>(ms: seq<Entry<V>>, key: Text) {
    exists i | 0 <= i < |ms| :: ms[i].key == key
  }

  /** No undefined anywhere. */
  ghost predicate UndefinedFree(v: Json) {
    match v
    case JUndefined => false
    case JArr(es) => forall i | 0 <= i < |es| :: UndefinedFree(es[i])
    case JObj(ms) => forall i | 0 <= i < |ms| :: UndefinedFree(ms[i].val)
    case _ => true
  }

  // ----- same values print alike -----

  lemma {:induction false} SamePrints(a: Json, b: Json)
    requires WellFormed(a) && WellFormed(b) && Same(a, b, false)
    ensures Print(a) == Print(b)
  {
    match a {
      case JArr(es) =>
        forall i | 0 <= i < |es|
          ensures PrintAll(es)[i] == PrintAll(b.es)[i]
        {
          SamePrints(es[i], b.es[i]);
        }
        assert PrintAll(es) == PrintAll(b.es);
      case JObj(ms) =>
        forall i, j | 0 <= i < |ms| && 0 <= j < |b.ms| && ms[i].key == b.ms[j].key
          ensures Print(ms[i].val) == Print(b.ms[j].val)
        {
          SamePrints(ms[i].val, b.ms[j].val);
        }
        MembersPrintAlike(ms, b.ms);
      case _ =>
    }
  }

  lemma MembersPrintAlike(ms: seq<Entry<Json>>, us: seq<Entry<Json>>)
    requires DistinctKeys(ms) && DistinctKeys(us)
    requires (forall i | 0 <= i < |ms| :: HasKey(us, ms[i].key)) && forall j | 0 <= j < |us| :: HasKey(ms, us[j].key)
    requires forall i, j | 0 <= i < |ms| && 0 <= j < |us| && ms[i].key == us[j].key ::
               Print(ms[i].val) == Print(us[j].val)
    ensures Sort(PrintMembers(ms)) == Sort(PrintMembers(us))
  {
    var pa, pb := PrintMembers(ms), PrintMembers(us);
    KeysCarryOver(ms, us, pa, pb);
    KeysCarryOver(us, ms, pb, pa);
    MembersWithin(pa, pb);
    MembersWithin(pb, pa);
    SortIsCanonical(pa, pb);
  }

  /** Key occurrence depends on the keys alone. */
  lemma KeysCarryOver<V, W>(ms: seq<Entry<V>>, us: seq<Entry<V>>, ns: seq<Entry<W>>, vs: seq<Entry<W>>)
    requires |ms| == |ns| && (forall i | 0 <= i < |ms| :: ms[i].key == ns[i].key)
    requires |us| == |vs| && (forall i | 0 <= i < |us| :: us[i].key == vs[i].key)
    requires forall i | 0 <= i < |ms| :: HasKey(us, ms[i].key)
    ensures forall i | 0 <= i < |ns| :: HasKey(vs, ns[i].key)
  {
    forall i | 0 <= i < |ns|
      ensures HasKey(vs, ns[i].key)
    {
      assert HasKey(us, ms[i].key);
      var j :| 0 <= j < |us| && us[j].key == ms[i].key;
      assert vs[j].key == ns[i].key;
    }
  }

  /** If keys of one list occur in the other, where they carry the same entry, the entries occur there too. */
  lemma MembersWithin<V>(pa: seq<Entry<V>>, pb: seq<Entry<V>>)
    requires forall i | 0 <= i < |pa| :: HasKey(pb, pa[i].key)
    requires forall i, j | 0 <= i < |pa| && 0 <= j < |pb| && pa[i].key == pb[j].key :: pa[i] == pb[j]
    ensures forall x :: x in pa ==> x in pb
  {
    forall x | x in pa
      ensures x in pb
    {
      var i :| 0 <= i < |pa| && pa[i] == x;
      var j :| 0 <= j < |pb| && pb[j].key == pa[i].key;
      assert pb[j] in pb;
    }
  }

  // ----- what normalisation keeps -----

  lemma {:induction false} NormSame(v: Json, strict: bool)
    requires WellFormed(v)
    ensures Same(v, Norm(v), strict) <==> !strict || UndefinedFree(v)
  {
    match v {
      case JArr(es) =>
        forall i | 0 <= i < |es|
          ensures Same(es[i], NormAll(es)[i], strict) <==> !strict || UndefinedFree(es[i])
        {
          NormSame(es[i], strict);
        }
      case JObj(ms) =>
        var ns := NormMembers(ms);
        SortSpec(ns);
        forall i | 0 <= i < |ms|
          ensures Same(ms[i].val, ns[i].val, strict) <==> !strict || UndefinedFree(ms[i].val)
        {
          NormSame(ms[i].val, strict);
        }
        SortedMembersSame(ms, ns, strict);
      case _ =>
    }
  }

  /** The entries of a list and of its sorting correspond. */
  lemma SortedMatch(ns: seq<Entry<Json>>)
    requires DistinctKeys(ns)
    ensures forall i | 0 <= i < |ns| :: HasKey(Sort(ns), ns[i].key)
    ensures forall j | 0 <= j < |Sort(ns)| :: HasKey(ns, Sort(ns)[j].key)
    ensures forall i, j | 0 <= i < |ns| && 0 <= j < |Sort(ns)| && ns[i].key == Sort(ns)[j].key :: ns[i] == Sort(ns)[j]
  {
    var s := Sort(ns);
    SortSpec(ns);
    forall i | 0 <= i < |ns|
      ensures HasKey(s, ns[i].key)
    {
      assert ns[i] in s;
      var j :| 0 <= j < |s| && s[j] == ns[i];
    }
    forall j | 0 <= j < |s|
      ensures HasKey(ns, s[j].key)
    {
      assert s[j] in ns;
      var i :| 0 <= i < |ns| && s[j] == ns[i];
    }
    forall i, j | 0 <= i < |ns| && 0 <= j < |s| && ns[i].key == s[j].key
      ensures ns[i] == s[j]
    {
      assert s[j] in ns;
      var k :| 0 <= k < |ns| && s[j] == ns[k];
    }
  }

  /** An object against the sorting of entries that carry its keys. */
  lemma SortedMembersSame(ms: seq<Entry<Json>>, ns: seq<Entry<Json>>, strict: bool)
    requires |ms| == |ns| && DistinctKeys(ms) && forall i | 0 <= i < |ms| :: ms[i].key == ns[i].key
    ensures Same(JObj(ms), JObj(Sort(ns)), strict) <==> forall i | 0 <= i < |ms| :: Same(ms[i].val, ns[i].val, strict)
  {
    if Same(JObj(ms), JObj(Sort(ns)), strict) {
      forall i | 0 <= i < |ms|
        ensures Same(ms[i].val, ns[i].val, strict)
      {
        SortedValueSame(ms, ns, i, strict);
      }
    }
    if forall i | 0 <= i < |ms| :: Same(ms[i].val, ns[i].val, strict) {
      ValuesSortedSame(ms, ns, strict);
    }
  }

  lemma SortedValueSame(ms: seq<Entry<Json>>, ns: seq<Entry<Json>>, i: nat, strict: bool)
    requires |ms| == |ns| && DistinctKeys(ns) && i < |ms| && ms[i].key == ns[i].key
    requires Same(JObj(ms), JObj(Sort(ns)), strict)
    ensures Same(ms[i].val, ns[i].val, strict)
  {
    SortedMatch(ns);
    assert HasKey(Sort(ns), ns[i].key);
    var j :| 0 <= j < |Sort(ns)| && Sort(ns)[j].key == ns[i].key;
    assert ns[i] == Sort(ns)[j];
  }

  lemma ValuesSortedSame(ms: seq<Entry<Json>>, ns: seq<Entry<Json>>, strict: bool)
    requires |ms| == |ns| && DistinctKeys(ns) && forall i | 0 <= i < |ms| :: ms[i].key == ns[i].key
    requires forall i | 0 <= i < |ms| :: Same(ms[i].val, ns[i].val, strict)
    ensures Same(JObj(ms), JObj(Sort(ns)), strict)
  {
    var s := Sort(ns);
    SortedMatch(ns);
    forall j | 0 <= j < |s|
      ensures HasKey(ms, s[j].key)
    {
      assert HasKey(ns, s[j].key);
      var i :| 0 <= i < |ns| && ns[i].key == s[j].key;
      assert ms[i].key == s[j].key;
    }
    forall i, j | 0 <= i < |ms| && 0 <= j < |s| && ms[i].key == s[j].key
      ensures Same(ms[i].val, s[j].val, strict)
    {
      assert ns[i] == s[j];
    }
  }

  /** Values with the same normal form are the same up to key order and undefined. */
  lemma {:induction false} EqualNormsAreSame(a: Json, b: Json)
    requires WellFormed(a) && WellFormed(b) && Norm(a) == Norm(b)
    ensures Same(a, b, false)
  {
    match a {
      case JArr(es) =>
        forall i | 0 <= i < |es|
          ensures Same(es[i], b.es[i], false)
        {
          assert NormAll(es)[i] == NormAll(b.es)[i];
          EqualNormsAreSame(es[i], b.es[i]);
        }
      case JObj(ms) =>
        NormKeysWithin(ms, b.ms);
        NormKeysWithin(b.ms, ms);
        forall i, j | 0 <= i < |ms| && 0 <= j < |b.ms| && ms[i].key == b.ms[j].key
          ensures Same(ms[i].val, b.ms[j].val, false)
        {
          NormValuesMatch(ms, b.ms, i, j);
          EqualNormsAreSame(ms[i].val, b.ms[j].val);
        }
      case _ =>
    }
  }

  lemma NormKeysWithin(ms: seq<Entry<Json>>, us: seq<Entry<Json>>)
    requires DistinctKeys(ms) && DistinctKeys(us) && Sort(NormMembers(ms)) == Sort(NormMembers(us))
    ensures forall i | 0 <= i < |ms| :: HasKey(us, ms[i].key)
  {
    var na, nb := NormMembers(ms), NormMembers(us);
    SameEntriesMatch(na, nb);
    forall i | 0 <= i < |ms|
      ensures HasKey(us, ms[i].key)
    {
      assert HasKey(nb, na[i].key);
      var j :| 0 <= j < |nb| && nb[j].key == na[i].key;
      assert us[j].key == ms[i].key;
    }
  }

  lemma NormValuesMatch(ms: seq<Entry<Json>>, us: seq<Entry<Json>>, i: nat, j: nat)
    requires DistinctKeys(ms) && DistinctKeys(us) && Sort(NormMembers(ms)) == Sort(NormMembers(us))
    requires i < |ms| && j < |us| && ms[i].key == us[j].key
    ensures Norm(ms[i].val) == Norm(us[j].val)
  {
    var na, nb := NormMembers(ms), NormMembers(us);
    SameEntriesMatch(na, nb);
    assert na[i] == nb[j];
  }

  lemma SameEntriesMatch(na: seq<Entry<Json>>, nb: seq<Entry<Json>>)
    requires DistinctKeys(na) && DistinctKeys(nb) && Sort(na) == Sort(nb)
    ensures forall i | 0 <= i < |na| :: HasKey(nb, na[i].key)
    ensures forall i, j | 0 <= i < |na| && 0 <= j < |nb| && na[i].key == nb[j].key :: na[i] == nb[j]
  {
    SortSpec(na);
    SortSpec(nb);
    forall i | 0 <= i < |na|
      ensures exists k :: 0 <= k < |nb| && nb[k] == na[i]
    {
      assert na[i] in Sort(na);
    }
    forall i, j | 0 <= i < |na| && 0 <= j < |nb| && na[i].key == nb[j].key
      ensures na[i] == nb[j]
    {
      var k :| 0 <= k < |nb| && nb[k] == na[i];
    }
    forall i | 0 <= i < |na|
      ensures HasKey(nb, na[i].key)
    {
      var k :| 0 <= k < |nb| && nb[k] == na[i];
    }
  }

  // ----- the printer decides equality -----

  /** Two values print to the same text exactly when they are equal up to key order (and undefined, printed as null). */
  lemma PrintDecidesEquality(a: Json, b: Json)
    requires WellFormed(a) && WellFormed(b)
    ensures Print(a) == Print(b) <==> Same(a, b, false)
  {
    if Same(a, b, false) {
      SamePrints(a, b);
    } else if Print(a) == Print(b) {
      PrintReadsExactly(a);
      PrintReadsExactly(b);
      EqualNormsAreSame(a, b);
    }
  }

  // ----- parsing yields well-formed, undefined-free values -----

  ghost predicate Clean(v: Json) {
    WellFormed(v) && UndefinedFree(v)
  }

  lemma {:induction false} PutKeepsKeys(ms: seq<Entry<Json>>, m: Entry<Json>)
    requires DistinctKeys(ms)
    ensures DistinctKeys(Put(ms, m))
    ensures forall x :: x in Put(ms, m) ==> x == m || x in ms
    ensures forall i | 0 <= i < |Put(ms, m)| :: Put(ms, m)[i].key == m.key || HasKey(ms, Put(ms, m)[i].key)
  {
    if ms == [] {
    } else if ms[0].key == m.key {
      assert forall i | 1 <= i < |ms| :: Put(ms, m)[i] == ms[i];
    } else {
      var rest, out := ms[1..], Put(ms, m);
      PutKeepsKeys(rest, m);
      assert out == [ms[0]] + Put(rest, m);
      forall i | 0 <= i < |out|
        ensures out[i].key == m.key || HasKey(ms, out[i].key)
        ensures i > 0 ==> out[i].key != ms[0].key
      {
        if i > 0 && out[i].key != m.key {
          assert HasKey(rest, Put(rest, m)[i - 1].key);
          var k :| 0 <= k < |rest| && rest[k].key == out[i].key;
          assert ms[k + 1].key == out[i].key;
        }
      }
      assert ms == [ms[0]] + rest;
    }
  }

  lemma {:induction false} LastWinsIsDistinct(ms: seq<Entry<Json>>)
    ensures DistinctKeys(LastWins(ms)) && forall x :: x in LastWins(ms) ==> x in ms
  {
    if ms != [] {
      LastWinsIsDistinct(ms[..|ms| - 1]);
      PutKeepsKeys(LastWins(ms[..|ms| - 1]), ms[|ms| - 1]);
      assert ms == ms[..|ms| - 1] + [ms[|ms| - 1]];
    }
  }

  ghost predicate AllClean(es: seq<Json>) {
    forall i | 0 <= i < |es| :: Clean(es[i])
  }

  ghost predicate MembersClean(ms: seq<Entry<Json>>) {
    forall i | 0 <= i < |ms| :: Clean(ms[i].val)
  }

  lemma {:induction false} ReadIsClean(text: Text)
    ensures ParseValue(text).Some? ==> Clean(ParseValue(text).value.value)
    decreases |text|, 0
  {
    var s := SkipSpace(text);
    if ParseValue(text).Some? && s[0] == LBRACKET && ParseElements(s[1..]).Some? {
      ElementsAreClean(s[1..]);
      var es := ParseElements(s[1..]).value.value;
      assert ParseValue(text).value.value.es == es || ParseValue(text).value.value.es == [];
    } else if ParseValue(text).Some? && s[0] == LBRACE && ParseMembers(s[1..]).Some? {
      MembersAreClean(s[1..]);
      var ms := ParseMembers(s[1..]).value.value;
      LastWinsIsDistinct(ms);
      forall i | 0 <= i < |LastWins(ms)|
        ensures Clean(LastWins(ms)[i].val)
      {
        assert LastWins(ms)[i] in ms;
      }
    }
  }

  lemma {:induction false} ElementsAreClean(text: Text)
    ensures ParseElements(text).Some? ==> AllClean(ParseElements(text).value.value)
    decreases |text|, 1
  {
    ReadIsClean(text);
    if ParseElements(text).Some? {
      var p := ParseValue(text).value;
      var t := SkipSpace(p.rest);
      if t[0] == COMMA {
        ElementsAreClean(t[1..]);
        assert ParseElements(text).value.value == [p.value] + ParseElements(t[1..]).value.value;
      } else {
        assert ParseElements(text).value.value == [p.value];
      }
    }
  }

  lemma MemberIsClean(text: Text)
    ensures ParseMember(text).Some? ==> Clean(ParseMember(text).value.value.val)
    decreases |text|, 1
  {
    var s := SkipSpace(text);
    if s != [] && s[0] == QUOTE && ParseString(s[1..]).Some? {
      var t := SkipSpace(ParseString(s[1..]).value.rest);
      if t != [] {
        ReadIsClean(t[1..]);
      }
    }
  }

  lemma {:induction false} MembersAreClean(text: Text)
    ensures ParseMembers(text).Some? ==> MembersClean(ParseMembers(text).value.value)
    decreases |text|, 2
  {
    MemberIsClean(text);
    if ParseMembers(text).Some? {
      var p := ParseMember(text).value;
      var u := SkipSpace(p.rest);
      if u[0] == COMMA {
        MembersAreClean(u[1..]);
        assert ParseMembers(text).value.value == [p.value] + ParseMembers(u[1..]).value.value;
      } else {
        assert ParseMembers(text).value.value == [p.value];
      }
    }
  }

  lemma {:induction false} RoundedIsClean(double: Num -> Num, v: Json)
    requires Clean(v)
    ensures Clean(Rounded(double, v))
  {
    match v
    case JArr(es) =>
      forall i | 0 <= i < |es|
        ensures Clean(RoundedAll(double, es)[i])
      {
        RoundedIsClean(double, es[i]);
      }
    case JObj(ms) =>
      forall i | 0 <= i < |ms|
        ensures Clean(RoundedMembers(double, ms)[i].val)
      {
        RoundedIsClean(double, ms[i].val);
      }
    case _ =>
  }

  /** What JSON.parse returns repeats no key, holds no undefined, and has doubles for its numbers. */
  lemma ParsedIsClean(double: Num -> Num, text: Text)
    ensures Parse(double, text).Some? ==> Clean(Parse(double, text).value)
    ensures Parse(double, text).Some? && PrintsBack(double) ==> Represented(double, Parse(double, text).value)
  {
    if Parse(double, text).Some? {
      ReadIsClean(text);
      RoundedIsClean(double, ParseValue(text).value.value);
      if PrintsBack(double) {
        RoundedIsRepresented(double, ParseValue(text).value.value);
      }
    }
  }

  // ----- round trips -----

  /**
   Decoding canonical text gives the value back up to key order, exactly when it held no undefined; in any case the
   result prints to the same text again.
   */
  lemma DecodeEncode(double: Num -> Num, v: Json)
    requires WellFormed(v) && Represented(double, v)
    ensures Parse(double, Print(v)).Some?
    ensures var w := Parse(double, Print(v)).value;
            Same(v, w, false) && (Same(v, w, true) <==> UndefinedFree(v)) && Print(w) == Print(v)
  {
    ParsePrint(double, v);
    NormSame(v, false);
    NormSame(v, true);
    ParsedIsClean(double, Print(v));
    SamePrints(v, Norm(v));
  }

  /** Any two texts of one value, however they are written, re-encode to the same text. */
  lemma TextsOfOneValueReencodeAlike(double: Num -> Num, s: Text, t: Text)
    requires Parse(double, s).Some? && Parse(double, t).Some?
    ensures Same(Parse(double, s).value, Parse(double, t).value, true) <==>
            Print(Parse(double, s).value) == Print(Parse(double, t).value)
  {
    ParsedIsClean(double, s);
    ParsedIsClean(double, t);
    PrintDecidesEquality(Parse(double, s).value, Parse(double, t).value);
    StrictOnClean(Parse(double, s).value, Parse(double, t).value);
  }

  /** Without undefined the two notions of sameness coincide. */
  lemma {:induction false} StrictOnClean(a: Json, b: Json)
    requires UndefinedFree(a) && UndefinedFree(b)
    ensures Same(a, b, true) <==> Same(a, b, false)
  {
    match a {
      case JArr(es) =>
        if b.JArr? && |es| == |b.es| {
          forall i | 0 <= i < |es|
            ensures Same(es[i], b.es[i], true) <==> Same(es[i], b.es[i], false)
          {
            StrictOnClean(es[i], b.es[i]);
          }
        }
      case JObj(ms) =>
        if b.JObj? {
          forall i, j | 0 <= i < |ms| && 0 <= j < |b.ms|
            ensures Same(ms[i].val, b.ms[j].val, true) <==> Same(ms[i].val, b.ms[j].val, false)
          {
            StrictOnClean(ms[i].val, b.ms[j].val);
          }
        }
      case _ =>
    }
  }
}
