/**
 The part of Zod the runner's schemas use: what `parse` accepts, and the value it returns. Objects lose their unknown
 keys and come out in the order of the schema; a key that is present with the value undefined stays present.
 */
module Schemas {
  import opened Basics
  import opened SortedEntries
  import opened Json
  import opened Numbers
  import opened JsonRoundTrip
  import opened CanonicalJson

  datatype Schema =
    | AnyString(min: nat, max: Option<nat>, ok: Text -> bool)
    | AnyBool
    | WholeNumber(least: int, most: int)
    | Literal(value: Json)
    | OneOf(options: seq<Text>)
    | ListOf(elem: Schema, min: nat, max: Option<nat>)
    | Shape(fields: seq<Field>)
    | AnyRecord
    | Unknown

  datatype Field = Field(name: Text, schema: Schema, optional: bool)

  predicate IsAscii(s: string) {
    forall i | 0 <= i < |s| :: s[i] < '\U{0080}'
  }

  /** An ASCII string literal as UTF-16. */
  function Ascii(s: string): (t: Text)
    requires IsAscii(s)
    ensures |t| == |s| && forall i | 0 <= i < |s| :: t[i] == s[i] as int
  {
    seq(|s|, i requires 0 <= i < |s| => s[i] as int)
  }

  /** The key Zod never copies. */
  const PROTO: Text := Ascii("__proto__")

  /** Literals are scalars; a shape names each key once and never __proto__. */
  predicate Proper(s: Schema) {
    match s
    case Literal(v) => v.JNull? || v.JBool? || v.JNum? || v.JStr?
    case ListOf(elem, _, _) => Proper(elem)
    case Shape(fs) =>
      && (forall i, j | 0 <= i < j < |fs| :: fs[i].name != fs[j].name)
      && forall i | 0 <= i < |fs| :: fs[i].name != PROTO && Proper(fs[i].schema)
    case _ => true
  }

  // ----- notation -----

  predicate AnyText(t: Text) {
    true
  }

  function Required(name: string, s: Schema): Field
    requires IsAscii(name)
  {
    Field(Ascii(name), s, false)
  }

  function Optionally(name: string, s: Schema): Field
    requires IsAscii(name)
  {
    Field(Ascii(name), s, true)
  }

  function Word(s: string): Json
    requires IsAscii(s)
  {
    JStr(Ascii(s))
  }

  // ----- parsing -----

  /** The value of a key, undefined when absent. */
  function Lookup(ms: seq<Entry<Json>>, key: Text): Json {
    if ms == [] then JUndefined
    else if ms[0].key == key then ms[0].val
    else Lookup(ms[1..], key)
  }

  /** key in object */
  predicate Has(ms: seq<Entry<Json>>, key: Text) {
    exists i | 0 <= i < |ms| :: ms[i].key == key
  }

  /** The copy a record schema makes. */
  function WithoutProto(ms: seq<Entry<Json>>): seq<Entry<Json>> {
    if ms == [] then [] else (if ms[0].key == PROTO then [] else [ms[0]]) + WithoutProto(ms[1..])
  }

  /** Schema.parse; None stands for a ZodError. */
  function Validate(s: Schema, v: Json): Option<Json>
    decreases s, 1
  {
    match s
    case AnyString(min, max, ok) =>
      if v.JStr? && min <= |v.s| && (max.None? || |v.s| <= max.value) && ok(v.s) then Some(v) else None
    case AnyBool => if v.JBool? then Some(v) else None
    case WholeNumber(least, most) =>
      if v.JNum? && IsInteger(v.n) && least <= IntegerValue(v.n) <= most then Some(v) else None
    case Literal(value) => if v == value then Some(v) else None
    case OneOf(options) => if v.JStr? && v.s in options then Some(v) else None
    case ListOf(elem, min, max) =>
      if v.JArr? && min <= |v.es| && (max.None? || |v.es| <= max.value) then
        match ValidateAll(elem, v.es)
        case None => None
        case Some(ws) => Some(JArr(ws))
      else None
    case Shape(fs) =>
      if v.JObj? then
        match ValidateFields(fs, v.ms)
        case None => None
        case Some(ws) => Some(JObj(ws))
      else None
    case AnyRecord => if v.JObj? then Some(JObj(WithoutProto(v.ms))) else None
    case Unknown => Some(v)
  }

  function ValidateAll(elem: Schema, vs: seq<Json>): Option<seq<Json>>
    decreases elem, 2, |vs|
  {
    if vs == [] then Some([])
    else
      match (Validate(elem, vs[0]), ValidateAll(elem, vs[1..]))
      case (Some(w), Some(ws)) => Some([w] + ws)
      case _ => None
  }

  /** One property; an absent result is left out unless the key is there. */
  function ValidateField(f: Field, ms: seq<Entry<Json>>): Option<seq<Entry<Json>>>
    decreases f, 2
  {
    var v := Lookup(ms, f.name);
    var w := if f.optional && v == JUndefined then Some(JUndefined) else Validate(f.schema, v);
    if w.None? then None
    else if w.value != JUndefined || Has(ms, f.name) then Some([Entry(f.name, w.value)])
    else Some([])
  }

  function ValidateFields(fs: seq<Field>, ms: seq<Entry<Json>>): Option<seq<Entry<Json>>>
    decreases fs, 0
  {
    if fs == [] then Some([])
    else
      match (ValidateField(fs[0], ms), ValidateFields(fs[1..], ms))
      case (Some(w), Some(ws)) => Some(w + ws)
      case _ => None
  }

  // ----- property access -----

  lemma {:induction false} LookupSpec(ms: seq<Entry<Json>>, key: Text)
    ensures !Has(ms, key) ==> Lookup(ms, key) == JUndefined
    ensures Has(ms, key) ==> exists i | 0 <= i < |ms| :: ms[i] == Entry(key, Lookup(ms, key))
  {
    if ms != [] && ms[0].key != key {
      LookupSpec(ms[1..], key);
      assert forall i | 0 <= i < |ms[1..]| :: ms[1..][i] == ms[i + 1];
      if Has(ms, key) {
        var k :| 0 <= k < |ms| && ms[k].key == key;
        assert ms[1..][k - 1].key == key;
        var j :| 0 <= j < |ms[1..]| && ms[1..][j] == Entry(key, Lookup(ms[1..], key));
        assert ms[j + 1] == Entry(key, Lookup(ms, key));
      }
    } else if ms != [] {
      assert ms[0] == Entry(key, Lookup(ms, key));
    }
  }

  /** Objects that are the same answer every property access alike. */
  lemma SameLookup(ms: seq<Entry<Json>>, us: seq<Entry<Json>>, key: Text)
    requires Same(JObj(ms), JObj(us), true)
    ensures Has(ms, key) <==> Has(us, key)
    ensures Same(Lookup(ms, key), Lookup(us, key), true)
  {
    LookupSpec(ms, key);
    LookupSpec(us, key);
    if Has(ms, key) {
      var i :| 0 <= i < |ms| && ms[i] == Entry(key, Lookup(ms, key));
      assert HasKey(us, ms[i].key);
      var j :| 0 <= j < |us| && us[j] == Entry(key, Lookup(us, key));
      assert ms[i].key == us[j].key;
    }
  }

  lemma {:induction false} WithoutProtoSpec(ms: seq<Entry<Json>>)
    ensures forall x :: x in WithoutProto(ms) <==> x in ms && x.key != PROTO
    ensures DistinctKeys(ms) ==> DistinctKeys(WithoutProto(ms))
    ensures WithoutProto(WithoutProto(ms)) == WithoutProto(ms)
  {
    if ms != [] {
      var rest := WithoutProto(ms[1..]);
      WithoutProtoSpec(ms[1..]);
      assert ms == [ms[0]] + ms[1..];
      if ms[0].key != PROTO {
        assert WithoutProto(ms) == [ms[0]] + rest;
        assert ([ms[0]] + rest)[1..] == rest;
        if DistinctKeys(ms) {
          assert DistinctKeys(ms[1..]);
          forall i | 0 <= i < |rest|
            ensures rest[i].key != ms[0].key
          {
            assert rest[i] in ms[1..];
          }
        }
      } else {
        assert WithoutProto(ms) == rest;
        assert DistinctKeys(ms) ==> DistinctKeys(ms[1..]);
      }
    }
  }

  // ----- the fields of a shape -----

  ghost predicate DistinctNames(fs: seq<Field>) {
    forall i, j | 0 <= i < j < |fs| :: fs[i].name != fs[j].name
  }

  /** The validated entries hold exactly what each field yields. */
  ghost predicate Yields(f: Field, ms: seq<Entry<Json>>, ws: seq<Entry<Json>>) {
    && ValidateField(f, ms).Some?
    && var r := ValidateField(f, ms).value;
       if r == [] then !Has(ws, f.name) else Has(ws, f.name) && r == [Entry(f.name, Lookup(ws, f.name))]
  }

  /** The entries of a validated shape carry field names, each at most once, and hold what the fields yield. */
  lemma {:induction false} FieldsSpec(fs: seq<Field>, ms: seq<Entry<Json>>)
    requires DistinctNames(fs) && ValidateFields(fs, ms).Some?
    ensures var ws := ValidateFields(fs, ms).value;
            && DistinctKeys(ws)
            && NamedBy(ws, fs)
            && forall i | 0 <= i < |fs| :: Yields(fs[i], ms, ws)
  {
    if fs != [] {
      var r, rest := ValidateField(fs[0], ms).value, ValidateFields(fs[1..], ms).value;
      assert ValidateFields(fs, ms).value == r + rest;
      FieldsSpec(fs[1..], ms);
      NamesOfRest(fs, rest);
      NamesOfAll(fs, r, rest);
      assert NamedBy(r + rest, fs);
      forall i | 0 <= i < |fs|
        ensures Yields(fs[i], ms, r + rest)
      {
        if i > 0 {
          assert fs[1..][i - 1] == fs[i];
          YieldsAfter(fs[i], ms, r, rest);
        } else {
          YieldsFirst(fs[0], ms, rest);
        }
      }
    }
  }

  ghost predicate Names(fs: seq<Field>, key: Text) {
    exists i | 0 <= i < |fs| :: fs[i].name == key
  }

  /** Entries carry names of fields. */
  ghost predicate NamedBy(ws: seq<Entry<Json>>, fs: seq<Field>) {
    forall k | 0 <= k < |ws| :: Names(fs, ws[k].key)
  }

  lemma NamesOfRest(fs: seq<Field>, rest: seq<Entry<Json>>)
    requires fs != [] && DistinctNames(fs) && NamedBy(rest, fs[1..])
    ensures NamedBy(rest, fs) && forall k | 0 <= k < |rest| :: rest[k].key != fs[0].name
  {
    forall k | 0 <= k < |rest|
      ensures rest[k].key != fs[0].name && Names(fs, rest[k].key)
    {
      assert Names(fs[1..], rest[k].key);
      var i :| 0 <= i < |fs[1..]| && fs[1..][i].name == rest[k].key;
      assert fs[i + 1].name == rest[k].key && fs[0].name != fs[i + 1].name;
    }
  }

  lemma NamesOfAll(fs: seq<Field>, r: seq<Entry<Json>>, rest: seq<Entry<Json>>)
    requires fs != [] && NamedBy(rest, fs) && DistinctKeys(rest) && |r| <= 1
    requires (forall k | 0 <= k < |r| :: r[k].key == fs[0].name) && forall k | 0 <= k < |rest| :: rest[k].key != fs[0].name
    ensures NamedBy(r + rest, fs) && DistinctKeys(r + rest)
  {
    assert Names(fs, fs[0].name);
    forall k | 0 <= k < |r + rest|
      ensures Names(fs, (r + rest)[k].key)
    {
      if k >= |r| {
        assert (r + rest)[k] == rest[k - |r|];
      }
    }
  }

  lemma YieldsAfter(f: Field, ms: seq<Entry<Json>>, r: seq<Entry<Json>>, rest: seq<Entry<Json>>)
    requires Yields(f, ms, rest) && |r| <= 1 && forall k | 0 <= k < |r| :: r[k].key != f.name
    ensures Yields(f, ms, r + rest)
  {
    if r == [] {
      assert r + rest == rest;
    } else {
      assert (r + rest)[1..] == rest;
      if Has(rest, f.name) {
        var k :| 0 <= k < |rest| && rest[k].key == f.name;
        assert (r + rest)[k + 1].key == f.name;
      }
    }
  }

  lemma YieldsFirst(f: Field, ms: seq<Entry<Json>>, rest: seq<Entry<Json>>)
    requires ValidateField(f, ms).Some? && forall k | 0 <= k < |rest| :: rest[k].key != f.name
    ensures Yields(f, ms, ValidateField(f, ms).value + rest)
  {
    var r := ValidateField(f, ms).value;
    if r != [] {
      assert (r + rest)[0].key == f.name;
    }
  }

  // ----- parsing the result of a parse changes nothing -----

  lemma {:induction false} ValidateIsIdempotent(s: Schema, v: Json)
    requires Proper(s) && Validate(s, v).Some?
    ensures Validate(s, Validate(s, v).value) == Validate(s, v)
    decreases s, 1
  {
    match s {
      case ListOf(elem, _, _) =>
        AllIsIdempotent(elem, v.es);
      case Shape(fs) =>
        var ws := ValidateFields(fs, v.ms).value;
        FieldsSpec(fs, v.ms);
        FieldsAreIdempotent(fs, v.ms, ws);
      case AnyRecord =>
        WithoutProtoSpec(v.ms);
      case _ =>
    }
  }

  lemma {:induction false} AllIsIdempotent(elem: Schema, vs: seq<Json>)
    requires Proper(elem) && ValidateAll(elem, vs).Some?
    ensures var ws := ValidateAll(elem, vs).value; |ws| == |vs| && ValidateAll(elem, ws) == Some(ws)
    decreases elem, 2, |vs|
  {
    if vs != [] {
      var w, ws := Validate(elem, vs[0]).value, ValidateAll(elem, vs[1..]).value;
      ValidateIsIdempotent(elem, vs[0]);
      AllIsIdempotent(elem, vs[1..]);
      assert ([w] + ws)[0] == w && ([w] + ws)[1..] == ws;
    }
  }

  lemma FieldIsIdempotent(f: Field, ms: seq<Entry<Json>>, ws: seq<Entry<Json>>)
    requires Proper(f.schema) && Yields(f, ms, ws)
    ensures ValidateField(f, ws) == ValidateField(f, ms)
    decreases f, 2
  {
    LookupSpec(ws, f.name);
    var v := Lookup(ms, f.name);
    LookupSpec(ms, f.name);
    if Validate(f.schema, v).Some? {
      ValidateIsIdempotent(f.schema, v);
    }
  }

  lemma {:induction false} FieldsAreIdempotent(fs: seq<Field>, ms: seq<Entry<Json>>, ws: seq<Entry<Json>>)
    requires forall i | 0 <= i < |fs| :: Proper(fs[i].schema) && Yields(fs[i], ms, ws)
    ensures ValidateFields(fs, ws) == ValidateFields(fs, ms)
    decreases fs, 0
  {
    if fs != [] {
      FieldIsIdempotent(fs[0], ms, ws);
      FieldsAreIdempotent(fs[1..], ms, ws);
    }
  }

  // ----- values that are the same parse to values that are the same -----

  ghost predicate SameResult(a: Option<Json>, b: Option<Json>) {
    if a.Some? then b.Some? && Same(a.value, b.value, true) else b.None?
  }

  ghost predicate SameEntries(ws: seq<Entry<Json>>, xs: seq<Entry<Json>>) {
    |ws| == |xs| && forall i | 0 <= i < |ws| :: ws[i].key == xs[i].key && Same(ws[i].val, xs[i].val, true)
  }

  ghost predicate SameFields(a: Option<seq<Entry<Json>>>, b: Option<seq<Entry<Json>>>) {
    if a.Some? then b.Some? && SameEntries(a.value, b.value) else b.None?
  }

  lemma {:induction false} ValidateRespectsSame(s: Schema, v: Json, u: Json)
    requires Proper(s) && WellFormed(v) && WellFormed(u) && Same(v, u, true)
    ensures SameResult(Validate(s, v), Validate(s, u))
    decreases s, 1
  {
    match s {
      case ListOf(elem, _, _) =>
        if v.JArr? {
          AllRespectsSame(elem, v.es, u.es);
        }
      case Shape(fs) =>
        if v.JObj? {
          FieldsRespectSame(fs, v.ms, u.ms);
          if ValidateFields(fs, v.ms).Some? {
            FieldsSpec(fs, v.ms);
            EntriesMakeSame(ValidateFields(fs, v.ms).value, ValidateFields(fs, u.ms).value);
          }
        }
      case AnyRecord =>
        if v.JObj? {
          RecordRespectsSame(v.ms, u.ms);
        }
      case _ =>
    }
  }

  lemma {:induction false} AllRespectsSame(elem: Schema, vs: seq<Json>, us: seq<Json>)
    requires Proper(elem) && |vs| == |us|
    requires forall i | 0 <= i < |vs| :: WellFormed(vs[i]) && WellFormed(us[i]) && Same(vs[i], us[i], true)
    ensures var (a, b) := (ValidateAll(elem, vs), ValidateAll(elem, us));
            if a.Some? then b.Some? && Same(JArr(a.value), JArr(b.value), true) else b.None?
    decreases elem, 2, |vs|
  {
    if vs != [] {
      ValidateRespectsSame(elem, vs[0], us[0]);
      AllRespectsSame(elem, vs[1..], us[1..]);
    }
  }

  lemma FieldRespectsSame(f: Field, ms: seq<Entry<Json>>, us: seq<Entry<Json>>)
    requires Proper(f.schema) && Same(JObj(ms), JObj(us), true) && WellFormed(JObj(ms)) && WellFormed(JObj(us))
    ensures SameFields(ValidateField(f, ms), ValidateField(f, us))
    decreases f, 2
  {
    SameLookup(ms, us, f.name);
    LookupSpec(ms, f.name);
    LookupSpec(us, f.name);
    ValidateRespectsSame(f.schema, Lookup(ms, f.name), Lookup(us, f.name));
  }

  lemma {:induction false} FieldsRespectSame(fs: seq<Field>, ms: seq<Entry<Json>>, us: seq<Entry<Json>>)
    requires forall i | 0 <= i < |fs| :: Proper(fs[i].schema)
    requires Same(JObj(ms), JObj(us), true) && WellFormed(JObj(ms)) && WellFormed(JObj(us))
    ensures SameFields(ValidateFields(fs, ms), ValidateFields(fs, us))
    decreases fs, 0
  {
    if fs != [] {
      FieldRespectsSame(fs[0], ms, us);
      FieldsRespectSame(fs[1..], ms, us);
    }
  }

  lemma EntriesMakeSame(ws: seq<Entry<Json>>, xs: seq<Entry<Json>>)
    requires SameEntries(ws, xs) && DistinctKeys(ws)
    ensures Same(JObj(ws), JObj(xs), true)
  {
    forall i | 0 <= i < |ws|
      ensures HasKey(xs, ws[i].key) && HasKey(ws, xs[i].key)
    {
      assert xs[i].key == ws[i].key;
    }
  }

  lemma RecordRespectsSame(ms: seq<Entry<Json>>, us: seq<Entry<Json>>)
    requires Same(JObj(ms), JObj(us), true)
    ensures Same(JObj(WithoutProto(ms)), JObj(WithoutProto(us)), true)
  {
    var ws, xs := WithoutProto(ms), WithoutProto(us);
    KeptKeys(ms, us);
    SameSymmetricKeys(ms, us);
    forall i, j | 0 <= i < |ws| && 0 <= j < |xs| && ws[i].key == xs[j].key
      ensures Same(ws[i].val, xs[j].val, true)
    {
      KeptValue(ms, us, ws[i], xs[j]);
    }
  }

  lemma KeptValue(ms: seq<Entry<Json>>, us: seq<Entry<Json>>, w: Entry<Json>, x: Entry<Json>)
    requires Same(JObj(ms), JObj(us), true)
    requires w in WithoutProto(ms) && x in WithoutProto(us) && w.key == x.key
    ensures Same(w.val, x.val, true)
  {
    WithoutProtoSpec(ms);
    WithoutProtoSpec(us);
    var k :| 0 <= k < |ms| && ms[k] == w;
    var l :| 0 <= l < |us| && us[l] == x;
    assert ms[k].key == us[l].key;
  }

  lemma KeptKeys(ms: seq<Entry<Json>>, us: seq<Entry<Json>>)
    requires forall i | 0 <= i < |ms| :: HasKey(us, ms[i].key)
    ensures forall i | 0 <= i < |WithoutProto(ms)| :: HasKey(WithoutProto(us), WithoutProto(ms)[i].key)
  {
    forall i | 0 <= i < |WithoutProto(ms)|
      ensures HasKey(WithoutProto(us), WithoutProto(ms)[i].key)
    {
      KeptKey(ms, us, WithoutProto(ms)[i]);
    }
  }

  lemma KeptKey(ms: seq<Entry<Json>>, us: seq<Entry<Json>>, w: Entry<Json>)
    requires (forall i | 0 <= i < |ms| :: HasKey(us, ms[i].key)) && w in WithoutProto(ms)
    ensures HasKey(WithoutProto(us), w.key)
  {
    WithoutProtoSpec(ms);
    WithoutProtoSpec(us);
    var k :| 0 <= k < |ms| && ms[k] == w;
    var l :| 0 <= l < |us| && us[l].key == ms[k].key;
    assert us[l] in us;
    InListHasKey(WithoutProto(us), us[l]);
  }

  lemma InListHasKey(ws: seq<Entry<Json>>, w: Entry<Json>)
    requires w in ws
    ensures HasKey(ws, w.key)
  {
  }

  lemma SameSymmetricKeys(ms: seq<Entry<Json>>, us: seq<Entry<Json>>)
    requires Same(JObj(ms), JObj(us), true)
    ensures forall i | 0 <= i < |WithoutProto(us)| :: HasKey(WithoutProto(ms), WithoutProto(us)[i].key)
  {
    KeptKeys(us, ms);
  }

  // ----- results are well-formed, and hold undefined and other numbers only where the input did -----

  lemma {:induction false} ValidatedIsWellFormed(double: Num -> Num, s: Schema, v: Json)
    requires Proper(s) && WellFormed(v) && Validate(s, v).Some?
    ensures WellFormed(Validate(s, v).value) && (UndefinedFree(v) ==> UndefinedFree(Validate(s, v).value))
    ensures Represented(double, v) ==> Represented(double, Validate(s, v).value)
    decreases s, 1
  {
    match s {
      case ListOf(elem, _, _) =>
        AllWellFormed(double, elem, v.es);
      case Shape(fs) =>
        FieldsSpec(fs, v.ms);
        FieldsWellFormed(double, fs, v.ms);
      case AnyRecord =>
        WithoutProtoSpec(v.ms);
        var ws := WithoutProto(v.ms);
        forall i | 0 <= i < |ws|
          ensures WellFormed(ws[i].val) && (UndefinedFree(v) ==> UndefinedFree(ws[i].val))
          ensures Represented(double, v) ==> Represented(double, ws[i].val)
        {
          assert ws[i] in v.ms;
        }
      case _ =>
    }
  }

  lemma {:induction false} AllWellFormed(double: Num -> Num, elem: Schema, vs: seq<Json>)
    requires Proper(elem) && WellFormed(JArr(vs)) && ValidateAll(elem, vs).Some?
    ensures var ws := JArr(ValidateAll(elem, vs).value);
            && WellFormed(ws) && (UndefinedFree(JArr(vs)) ==> UndefinedFree(ws))
            && (Represented(double, JArr(vs)) ==> Represented(double, ws))
    decreases elem, 2, |vs|
  {
    if vs != [] {
      ValidatedIsWellFormed(double, elem, vs[0]);
      AllWellFormed(double, elem, vs[1..]);
      assert UndefinedFree(JArr(vs)) ==> UndefinedFree(JArr(vs[1..]));
      assert Represented(double, JArr(vs)) ==> Represented(double, JArr(vs[1..]));
    }
  }

  ghost predicate Sound(double: Num -> Num, ms: seq<Entry<Json>>, ws: seq<Entry<Json>>) {
    forall i | 0 <= i < |ws| ::
      && WellFormed(ws[i].val) && (UndefinedFree(JObj(ms)) ==> UndefinedFree(ws[i].val))
      && (Represented(double, JObj(ms)) ==> Represented(double, ws[i].val))
  }

  lemma FieldWellFormed(double: Num -> Num, f: Field, ms: seq<Entry<Json>>)
    requires Proper(f.schema) && WellFormed(JObj(ms)) && ValidateField(f, ms).Some?
    ensures Sound(double, ms, ValidateField(f, ms).value)
    decreases f, 2
  {
    LookupSpec(ms, f.name);
    var v := Lookup(ms, f.name);
    if Validate(f.schema, v).Some? {
      ValidatedIsWellFormed(double, f.schema, v);
    }
  }

  lemma {:induction false} FieldsWellFormed(double: Num -> Num, fs: seq<Field>, ms: seq<Entry<Json>>)
    requires (forall i | 0 <= i < |fs| :: Proper(fs[i].schema)) && WellFormed(JObj(ms)) && ValidateFields(fs, ms).Some?
    ensures Sound(double, ms, ValidateFields(fs, ms).value)
    decreases fs, 0
  {
    if fs != [] {
      FieldWellFormed(double, fs[0], ms);
      FieldsWellFormed(double, fs[1..], ms);
    }
  }
}
