/** An envelope that encodes and does not come back: its absent fields are present with the value undefined. */
module UndefinedFields {
  import opened Basics
  import opened SortedEntries
  import opened Numbers
  import opened Json
  import opened JsonRoundTrip
  import opened CanonicalJson
  import opened Schemas
  import opened CanonicalCodec
  import opened JobEnvelope
  import opened JsonSizes
  import Decimal
  import Usdc

  // ----- objects that are their own parse -----

  ghost predicate Fits(f: Field, m: Entry<Json>) {
    f.name == m.key && ((f.optional && m.val == JUndefined) || Validate(f.schema, m.val) == Some(m.val))
  }

  lemma LookupMember(ms: seq<Entry<Json>>, i: nat)
    requires i < |ms| && DistinctKeys(ms)
    ensures Lookup(ms, ms[i].key) == ms[i].val && Schemas.Has(ms, ms[i].key)
  {
    LookupSpec(ms, ms[i].key);
  }

  lemma FieldKeeps(f: Field, ms: seq<Entry<Json>>, i: nat)
    requires i < |ms| && DistinctKeys(ms) && Fits(f, ms[i])
    ensures ValidateField(f, ms) == Some([ms[i]])
  {
    LookupMember(ms, i);
  }

  lemma {:induction false} FieldsKeep(fs: seq<Field>, ms: seq<Entry<Json>>, k: nat)
    requires k <= |fs| == |ms| && DistinctKeys(ms) && forall i | 0 <= i < |fs| :: Fits(fs[i], ms[i])
    ensures ValidateFields(fs[k..], ms) == Some(ms[k..])
    decreases |fs| - k
  {
    if k < |fs| {
      FieldsKeep(fs, ms, k + 1);
      FieldKeeps(fs[k], ms, k);
      assert fs[k..][1..] == fs[k + 1..] && ms[k..] == [ms[k]] + ms[k + 1..];
    }
  }

  /** An object with a fitting value for every field, in the order of the schema, is its own parse. */
  lemma ShapeKeeps(fs: seq<Field>, ms: seq<Entry<Json>>)
    requires |fs| == |ms| && DistinctKeys(ms) && forall i | 0 <= i < |fs| :: Fits(fs[i], ms[i])
    ensures Validate(Shape(fs), JObj(ms)) == Some(JObj(ms))
  {
    FieldsKeep(fs, ms, 0);
    assert fs[0..] == fs && ms[0..] == ms;
  }

  // ----- the envelope -----

  function Member(name: string, v: Json): Entry<Json>
    requires IsAscii(name)
  {
    Entry(Ascii(name), v)
  }

  const CRITERION: seq<Entry<Json>> :=
    [Member("id", Word("a")), Member("description", Word("b")), Member("mandatory", JBool(true))]

  const TERMS: seq<Entry<Json>> := [Member("proposedBudgetUsdc", Word("1")), Member("clientWillFund", JBool(true))]

  const ENVELOPE: seq<Entry<Json>> := [
    Member("schema", Word("arclayer.job")),
    Member("version", JNum(Integer(1))),
    Member("task", Word("t")),
    Member("input", JUndefined),
    Member("acceptanceCriteria", JArr([JObj(CRITERION)])),
    Member("outputFormat", JUndefined),
    Member("commercialTerms", JObj(TERMS)),
    Member("paymentDelegation", JUndefined),
    Member("metadata", JUndefined)
  ]

  lemma CriterionKeeps()
    ensures Validate(CriterionSchema(), JObj(CRITERION)) == Some(JObj(CRITERION)) && DistinctKeys(CRITERION)
  {
    ShapeKeeps(CriterionSchema().fields, CRITERION);
  }

  lemma OneUsdcIsBudget()
    ensures BudgetOk(Ascii("1"))
  {
    var one := "1";
    assert Chars(Ascii("1")) == one;
    assert Usdc.FirstDot(one[1..]) == 0 && Usdc.FirstDot(one) == 1;
    assert one[..1] == one && one[..0] == "";
    assert Usdc.Whole(one) == one && Usdc.Fraction(one) == "";
    assert Decimal.Value(one) == 1;
    Decimal.ValueZeros(6);
    assert "" + Decimal.Zeros(6) == Decimal.Zeros(6);
  }

  lemma TermsKeep()
    ensures Validate(CommercialTermsSchema(BudgetOk), JObj(TERMS)) == Some(JObj(TERMS)) && DistinctKeys(TERMS)
  {
    OneUsdcIsBudget();
    ShapeKeeps(CommercialTermsSchema(BudgetOk).fields, TERMS);
  }

  lemma CriteriaKeep()
    ensures Validate(ListOf(CriterionSchema(), 1, Some(32)), JArr([JObj(CRITERION)])) == Some(JArr([JObj(CRITERION)]))
  {
    CriterionKeeps();
    OneKeeps(CriterionSchema(), JObj(CRITERION));
  }

  lemma OneKeeps(elem: Schema, v: Json)
    requires Validate(elem, v) == Some(v)
    ensures ValidateAll(elem, [v]) == Some([v])
  {
    assert [v][1..] == [] && ValidateAll(elem, [v][1..]) == Some([]);
    assert [v] + [] == [v];
  }

  /** Members named as the fields of a schema, in its order. */
  ghost predicate Named(fs: seq<Field>, ms: seq<Entry<Json>>) {
    |fs| == |ms| && forall i | 0 <= i < |fs| :: ms[i].key == fs[i].name
  }

  lemma NamedAreDistinct(fs: seq<Field>, ms: seq<Entry<Json>>)
    requires Proper(Shape(fs)) && Named(fs, ms)
    ensures DistinctKeys(ms)
  {
  }

  lemma EnvelopeIsNamed(url: Text -> bool)
    ensures Named(EnvelopeSchema(url).fields, ENVELOPE)
  {
  }

  lemma EnvelopeKeysDiffer(url: Text -> bool)
    ensures DistinctKeys(ENVELOPE) && Named(EnvelopeSchema(url).fields, ENVELOPE)
  {
    EnvelopeIsProper(url);
    EnvelopeIsNamed(url);
    NamedAreDistinct(EnvelopeSchema(url).fields, ENVELOPE);
  }

  lemma EnvelopeKeeps(url: Text -> bool)
    ensures Validate(EnvelopeSchema(url), JObj(ENVELOPE)) == Some(JObj(ENVELOPE)) && DistinctKeys(ENVELOPE)
  {
    var fs := EnvelopeSchema(url).fields;
    EnvelopeKeysDiffer(url);
    CriteriaKeep();
    TermsKeep();
    forall i | 0 <= i < |fs|
      ensures Fits(fs[i], ENVELOPE[i])
    {
    }
    ShapeKeeps(fs, ENVELOPE);
  }

  // ----- its size -----

  lemma OneIsShort()
    ensures |NumText(Integer(1))| == 1
  {
    assert NatText(1) == [ZERO + 1] && ZeroText(0) == [];
  }

  lemma CriterionIsSmall()
    ensures Size(JArr([JObj(CRITERION)])) <= 305
  {
    SmallMembers(CRITERION, 100);
    OneElementSize(JObj(CRITERION));
  }

  lemma OneElementSize(v: Json)
    ensures Size(JArr([v])) == Size(v) + 3
  {
    assert [v][1..] == [];
    assert SizeAll([v]) == Size(v) + 1 + SizeAll([v][1..]);
  }

  lemma TermsAreSmall()
    ensures Size(JObj(TERMS)) <= 302
  {
    SmallMembers(TERMS, 150);
  }

  lemma EnvelopeIsSmall()
    ensures Size(JObj(ENVELOPE)) <= 4502
  {
    OneIsShort();
    CriterionIsSmall();
    TermsAreSmall();
    SmallMembers(ENVELOPE, 500);
  }

  // ----- the round trip that fails -----

  ghost predicate IsValue(double: Num -> Num, v: Json) {
    WellFormed(v) && Represented(double, v)
  }

  lemma ObjectIsValue(double: Num -> Num, ms: seq<Entry<Json>>)
    requires DistinctKeys(ms) && forall i | 0 <= i < |ms| :: IsValue(double, ms[i].val)
    ensures IsValue(double, JObj(ms))
  {
  }

  lemma PartsAreValues(double: Num -> Num)
    ensures IsValue(double, JArr([JObj(CRITERION)])) && IsValue(double, JObj(TERMS))
  {
    CriterionKeeps();
    TermsKeep();
    ObjectIsValue(double, CRITERION);
    ObjectIsValue(double, TERMS);
  }

  lemma EnvelopeIsValue(double: Num -> Num, url: Text -> bool)
    requires double(Integer(1)) == Integer(1)
    ensures IsValue(double, JObj(ENVELOPE))
  {
    EnvelopeKeysDiffer(url);
    PartsAreValues(double);
    ObjectIsValue(double, ENVELOPE);
  }

  lemma EnvelopeHoldsUndefined()
    ensures !UndefinedFree(JObj(ENVELOPE))
  {
    assert !UndefinedFree(ENVELOPE[3].val);
  }

  lemma EnvelopeEncodes(url: Text -> bool)
    ensures EncodeJobEnvelope(url, JObj(ENVELOPE)).Ok?
  {
    EnvelopeKeeps(url);
    EnvelopeIsSmall();
    PrintFits(JObj(ENVELOPE));
    Utf8Fits(Print(JObj(ENVELOPE)));
  }

  /** A valid envelope whose absent fields are undefined is encoded, and not decoded to itself. */
  lemma UndefinedIsLost(double: Num -> Num, url: Text -> bool)
    requires double(Integer(1)) == Integer(1)
    ensures var v := JObj(ENVELOPE);
            && Validate(EnvelopeSchema(url), v) == Some(v) && EncodeJobEnvelope(url, v).Ok?
            && var w := DecodeJobEnvelope(double, url, EncodeJobEnvelope(url, v).value);
               w.None? || !Same(v, w.value, true)
  {
    EnvelopeIsValue(double, url);
    EnvelopeHoldsUndefined();
    EnvelopeKeeps(url);
    EnvelopeEncodes(url);
    EnvelopeRoundTrip(double, url, JObj(ENVELOPE));
  }
}
