/** Which documents the schemas accept, member by member, and what they keep of them. */
module AcceptedDocuments {
  import opened Basics
  import opened SortedEntries
  import opened Numbers
  import opened Json
  import opened Schemas
  import opened JobEnvelope
  import opened Deliverable
  import Decimal
  import Usdc

  // ----- shapes -----

  /** The member is absent or undefined where it may be, or its value is accepted. */
  ghost predicate FieldAccepts(f: Field, ms: seq<Entry<Json>>) {
    (f.optional && Lookup(ms, f.name) == JUndefined) || Validate(f.schema, Lookup(ms, f.name)).Some?
  }

  lemma {:induction false} FieldsAccept(fs: seq<Field>, ms: seq<Entry<Json>>)
    ensures ValidateFields(fs, ms).Some? <==> forall i | 0 <= i < |fs| :: FieldAccepts(fs[i], ms)
  {
    if fs != [] {
      FieldsAccept(fs[1..], ms);
      assert ValidateField(fs[0], ms).Some? <==> FieldAccepts(fs[0], ms);
      assert forall i | 1 <= i < |fs| :: fs[i] == fs[1..][i - 1];
    }
  }

  /** An object is accepted exactly when each field of the shape is. */
  lemma ShapeAccepts(fs: seq<Field>, v: Json)
    ensures Validate(Shape(fs), v).Some? <==> v.JObj? && forall i | 0 <= i < |fs| :: FieldAccepts(fs[i], v.ms)
  {
    if v.JObj? {
      FieldsAccept(fs, v.ms);
    }
  }

  lemma {:induction false} AllAccept(elem: Schema, vs: seq<Json>)
    ensures ValidateAll(elem, vs).Some? <==> forall i | 0 <= i < |vs| :: Validate(elem, vs[i]).Some?
  {
    if vs != [] {
      AllAccept(elem, vs[1..]);
      assert forall i | 1 <= i < |vs| :: vs[i] == vs[1..][i - 1];
    }
  }

  lemma ListAccepts(elem: Schema, min: nat, max: nat, v: Json)
    ensures Validate(ListOf(elem, min, Some(max)), v).Some? <==>
              v.JArr? && min <= |v.es| <= max && forall i | 0 <= i < |v.es| :: Validate(elem, v.es[i]).Some?
  {
    if v.JArr? {
      AllAccept(elem, v.es);
    }
  }

  // ----- values -----

  predicate IsText(v: Json, least: nat, most: nat) {
    v.JStr? && least <= |v.s| <= most
  }

  predicate Is(v: Json, text: string)
    requires IsAscii(text)
  {
    v == JStr(Ascii(text))
  }

  ghost predicate WholeBetween(v: Json, least: int, most: int) {
    exists n: int :: v == JNum(Integer(n)) && least <= n <= most
  }

  lemma {:induction false} IntegerOf(negative: bool, m: nat, e: nat)
    ensures var x := Normalize(negative, m, e);
            IsInteger(x) && IntegerValue(x) == if negative then -(m * Decimal.Pow10(e)) else m * Decimal.Pow10(e)
    decreases m
  {
    if m == 0 {
      assert 0 * Decimal.Pow10(e) == 0;
    } else if m % 10 == 0 {
      IntegerOf(negative, m / 10, e + 1);
      Decimal.Pow10Step(e + 1);
      Decimal.TenTimesProduct(m / 10, Decimal.Pow10(e));
      assert m * Decimal.Pow10(e) == 10 * (m / 10 * Decimal.Pow10(e));
    }
  }

  lemma IntegerOfInteger(n: int)
    ensures IsInteger(Integer(n)) && IntegerValue(Integer(n)) == n
  {
    assert Decimal.Pow10(0) == 1;
    if n < 0 {
      IntegerOf(true, -n, 0);
    } else {
      IntegerOf(false, n, 0);
    }
  }

  lemma IntegerOfWhole(x: Num)
    requires IsInteger(x)
    ensures Integer(IntegerValue(x)) == x
  {
    if x.digits == 0 {
      assert 0 * Decimal.Pow10(x.exponent) == 0;
    } else {
      NormalizeScaled(x, x.exponent);
      Decimal.AtLeast(x.digits, Decimal.Pow10(x.exponent));
      assert x.digits * Decimal.Pow10(x.exponent) > 0;
    }
  }

  lemma WholeNumberAccepts(least: int, most: int, v: Json)
    ensures Validate(WholeNumber(least, most), v).Some? <==> WholeBetween(v, least, most)
  {
    if v.JNum? && IsInteger(v.n) {
      IntegerOfWhole(v.n);
    }
    if n: int :| v == JNum(Integer(n)) && least <= n <= most {
      IntegerOfInteger(n);
    }
  }

  // ----- job envelopes -----

  ghost predicate GoodCriterion(v: Json) {
    && v.JObj?
    && IsText(Lookup(v.ms, Ascii("id")), 1, 128)
    && IsText(Lookup(v.ms, Ascii("description")), 1, 2048)
    && Lookup(v.ms, Ascii("mandatory")).JBool?
  }

  /** An amount of at most six fraction digits and seven whole ones, above zero and up to a million USDC. */
  ghost predicate GoodBudget(t: Text) {
    Usdc.IsAmount(Chars(t)) && |Usdc.Whole(Chars(t))| <= 7 && 0 < Usdc.Micros(Chars(t)) <= 1_000_000_000_000
  }

  /** An amount of at most six fraction digits, up to ten thousand USDC. */
  ghost predicate GoodSpend(t: Text) {
    Usdc.IsAmount(Chars(t)) && Usdc.Micros(Chars(t)) <= 10_000_000_000
  }

  ghost predicate GoodTerms(v: Json) {
    && v.JObj?
    && Lookup(v.ms, Ascii("proposedBudgetUsdc")).JStr? && GoodBudget(Lookup(v.ms, Ascii("proposedBudgetUsdc")).s)
    && Lookup(v.ms, Ascii("clientWillFund")) == JBool(true)
  }

  ghost predicate GoodDelegation(url: Text -> bool, v: Json) {
    && v.JObj?
    && Lookup(v.ms, Ascii("delegationEnabled")).JBool?
    && Lookup(v.ms, Ascii("maxSpendUsdc")).JStr? && GoodSpend(Lookup(v.ms, Ascii("maxSpendUsdc")).s)
    && var hosts := Lookup(v.ms, Ascii("allowedHosts"));
       && hosts.JArr? && |hosts.es| <= 64 && (forall i | 0 <= i < |hosts.es| :: hosts.es[i].JStr? && url(hosts.es[i].s))
       && WholeBetween(Lookup(v.ms, Ascii("maxRequests")), 0, 100)
  }

  ghost predicate GoodCriteria(v: Json) {
    v.JArr? && 1 <= |v.es| <= 32 && forall i | 0 <= i < |v.es| :: GoodCriterion(v.es[i])
  }

  ghost predicate GoodFormat(v: Json) {
    v == JUndefined || Is(v, "text") || Is(v, "markdown") || Is(v, "json")
  }

  ghost predicate GoodHead(ms: seq<Entry<Json>>) {
    && Is(Lookup(ms, Ascii("schema")), "arclayer.job")
    && Lookup(ms, Ascii("version")) == JNum(Integer(1))
    && IsText(Lookup(ms, Ascii("task")), 1, 16384)
  }

  ghost predicate GoodWork(ms: seq<Entry<Json>>) {
    && GoodCriteria(Lookup(ms, Ascii("acceptanceCriteria")))
    && GoodFormat(Lookup(ms, Ascii("outputFormat")))
    && GoodTerms(Lookup(ms, Ascii("commercialTerms")))
  }

  ghost predicate GoodExtras(url: Text -> bool, ms: seq<Entry<Json>>) {
    && (Lookup(ms, Ascii("paymentDelegation")) == JUndefined || GoodDelegation(url, Lookup(ms, Ascii("paymentDelegation"))))
    && (Lookup(ms, Ascii("metadata")) == JUndefined || Lookup(ms, Ascii("metadata")).JObj?)
  }

  /** The task, what counts as done, what is paid, and what else is agreed; `input` may be anything. */
  ghost predicate GoodEnvelope(url: Text -> bool, v: Json) {
    v.JObj? && GoodHead(v.ms) && GoodWork(v.ms) && GoodExtras(url, v.ms)
  }

  lemma CriterionAccepts(v: Json)
    ensures Validate(CriterionSchema(), v).Some? <==> GoodCriterion(v)
  {
    var fs := CriterionSchema().fields;
    ShapeAccepts(fs, v);
    if v.JObj? {
      assert FieldAccepts(fs[0], v.ms) <==> IsText(Lookup(v.ms, Ascii("id")), 1, 128);
      assert FieldAccepts(fs[1], v.ms) <==> IsText(Lookup(v.ms, Ascii("description")), 1, 2048);
      assert FieldAccepts(fs[2], v.ms) <==> Lookup(v.ms, Ascii("mandatory")).JBool?;
    }
  }

  lemma AmountsMean(t: Text)
    ensures BudgetOk(t) <==> GoodBudget(t)
    ensures SpendOk(t) <==> GoodSpend(t)
  {
    if Usdc.IsAmount(Chars(t)) {
      AtomicIsMicros(Chars(t));
    }
  }

  lemma AtomicIsMicros(s: string)
    requires Usdc.IsAmount(s)
    ensures Atomic(s) == Usdc.Micros(s)
  {
    Usdc.ParsersAgree(s);
    AtomicParses(s);
  }

  lemma AtomicParses(s: string)
    requires Usdc.IsAmount(s)
    ensures Usdc.ParseUsdcToAtomic(s) == Ok(Atomic(s))
  {
  }

  lemma TermsAcceptFor(budget: Text -> bool, v: Json)
    ensures Validate(CommercialTermsSchema(budget), v).Some? <==>
              && v.JObj?
              && Lookup(v.ms, Ascii("proposedBudgetUsdc")).JStr? && budget(Lookup(v.ms, Ascii("proposedBudgetUsdc")).s)
              && Lookup(v.ms, Ascii("clientWillFund")) == JBool(true)
  {
    var fs := CommercialTermsSchema(budget).fields;
    ShapeAccepts(fs, v);
    if v.JObj? {
      var amount, funded := Lookup(v.ms, Ascii("proposedBudgetUsdc")), Lookup(v.ms, Ascii("clientWillFund"));
      assert FieldAccepts(fs[0], v.ms) <==> amount.JStr? && budget(amount.s);
      assert FieldAccepts(fs[1], v.ms) <==> funded == JBool(true);
    }
  }

  lemma TermsAccept(v: Json)
    ensures Validate(CommercialTermsSchema(BudgetOk), v).Some? <==> GoodTerms(v)
  {
    TermsAcceptFor(BudgetOk, v);
    if v.JObj? && Lookup(v.ms, Ascii("proposedBudgetUsdc")).JStr? {
      AmountsMean(Lookup(v.ms, Ascii("proposedBudgetUsdc")).s);
    }
  }

  lemma SpendAccepts(v: Json)
    ensures Validate(AnyString(0, None, SpendOk), v).Some? <==> v.JStr? && GoodSpend(v.s)
  {
    if v.JStr? {
      AmountsMean(v.s);
    }
  }

  lemma HostsAccept(url: Text -> bool, v: Json)
    ensures Validate(ListOf(AnyString(0, None, url), 0, Some(64)), v).Some? <==>
              v.JArr? && |v.es| <= 64 && forall i | 0 <= i < |v.es| :: v.es[i].JStr? && url(v.es[i].s)
  {
    ListAccepts(AnyString(0, None, url), 0, 64, v);
    if v.JArr? {
      forall i | 0 <= i < |v.es|
        ensures Validate(AnyString(0, None, url), v.es[i]).Some? <==> v.es[i].JStr? && url(v.es[i].s)
      {
      }
    }
  }

  lemma DelegationAccepts(url: Text -> bool, v: Json)
    ensures Validate(PaymentDelegationSchema(url), v).Some? <==> GoodDelegation(url, v)
  {
    var fs := PaymentDelegationSchema(url).fields;
    ShapeAccepts(fs, v);
    if v.JObj? {
      SpendAccepts(Lookup(v.ms, Ascii("maxSpendUsdc")));
      HostsAccept(url, Lookup(v.ms, Ascii("allowedHosts")));
      WholeNumberAccepts(0, 100, Lookup(v.ms, Ascii("maxRequests")));
      assert FieldAccepts(fs[0], v.ms) <==> Lookup(v.ms, Ascii("delegationEnabled")).JBool?;
      assert FieldAccepts(fs[1], v.ms) <==> Validate(fs[1].schema, Lookup(v.ms, Ascii("maxSpendUsdc"))).Some?;
      assert FieldAccepts(fs[2], v.ms) <==> Validate(fs[2].schema, Lookup(v.ms, Ascii("allowedHosts"))).Some?;
      assert FieldAccepts(fs[3], v.ms) <==> Validate(fs[3].schema, Lookup(v.ms, Ascii("maxRequests"))).Some?;
    }
  }

  lemma CriteriaAccept(v: Json)
    ensures Validate(ListOf(CriterionSchema(), 1, Some(32)), v).Some? <==> GoodCriteria(v)
  {
    ListAccepts(CriterionSchema(), 1, 32, v);
    if v.JArr? {
      forall i | 0 <= i < |v.es|
        ensures Validate(CriterionSchema(), v.es[i]).Some? <==> GoodCriterion(v.es[i])
      {
        CriterionAccepts(v.es[i]);
      }
    }
  }

  lemma FormatAccepts(v: Json)
    ensures v == JUndefined || Validate(OneOf([Ascii("text"), Ascii("markdown"), Ascii("json")]), v).Some? <==> GoodFormat(v)
  {
    var options := [Ascii("text"), Ascii("markdown"), Ascii("json")];
    assert options[0] in options && options[1] in options && options[2] in options;
  }

  ghost predicate HeadAccepts(url: Text -> bool, ms: seq<Entry<Json>>) {
    var fs := EnvelopeSchema(url).fields;
    FieldAccepts(fs[0], ms) && FieldAccepts(fs[1], ms) && FieldAccepts(fs[2], ms) && FieldAccepts(fs[3], ms)
  }

  ghost predicate WorkAccepts(url: Text -> bool, ms: seq<Entry<Json>>) {
    var fs := EnvelopeSchema(url).fields;
    FieldAccepts(fs[4], ms) && FieldAccepts(fs[5], ms) && FieldAccepts(fs[6], ms)
  }

  ghost predicate ExtrasAccept(url: Text -> bool, ms: seq<Entry<Json>>) {
    var fs := EnvelopeSchema(url).fields;
    FieldAccepts(fs[7], ms) && FieldAccepts(fs[8], ms)
  }

  lemma NineFields(url: Text -> bool, ms: seq<Entry<Json>>)
    ensures (forall i | 0 <= i < |EnvelopeSchema(url).fields| :: FieldAccepts(EnvelopeSchema(url).fields[i], ms)) <==>
              HeadAccepts(url, ms) && WorkAccepts(url, ms) && ExtrasAccept(url, ms)
  {
    assert |EnvelopeSchema(url).fields| == 9;
  }

  lemma LiteralAccepts(f: Field, ms: seq<Entry<Json>>, value: Json)
    requires !f.optional && f.schema == Literal(value)
    ensures FieldAccepts(f, ms) <==> Lookup(ms, f.name) == value
  {
  }

  lemma TextAccepts(f: Field, ms: seq<Entry<Json>>, least: nat, most: nat)
    requires !f.optional && f.schema == AnyString(least, Some(most), AnyText)
    ensures FieldAccepts(f, ms) <==> IsText(Lookup(ms, f.name), least, most)
  {
  }

  lemma HeadIsGood(url: Text -> bool, ms: seq<Entry<Json>>)
    ensures HeadAccepts(url, ms) <==> GoodHead(ms)
  {
    var fs := EnvelopeSchema(url).fields;
    LiteralAccepts(fs[0], ms, Word("arclayer.job"));
    LiteralAccepts(fs[1], ms, JNum(Integer(1)));
    TextAccepts(fs[2], ms, 1, 16384);
    assert FieldAccepts(fs[3], ms);
  }

  lemma WorkIsGood(url: Text -> bool, ms: seq<Entry<Json>>)
    ensures WorkAccepts(url, ms) <==> GoodWork(ms)
  {
    CriteriaAccept(Lookup(ms, Ascii("acceptanceCriteria")));
    FormatAccepts(Lookup(ms, Ascii("outputFormat")));
    TermsAccept(Lookup(ms, Ascii("commercialTerms")));
  }

  lemma ExtrasAreGood(url: Text -> bool, ms: seq<Entry<Json>>)
    ensures ExtrasAccept(url, ms) <==> GoodExtras(url, ms)
  {
    DelegationAccepts(url, Lookup(ms, Ascii("paymentDelegation")));
  }

  /** A job envelope is valid exactly when its members are these. */
  lemma EnvelopeAccepts(url: Text -> bool, v: Json)
    ensures Validate(EnvelopeSchema(url), v).Some? <==> GoodEnvelope(url, v)
  {
    ShapeAccepts(EnvelopeSchema(url).fields, v);
    if v.JObj? {
      NineFields(url, v.ms);
      HeadIsGood(url, v.ms);
      WorkIsGood(url, v.ms);
      ExtrasAreGood(url, v.ms);
    }
  }

  // ----- deliverables -----

  predicate IsHexDigest(v: Json) {
    v.JStr? && |v.s| == 64 && forall i | 0 <= i < 64 :: 48 <= v.s[i] <= 57 || 65 <= v.s[i] <= 70 || 97 <= v.s[i] <= 102
  }

  ghost predicate GoodArtifact(formats: Formats, v: Json) {
    && v.JObj? && IsText(Lookup(v.ms, Ascii("name")), 1, 256)
    && (var uri := Lookup(v.ms, Ascii("uri")); uri == JUndefined || (IsText(uri, 0, 2048) && formats.url(uri.s)))
    && (var kind := Lookup(v.ms, Ascii("contentType")); kind == JUndefined || IsText(kind, 1, 128))
    && (var digest := Lookup(v.ms, Ascii("sha256")); digest == JUndefined || IsHexDigest(digest))
  }

  ghost predicate GoodRuntime(formats: Formats, v: Json) {
    && v.JObj? && IsText(Lookup(v.ms, Ascii("taskId")), 1, 256)
    && (var at := Lookup(v.ms, Ascii("completedAt")); at.JStr? && formats.dateTime(at.s))
  }

  ghost predicate GoodArtifacts(formats: Formats, v: Json) {
    v.JArr? && |v.es| <= 32 && forall i | 0 <= i < |v.es| :: GoodArtifact(formats, v.es[i])
  }

  /** Who delivers what for which job. */
  ghost predicate GoodDelivery(ms: seq<Entry<Json>>) {
    && Is(Lookup(ms, Ascii("schema")), "arclayer.deliverable")
    && Lookup(ms, Ascii("version")) == JNum(Integer(1))
    && IsText(Lookup(ms, Ascii("jobId")), 1, 128)
    && IsText(Lookup(ms, Ascii("providerAgentId")), 1, 128)
  }

  ghost predicate GoodDeliverable(formats: Formats, v: Json) {
    && v.JObj? && GoodDelivery(v.ms)
    && GoodArtifacts(formats, Lookup(v.ms, Ascii("artifacts")))
    && GoodRuntime(formats, Lookup(v.ms, Ascii("runtime")))
  }

  lemma DigestAccepts(v: Json)
    ensures Validate(AnyString(0, None, IsSha256), v).Some? <==> IsHexDigest(v)
  {
    if v.JStr? {
      forall i | 0 <= i < |v.s|
        ensures HexValue(v.s[i]).Some? <==> 48 <= v.s[i] <= 57 || 65 <= v.s[i] <= 70 || 97 <= v.s[i] <= 102
      {
      }
    }
  }

  lemma ArtifactAccepts(formats: Formats, v: Json)
    ensures Validate(ArtifactSchema(formats), v).Some? <==> GoodArtifact(formats, v)
  {
    var fs := ArtifactSchema(formats).fields;
    ShapeAccepts(fs, v);
    if v.JObj? {
      var uri, kind, digest := Lookup(v.ms, Ascii("uri")), Lookup(v.ms, Ascii("contentType")), Lookup(v.ms, Ascii("sha256"));
      DigestAccepts(digest);
      assert FieldAccepts(fs[0], v.ms) <==> IsText(Lookup(v.ms, Ascii("name")), 1, 256);
      assert FieldAccepts(fs[1], v.ms) <==> uri == JUndefined || (IsText(uri, 0, 2048) && formats.url(uri.s));
      assert FieldAccepts(fs[2], v.ms) <==> kind == JUndefined || IsText(kind, 1, 128);
      assert FieldAccepts(fs[3], v.ms) <==> digest == JUndefined || IsHexDigest(digest);
    }
  }

  lemma ArtifactsAccept(formats: Formats, v: Json)
    ensures Validate(ListOf(ArtifactSchema(formats), 0, Some(32)), v).Some? <==> GoodArtifacts(formats, v)
  {
    ListAccepts(ArtifactSchema(formats), 0, 32, v);
    if v.JArr? {
      forall i | 0 <= i < |v.es|
        ensures Validate(ArtifactSchema(formats), v.es[i]).Some? <==> GoodArtifact(formats, v.es[i])
      {
        ArtifactAccepts(formats, v.es[i]);
      }
    }
  }

  lemma RuntimeAccepts(formats: Formats, v: Json)
    ensures Validate(RuntimeSchema(formats), v).Some? <==> GoodRuntime(formats, v)
  {
    var fs := RuntimeSchema(formats).fields;
    ShapeAccepts(fs, v);
    if v.JObj? {
      var at := Lookup(v.ms, Ascii("completedAt"));
      assert FieldAccepts(fs[0], v.ms) <==> IsText(Lookup(v.ms, Ascii("taskId")), 1, 256);
      assert FieldAccepts(fs[1], v.ms) <==> at.JStr? && formats.dateTime(at.s);
    }
  }

  ghost predicate DeliveryAccepts(formats: Formats, ms: seq<Entry<Json>>) {
    var fs := DeliverableSchema(formats).fields;
    FieldAccepts(fs[0], ms) && FieldAccepts(fs[1], ms) && FieldAccepts(fs[2], ms) && FieldAccepts(fs[3], ms)
  }

  ghost predicate ResultsAccept(formats: Formats, ms: seq<Entry<Json>>) {
    var fs := DeliverableSchema(formats).fields;
    FieldAccepts(fs[5], ms) && FieldAccepts(fs[6], ms)
  }

  lemma SevenFields(formats: Formats, ms: seq<Entry<Json>>)
    ensures (forall i | 0 <= i < |DeliverableSchema(formats).fields| :: FieldAccepts(DeliverableSchema(formats).fields[i], ms))
            <==> DeliveryAccepts(formats, ms) && ResultsAccept(formats, ms)
  {
    assert |DeliverableSchema(formats).fields| == 7;
    assert FieldAccepts(DeliverableSchema(formats).fields[4], ms);
  }

  lemma DeliveryIsGood(formats: Formats, ms: seq<Entry<Json>>)
    ensures DeliveryAccepts(formats, ms) <==> GoodDelivery(ms)
  {
    var fs := DeliverableSchema(formats).fields;
    LiteralAccepts(fs[0], ms, Word("arclayer.deliverable"));
    LiteralAccepts(fs[1], ms, JNum(Integer(1)));
    TextAccepts(fs[2], ms, 1, 128);
    TextAccepts(fs[3], ms, 1, 128);
  }

  lemma ResultsAreGood(formats: Formats, ms: seq<Entry<Json>>)
    ensures ResultsAccept(formats, ms) <==>
              GoodArtifacts(formats, Lookup(ms, Ascii("artifacts"))) && GoodRuntime(formats, Lookup(ms, Ascii("runtime")))
  {
    ArtifactsAccept(formats, Lookup(ms, Ascii("artifacts")));
    RuntimeAccepts(formats, Lookup(ms, Ascii("runtime")));
  }

  /** A deliverable is valid exactly when its members are these; `output` may be anything. */
  lemma DeliverableAccepts(formats: Formats, v: Json)
    ensures Validate(DeliverableSchema(formats), v).Some? <==> GoodDeliverable(formats, v)
  {
    ShapeAccepts(DeliverableSchema(formats).fields, v);
    if v.JObj? {
      SevenFields(formats, v.ms);
      DeliveryIsGood(formats, v.ms);
      ResultsAreGood(formats, v.ms);
    }
  }

  // ----- what is kept -----

  /**
   What a shape keeps of an object: exactly the members it names that are there, each with its own validated value, in the
   order of the shape.
   */
  lemma ShapeKeepsNamed(fs: seq<Field>, ms: seq<Entry<Json>>, key: Text)
    requires Proper(Shape(fs)) && Validate(Shape(fs), JObj(ms)).Some?
    ensures var ws := Validate(Shape(fs), JObj(ms)).value.ms;
            && (Schemas.Has(ws, key) ==> exists i | 0 <= i < |fs| :: fs[i].name == key)
            && (forall i | 0 <= i < |fs| && fs[i].name == key ::
                  var v := Lookup(ms, key);
                  Some(Lookup(ws, key)) == if fs[i].optional && v == JUndefined then Some(JUndefined) else Validate(fs[i].schema, v))
  {
    var ws := Validate(Shape(fs), JObj(ms)).value.ms;
    FieldsSpec(fs, ms);
    if Schemas.Has(ws, key) {
      var k :| 0 <= k < |ws| && ws[k].key == key;
      assert Names(fs, ws[k].key);
    }
    forall i | 0 <= i < |fs| && fs[i].name == key
      ensures Some(Lookup(ws, key)) == if fs[i].optional && Lookup(ms, key) == JUndefined then Some(JUndefined)
                                       else Validate(fs[i].schema, Lookup(ms, key))
    {
      FieldIsKept(fs[i], ms, ws);
    }
  }

  lemma FieldIsKept(f: Field, ms: seq<Entry<Json>>, ws: seq<Entry<Json>>)
    requires Yields(f, ms, ws)
    ensures var v := Lookup(ms, f.name);
            Some(Lookup(ws, f.name)) == if f.optional && v == JUndefined then Some(JUndefined) else Validate(f.schema, v)
  {
    LookupSpec(ws, f.name);
  }
}
