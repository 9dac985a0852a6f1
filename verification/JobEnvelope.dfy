/** JobEnvelopeV1: the on-chain job description. The URL check of Zod is a parameter. */
module JobEnvelope {
  import opened Basics
  import opened SortedEntries
  import opened Json
  import opened Numbers
  import opened JsonRoundTrip
  import opened CanonicalJson
  import opened Schemas
  import opened CanonicalCodec
  import Usdc
  import Decimal

  const MAX_ENCODED_BYTES: nat := 32 * 1024

  /** The text as Dafny characters; a unit outside ASCII becomes '?', which no amount contains. */
  function Chars(t: Text): (s: string)
    ensures |s| == |t|
  {
    seq(|t|, i requires 0 <= i < |t| => if t[i] < 128 then t[i] as char else '?')
  }

  /** Micro-units of a USDC text, as the refinements compute them from the split parts. */
  function Atomic(s: string): nat
    requires Usdc.IsAmount(s)
  {
    Usdc.DecimalParts(s);
    Decimal.ValuePadEnd(Usdc.Fraction(s), 6);
    Decimal.Value(Usdc.Whole(s)) * Usdc.SCALE + Decimal.Value(Decimal.PadEnd(Usdc.Fraction(s), 6))
  }

  /** A positive amount of at most a million USDC, of at most seven whole digits. */
  predicate BudgetOk(t: Text) {
    var s := Chars(t);
    Usdc.IsAmount(s) && |Usdc.Whole(s)| <= 7 && 0 < Atomic(s) <= 1_000_000_000_000
  }

  predicate SpendOk(t: Text) {
    var s := Chars(t);
    Usdc.IsAmount(s) && Atomic(s) <= 10_000_000_000
  }

  function CriterionSchema(): Schema {
    Shape([
      Required("id", AnyString(1, Some(128), AnyText)),
      Required("description", AnyString(1, Some(2048), AnyText)),
      Required("mandatory", AnyBool)
    ])
  }

  function CommercialTermsSchema(budget: Text -> bool): Schema {
    Shape([
      Required("proposedBudgetUsdc", AnyString(0, None, budget)),
      Required("clientWillFund", Literal(JBool(true)))
    ])
  }

  function PaymentDelegationSchema(url: Text -> bool): Schema {
    Shape([
      Required("delegationEnabled", AnyBool),
      Required("maxSpendUsdc", AnyString(0, None, SpendOk)),
      Required("allowedHosts", ListOf(AnyString(0, None, url), 0, Some(64))),
      Required("maxRequests", WholeNumber(0, 100))
    ])
  }

  function EnvelopeSchema(url: Text -> bool): Schema {
    Shape([
      Required("schema", Literal(Word("arclayer.job"))),
      Required("version", Literal(JNum(Integer(1)))),
      Required("task", AnyString(1, Some(16384), AnyText)),
      Optionally("input", Unknown),
      Required("acceptanceCriteria", ListOf(CriterionSchema(), 1, Some(32))),
      Optionally("outputFormat", OneOf([Ascii("text"), Ascii("markdown"), Ascii("json")])),
      Required("commercialTerms", CommercialTermsSchema(BudgetOk)),
      Optionally("paymentDelegation", PaymentDelegationSchema(url)),
      Optionally("metadata", AnyRecord)
    ])
  }

  function EncodeJobEnvelope(url: Text -> bool, v: Json): Result<Text, EncodeError> {
    match Validate(EnvelopeSchema(url), v)
    case None => Err(Invalid)
    case Some(w) =>
      var encoded := Print(w);
      if Utf8Length(encoded) > MAX_ENCODED_BYTES then Err(TooLarge(Utf8Length(encoded))) else Ok(encoded)
  }

  function DecodeJobEnvelope(double: Num -> Num, url: Text -> bool, raw: Text): Option<Json> {
    if raw == [] then None
    else
      match Parse(double, raw)
      case None => None
      case Some(v) =>
        if !v.JObj? then None
        else if Lookup(v.ms, Ascii("schema")) != Word("arclayer.job") then None
        else if Lookup(v.ms, Ascii("version")) != JNum(Integer(1)) then None
        else Validate(EnvelopeSchema(url), v)
  }

  /** extractProposedBudget, after decoding. */
  function ProposedBudgetText(envelope: Json): Option<Text> {
    if !envelope.JObj? then None
    else
      var terms := Lookup(envelope.ms, Ascii("commercialTerms"));
      if !terms.JObj? then None
      else
        var budget := Lookup(terms.ms, Ascii("proposedBudgetUsdc"));
        if budget.JStr? then Some(budget.s) else None
  }

  /** The commercial terms of an envelope pass their schema, whatever it demands of the budget. */
  predicate ValidTerms(budget: Text -> bool, envelope: Json) {
    envelope.JObj? && Validate(CommercialTermsSchema(budget), Lookup(envelope.ms, Ascii("commercialTerms"))).Some?
  }

  lemma CriterionIsProper()
    ensures Proper(CriterionSchema())
  {
    assert Ascii("mandatory")[0] != PROTO[0];
  }

  lemma TermsAreProper(budget: Text -> bool)
    ensures Proper(CommercialTermsSchema(budget))
  {
  }

  lemma DelegationIsProper(url: Text -> bool)
    ensures Proper(PaymentDelegationSchema(url))
  {
    assert Ascii("maxSpendUsdc")[0] != Ascii("allowedHosts")[0];
  }

  lemma EnvelopeIsProper(url: Text -> bool)
    ensures Proper(EnvelopeSchema(url))
  {
    CriterionIsProper();
    TermsAreProper(BudgetOk);
    DelegationIsProper(url);
    var fs := EnvelopeSchema(url).fields;
    forall i | 0 <= i < |fs|
      ensures fs[i].name != PROTO && Proper(fs[i].schema)
    {
    }
  }

  /** The checks before validation refuse nothing that validation would accept. */
  lemma DecodeIsCanonical(double: Num -> Num, url: Text -> bool, raw: Text)
    ensures DecodeJobEnvelope(double, url, raw) == Decode(double, EnvelopeSchema(url), raw)
  {
    if Parse(double, raw).Some? && Parse(double, raw).value.JObj? {
      var ms := Parse(double, raw).value.ms;
      if Validate(EnvelopeSchema(url), JObj(ms)).Some? {
        EnvelopeFields(url, ms);
      }
    }
  }

  lemma EnvelopeFields(url: Text -> bool, ms: seq<Entry<Json>>)
    requires Validate(EnvelopeSchema(url), JObj(ms)).Some?
    ensures Lookup(ms, Ascii("schema")) == Word("arclayer.job") && Lookup(ms, Ascii("version")) == JNum(Integer(1))
    ensures ValidTerms(BudgetOk, JObj(ms))
  {
    var fs := EnvelopeSchema(url).fields;
    EnvelopeIsProper(url);
    FieldsSpec(fs, ms);
    var ws := ValidateFields(fs, ms).value;
    assert Yields(fs[0], ms, ws) && Yields(fs[1], ms, ws) && Yields(fs[6], ms, ws);
  }

  /** Encoding a valid envelope without undefined, then decoding, gives it back; the text is a fixed point. */
  lemma EnvelopeRoundTrip(double: Num -> Num, url: Text -> bool, v: Json)
    requires WellFormed(v) && Represented(double, v) && EncodeJobEnvelope(url, v).Ok?
    ensures Validate(EnvelopeSchema(url), v).Some?
    ensures var (w, text) := (Validate(EnvelopeSchema(url), v).value, EncodeJobEnvelope(url, v).value);
            && (UndefinedFree(w) <==>
                  DecodeJobEnvelope(double, url, text).Some? && Same(w, DecodeJobEnvelope(double, url, text).value, true))
            && (UndefinedFree(w) ==> EncodeJobEnvelope(url, DecodeJobEnvelope(double, url, text).value) == Ok(text))
  {
    EnvelopeIsProper(url);
    RoundTrip(double, EnvelopeSchema(url), MAX_ENCODED_BYTES, v);
    DecodeIsCanonical(double, url, EncodeJobEnvelope(url, v).value);
  }

  /** The text is an exact amount above zero and up to a million USDC. */
  predicate Payable(s: string) {
    var amount := Usdc.ParseUsdcToAtomic(s);
    amount.Ok? && 0 < amount.value <= 1_000_000 * Usdc.SCALE
  }

  lemma BudgetParses(t: Text)
    requires BudgetOk(t)
    ensures Payable(Chars(t))
  {
    assert Usdc.ParseUsdcToAtomic(Chars(t)) == Ok(Atomic(Chars(t)));
  }

  lemma TermsHaveBudget(ok: Text -> bool, terms: Json)
    requires Validate(CommercialTermsSchema(ok), terms).Some?
    ensures terms.JObj?
    ensures var budget := Lookup(terms.ms, Ascii("proposedBudgetUsdc")); budget.JStr? && ok(budget.s)
  {
    var fs := CommercialTermsSchema(ok).fields;
    TermsAreProper(ok);
    FieldsSpec(fs, terms.ms);
    assert Yields(fs[0], terms.ms, ValidateFields(fs, terms.ms).value);
    assert Validate(fs[0].schema, Lookup(terms.ms, fs[0].name)).Some?;
  }

  lemma EnvelopeHasBudget(ok: Text -> bool, e: Json)
    requires ValidTerms(ok, e)
    ensures ProposedBudgetText(e).Some? && ok(ProposedBudgetText(e).value)
  {
    TermsHaveBudget(ok, Lookup(e.ms, Ascii("commercialTerms")));
  }

  lemma DecodedTerms(double: Num -> Num, url: Text -> bool, raw: Text)
    requires DecodeJobEnvelope(double, url, raw).Some?
    ensures ValidTerms(BudgetOk, DecodeJobEnvelope(double, url, raw).value)
  {
    EnvelopeIsProper(url);
    DecodeIsCanonical(double, url, raw);
    DecodedIsClean(double, EnvelopeSchema(url), raw);
    EnvelopeFields(url, DecodeJobEnvelope(double, url, raw).value.ms);
  }

  /** Every budget a decoded envelope proposes is parsed exactly, and lies in (0, 1_000_000] USDC. */
  lemma DecodedBudgetIsPayable(double: Num -> Num, url: Text -> bool, raw: Text)
    requires DecodeJobEnvelope(double, url, raw).Some?
    ensures var budget := ProposedBudgetText(DecodeJobEnvelope(double, url, raw).value);
            budget.Some? && Payable(Chars(budget.value))
  {
    DecodedTerms(double, url, raw);
    var e := DecodeJobEnvelope(double, url, raw).value;
    EnvelopeHasBudget(BudgetOk, e);
    BudgetParses(ProposedBudgetText(e).value);
  }
}
