/** CanonicalDeliverableV1: what a provider submits. The URL and date-time checks of Zod are parameters. */
module Deliverable {
  import opened Basics
  import opened SortedEntries
  import opened Json
  import opened Numbers
  import opened JsonRoundTrip
  import opened CanonicalJson
  import opened Schemas
  import opened CanonicalCodec

  const MAX_PAYLOAD_BYTES: nat := 1024 * 1024
  const MAX_ARTIFACTS: nat := 32

  /** The formats Zod checks by itself. */
  datatype Formats = Formats(url: Text -> bool, dateTime: Text -> bool)

  /** The pattern ^[a-fA-F0-9]{64}$ . */
  predicate IsSha256(t: Text) {
    |t| == 64 && forall i | 0 <= i < 64 :: HexValue(t[i]).Some?
  }

  function ArtifactSchema(formats: Formats): Schema {
    Shape([
      Required("name", AnyString(1, Some(256), AnyText)),
      Optionally("uri", AnyString(0, Some(2048), formats.url)),
      Optionally("contentType", AnyString(1, Some(128), AnyText)),
      Optionally("sha256", AnyString(0, None, IsSha256))
    ])
  }

  function RuntimeSchema(formats: Formats): Schema {
    Shape([
      Required("taskId", AnyString(1, Some(256), AnyText)),
      Required("completedAt", AnyString(0, None, formats.dateTime))
    ])
  }

  function DeliverableSchema(formats: Formats): Schema {
    Shape([
      Required("schema", Literal(Word("arclayer.deliverable"))),
      Required("version", Literal(JNum(Integer(1)))),
      Required("jobId", AnyString(1, Some(128), AnyText)),
      Required("providerAgentId", AnyString(1, Some(128), AnyText)),
      Required("output", Unknown),
      Required("artifacts", ListOf(ArtifactSchema(formats), 0, Some(32))),
      Required("runtime", RuntimeSchema(formats))
    ])
  }

  datatype CanonicalizeError = Rejected(reason: EncodeError) | TooManyArtifacts

  function CanonicalizeDeliverable(formats: Formats, v: Json): Result<Text, CanonicalizeError> {
    match Validate(DeliverableSchema(formats), v)
    case None => Err(Rejected(Invalid))
    case Some(w) =>
      if w.JObj? && Lookup(w.ms, Ascii("artifacts")).JArr? && |Lookup(w.ms, Ascii("artifacts")).es| > MAX_ARTIFACTS
      then Err(TooManyArtifacts)
      else
        var canonical := Print(w);
        if Utf8Length(canonical) > MAX_PAYLOAD_BYTES then Err(Rejected(TooLarge(Utf8Length(canonical))))
        else Ok(canonical)
  }

  function DecodeDeliverable(double: Num -> Num, formats: Formats, payload: Text): Option<Json> {
    if payload == [] then None
    else
      match Parse(double, payload)
      case None => None
      case Some(v) => Validate(DeliverableSchema(formats), v)
  }

  lemma ArtifactIsProper(formats: Formats)
    ensures Proper(ArtifactSchema(formats))
  {
  }

  lemma RuntimeIsProper(formats: Formats)
    ensures Proper(RuntimeSchema(formats))
  {
  }

  lemma DeliverableIsProper(formats: Formats)
    ensures Proper(DeliverableSchema(formats))
  {
    ArtifactIsProper(formats);
    RuntimeIsProper(formats);
    assert Ascii("version")[0] != Ascii("runtime")[0];
    assert Ascii("artifacts")[0] != PROTO[0] && Ascii("schema")[0] != Ascii("output")[0];
  }

  lemma ArtifactsAreBounded(formats: Formats, ws: seq<Entry<Json>>)
    requires ValidateFields(DeliverableSchema(formats).fields, ws).Some?
    ensures Lookup(ws, Ascii("artifacts")).JArr? && |Lookup(ws, Ascii("artifacts")).es| <= MAX_ARTIFACTS
  {
    var f := DeliverableSchema(formats).fields[5];
    DeliverableIsProper(formats);
    FieldsSpec(DeliverableSchema(formats).fields, ws);
    assert Yields(f, ws, ValidateFields(DeliverableSchema(formats).fields, ws).value);
    assert Validate(f.schema, Lookup(ws, f.name)).Some?;
  }

  /** The second artifact check never fires: the schema has already bounded the list. */
  lemma ArtifactCheckIsRedundant(formats: Formats, v: Json)
    ensures CanonicalizeDeliverable(formats, v) ==
              match Encode(DeliverableSchema(formats), MAX_PAYLOAD_BYTES, v)
              case Ok(text) => Ok(text)
              case Err(e) => Err(Rejected(e))
  {
    var s := DeliverableSchema(formats);
    if Validate(s, v).Some? {
      DeliverableIsProper(formats);
      ValidateIsIdempotent(s, v);
      ArtifactsAreBounded(formats, Validate(s, v).value.ms);
    }
  }

  /** Canonicalising a valid deliverable without undefined, then decoding, gives it back; the text is a fixed point. */
  lemma DeliverableRoundTrip(double: Num -> Num, formats: Formats, v: Json)
    requires WellFormed(v) && Represented(double, v) && CanonicalizeDeliverable(formats, v).Ok?
    ensures Validate(DeliverableSchema(formats), v).Some?
    ensures var (w, text) := (Validate(DeliverableSchema(formats), v).value, CanonicalizeDeliverable(formats, v).value);
            && (UndefinedFree(w) <==>
                  DecodeDeliverable(double, formats, text).Some? && Same(w, DecodeDeliverable(double, formats, text).value, true))
            && (UndefinedFree(w) ==>
                  CanonicalizeDeliverable(formats, DecodeDeliverable(double, formats, text).value) == Ok(text))
  {
    DeliverableIsProper(formats);
    ArtifactCheckIsRedundant(formats, v);
    RoundTrip(double, DeliverableSchema(formats), MAX_PAYLOAD_BYTES, v);
    var text := CanonicalizeDeliverable(formats, v).value;
    if DecodeDeliverable(double, formats, text).Some? {
      ArtifactCheckIsRedundant(formats, DecodeDeliverable(double, formats, text).value);
    }
  }
}
