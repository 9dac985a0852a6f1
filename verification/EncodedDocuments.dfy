/** When a document is encoded, and how many bytes its text has: UTF-8 by section 3 of RFC 3629. */
module EncodedDocuments {
  import opened Basics
  import opened SortedEntries
  import opened Json
  import opened Numbers
  import opened Schemas
  import opened CanonicalCodec
  import opened JobEnvelope
  import opened Deliverable
  import opened AcceptedDocuments

  // ----- UTF-8 -----

  /** The octets of one code point. */
  function Octets(c: nat): seq<nat> {
    if c <= 0x7F then [c]
    else if c <= 0x7FF then [0xC0 + c / 64, 0x80 + c % 64]
    else if c <= 0xFFFF then [0xE0 + c / 4096, 0x80 + c / 64 % 64, 0x80 + c % 64]
    else [0xF0 + c / 262144, 0x80 + c / 4096 % 64, 0x80 + c / 64 % 64, 0x80 + c % 64]
  }

  /** The code points of UTF-16 text; a surrogate without its partner counts as U+FFFD. */
  function CodePoints(t: Text): seq<nat> {
    if t == [] then []
    else if 0xD800 <= t[0] <= 0xDBFF && |t| >= 2 && 0xDC00 <= t[1] <= 0xDFFF then
      [0x10000 + (t[0] as int - 0xD800) * 0x400 + (t[1] as int - 0xDC00)] + CodePoints(t[2..])
    else [if 0xD800 <= t[0] <= 0xDFFF then 0xFFFD else t[0]] + CodePoints(t[1..])
  }

  function Utf8(points: seq<nat>): seq<nat> {
    if points == [] then [] else Octets(points[0]) + Utf8(points[1..])
  }

  /** The length the code checks is the number of octets. */
  lemma {:induction false} LengthIsOctets(t: Text)
    ensures Utf8Length(t) == |Utf8(CodePoints(t))|
  {
    if t != [] {
      var points := CodePoints(t);
      if IsHigh(t[0]) && |t| > 1 && IsLow(t[1]) {
        LengthIsOctets(t[2..]);
        assert points[1..] == CodePoints(t[2..]) && points[0] > 0xFFFF;
      } else {
        LengthIsOctets(t[1..]);
        assert points[1..] == CodePoints(t[1..]);
      }
    }
  }

  function Bytes(t: Text): nat {
    |Utf8(CodePoints(t))|
  }

  // ----- encoding -----

  /**
   Encoding refuses exactly what is no job envelope, then what has more than 32768 octets, and otherwise yields the
   printed text of the validated envelope.
   */
  lemma EnvelopeEncodesIff(url: Text -> bool, v: Json)
    ensures EncodeJobEnvelope(url, v) == Err(Invalid) <==> !GoodEnvelope(url, v)
    ensures GoodEnvelope(url, v) ==>
              && Validate(EnvelopeSchema(url), v).Some?
              && var text := Print(Validate(EnvelopeSchema(url), v).value);
                 EncodeJobEnvelope(url, v) == if Bytes(text) <= 32768 then Ok(text) else Err(TooLarge(Bytes(text)))
  {
    EnvelopeAccepts(url, v);
    if Validate(EnvelopeSchema(url), v).Some? {
      LengthIsOctets(Print(Validate(EnvelopeSchema(url), v).value));
    }
  }

  /** A deliverable likewise, up to 1048576 octets; the count of artifacts is never what refuses it. */
  lemma DeliverableEncodesIff(formats: Formats, v: Json)
    ensures CanonicalizeDeliverable(formats, v) == Err(Rejected(Invalid)) <==> !GoodDeliverable(formats, v)
    ensures GoodDeliverable(formats, v) ==>
              && Validate(DeliverableSchema(formats), v).Some?
              && var text := Print(Validate(DeliverableSchema(formats), v).value);
                 CanonicalizeDeliverable(formats, v) ==
                   if Bytes(text) <= 1048576 then Ok(text) else Err(Rejected(TooLarge(Bytes(text))))
  {
    DeliverableAccepts(formats, v);
    ArtifactCheckIsRedundant(formats, v);
    if Validate(DeliverableSchema(formats), v).Some? {
      LengthIsOctets(Print(Validate(DeliverableSchema(formats), v).value));
    }
  }

  /** Decoding accepts exactly the JSON texts of job envelopes, and yields the validated envelope. */
  lemma EnvelopeDecodesIff(double: Num -> Num, url: Text -> bool, raw: Text)
    ensures DecodeJobEnvelope(double, url, raw).Some? <==>
              Parse(double, raw).Some? && GoodEnvelope(url, Parse(double, raw).value)
    ensures DecodeJobEnvelope(double, url, raw).Some? ==>
              DecodeJobEnvelope(double, url, raw) == Validate(EnvelopeSchema(url), Parse(double, raw).value)
  {
    DecodeIsCanonical(double, url, raw);
    if Parse(double, raw).Some? {
      EnvelopeAccepts(url, Parse(double, raw).value);
    }
  }
}
