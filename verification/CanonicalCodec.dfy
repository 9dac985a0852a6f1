/** Validate, print canonically, bound the size; and back. Shared by job envelopes and deliverables. */
module CanonicalCodec {
  import opened Basics
  import opened SortedEntries
  import opened Json
  import opened Numbers
  import opened JsonRoundTrip
  import opened CanonicalJson
  import opened Schemas

  datatype EncodeError = Invalid | TooLarge(bytes: nat)

  /** Buffer.byteLength(text, "utf-8"); an unpaired surrogate counts as the replacement character. */
  function Utf8Length(t: Text): nat {
    if t == [] then 0
    else if |t| > 1 && IsHigh(t[0]) && IsLow(t[1]) then 4 + Utf8Length(t[2..])
    else (if t[0] < 0x80 then 1 else if t[0] < 0x800 then 2 else 3) + Utf8Length(t[1..])
  }

  function Encode(s: Schema, limit: nat, v: Json): Result<Text, EncodeError> {
    match Validate(s, v)
    case None => Err(Invalid)
    case Some(w) =>
      var text := Print(w);
      if Utf8Length(text) > limit then Err(TooLarge(Utf8Length(text))) else Ok(text)
  }

  function Decode(double: Num -> Num, s: Schema, raw: Text): Option<Json> {
    if raw == [] then None
    else
      match Parse(double, raw)
      case None => None
      case Some(v) => Validate(s, v)
  }

  lemma {:induction false} SameKeepsUndefinedFree(a: Json, b: Json)
    requires Same(a, b, true) && UndefinedFree(b)
    ensures UndefinedFree(a)
  {
    match a {
      case JArr(es) =>
        forall i | 0 <= i < |es|
          ensures UndefinedFree(es[i])
        {
          SameKeepsUndefinedFree(es[i], b.es[i]);
        }
      case JObj(ms) =>
        forall i | 0 <= i < |ms|
          ensures UndefinedFree(ms[i].val)
        {
          assert HasKey(b.ms, ms[i].key);
          var j :| 0 <= j < |b.ms| && b.ms[j].key == ms[i].key;
          SameKeepsUndefinedFree(ms[i].val, b.ms[j].val);
        }
      case _ =>
    }
  }

  lemma DecodedIsClean(double: Num -> Num, s: Schema, raw: Text)
    requires Proper(s) && Decode(double, s, raw).Some?
    ensures Clean(Decode(double, s, raw).value) && Validate(s, Decode(double, s, raw).value) == Decode(double, s, raw)
  {
    ParsedIsClean(double, raw);
    ValidatedIsWellFormed(double, s, Parse(double, raw).value);
    ValidateIsIdempotent(s, Parse(double, raw).value);
  }

  /** A valid value and a clean one that is the same: the second validates to the same again, and prints like the first. */
  lemma SameTextsDecode(double: Num -> Num, s: Schema, w: Json, u: Json)
    requires Proper(s) && Clean(w) && Clean(u) && Same(w, u, true) && Validate(s, w) == Some(w)
    ensures Validate(s, u).Some?
    ensures Same(w, Validate(s, u).value, true) && Print(Validate(s, u).value) == Print(w)
  {
    ValidateRespectsSame(s, w, u);
    ValidatedIsWellFormed(double, s, u);
    var x := Validate(s, u).value;
    StrictOnClean(w, x);
    SamePrints(w, x);
  }

  /**
   Decoding an encoded value returns the validated value, up to key order, exactly when that value holds no undefined;
   and what is decoded encodes to the same text again.
   */
  lemma RoundTrip(double: Num -> Num, s: Schema, limit: nat, v: Json)
    requires Proper(s) && WellFormed(v) && Represented(double, v) && Encode(s, limit, v).Ok?
    ensures Validate(s, v).Some?
    ensures var (w, text) := (Validate(s, v).value, Encode(s, limit, v).value);
            && (UndefinedFree(w) <==> Decode(double, s, text).Some? && Same(w, Decode(double, s, text).value, true))
            && (UndefinedFree(w) ==> Encode(s, limit, Decode(double, s, text).value) == Ok(text))
  {
    var w, text := Validate(s, v).value, Encode(s, limit, v).value;
    if UndefinedFree(w) {
      ReturnsIfClean(double, s, limit, v);
    }
    if Decode(double, s, text).Some? && Same(w, Decode(double, s, text).value, true) {
      CleanIfReturned(double, s, w, text);
    }
  }

  lemma ReturnsIfClean(double: Num -> Num, s: Schema, limit: nat, v: Json)
    requires Proper(s) && WellFormed(v) && Represented(double, v)
    requires Encode(s, limit, v).Ok? && UndefinedFree(Validate(s, v).value)
    ensures var (w, text) := (Validate(s, v).value, Encode(s, limit, v).value);
            && Decode(double, s, text).Some? && Same(w, Decode(double, s, text).value, true)
            && Encode(s, limit, Decode(double, s, text).value) == Ok(text)
  {
    var w, text := Validate(s, v).value, Print(Validate(s, v).value);
    ValidatedIsWellFormed(double, s, v);
    ValidateIsIdempotent(s, v);
    ReadsBack(double, s, w);
    DecodedIsClean(double, s, text);
    EncodedAgain(s, limit, Decode(double, s, text).value, text);
  }

  /** A clean value that is its own parse: its text decodes to the same value, which prints to the same text. */
  lemma ReadsBack(double: Num -> Num, s: Schema, w: Json)
    requires Proper(s) && Clean(w) && Represented(double, w) && Validate(s, w) == Some(w)
    ensures Decode(double, s, Print(w)).Some?
    ensures Same(w, Decode(double, s, Print(w)).value, true) && Print(Decode(double, s, Print(w)).value) == Print(w)
  {
    DecodeEncode(double, w);
    ParsedIsClean(double, Print(w));
    SameTextsDecode(double, s, w, Parse(double, Print(w)).value);
  }

  lemma EncodedAgain(s: Schema, limit: nat, x: Json, text: Text)
    requires Validate(s, x) == Some(x) && Print(x) == text && Utf8Length(text) <= limit
    ensures Encode(s, limit, x) == Ok(text)
  {
  }

  lemma CleanIfReturned(double: Num -> Num, s: Schema, w: Json, text: Text)
    requires Proper(s) && Decode(double, s, text).Some? && Same(w, Decode(double, s, text).value, true)
    ensures UndefinedFree(w)
  {
    DecodedIsClean(double, s, text);
    SameKeepsUndefinedFree(w, Decode(double, s, text).value);
  }

  /** Any two JSON texts of one value decode alike and re-encode to identical text, or are refused alike. */
  lemma TextsReencodeAlike(double: Num -> Num, s: Schema, limit: nat, a: Text, b: Text)
    requires Proper(s) && Parse(double, a).Some? && Parse(double, b).Some? && Same(Parse(double, a).value, Parse(double, b).value, true)
    ensures Decode(double, s, a).Some? <==> Decode(double, s, b).Some?
    ensures Decode(double, s, a).Some? ==>
              Encode(s, limit, Decode(double, s, a).value) == Encode(s, limit, Decode(double, s, b).value)
  {
    ParsedIsClean(double, a);
    ParsedIsClean(double, b);
    ValidateRespectsSame(s, Parse(double, a).value, Parse(double, b).value);
    if Decode(double, s, a).Some? {
      DecodedIsClean(double, s, a);
      DecodedIsClean(double, s, b);
      StrictOnClean(Decode(double, s, a).value, Decode(double, s, b).value);
      SamePrints(Decode(double, s, a).value, Decode(double, s, b).value);
    }
  }

  /** Two values encode to the same text exactly when what validation makes of them is equal up to key order. */
  lemma EncodingDecidesEquality(s: Schema, limit: nat, v: Json, u: Json)
    requires Proper(s) && WellFormed(v) && WellFormed(u) && Encode(s, limit, v).Ok? && Encode(s, limit, u).Ok?
    ensures Encode(s, limit, v) == Encode(s, limit, u) <==> Same(Validate(s, v).value, Validate(s, u).value, false)
  {
    ValidatedIsWellFormed(n => n, s, v);
    ValidatedIsWellFormed(n => n, s, u);
    PrintDecidesEquality(Validate(s, v).value, Validate(s, u).value);
  }
}
