/** How the outcome of one wallet write is classified, and where its transaction hash is found. */
module WriteResults {
  import opened Basics
  import opened OperationStates

  /** The parts of an adapter result the gateway looks at. stdoutTx is the first 0x + 64 hex digits in stdout. */
  datatype WriteResult = WriteResult(
    reportsError: bool,
    status: Option<string>,
    dataState: Option<string>,
    jsonTx: Option<string>,
    dataTx: Option<string>,
    output: Option<string>,
    stdoutTx: Option<string>)

  datatype CliError = CliError(name: string, killed: bool, signal: string, message: string)

  /** What awaiting executeFn produced. */
  datatype Attempt = Returned(result: WriteResult) | Threw(error: CliError)

  function UpperChar(c: char): char {
    if 'a' <= c <= 'z' then (c as int - 32) as char else c
  }

  function Upper(s: string): string {
    seq(|s|, i requires 0 <= i < |s| => UpperChar(s[i]))
  }

  predicate Contains(s: string, part: string) {
    exists i: nat | i <= |s| :: part <= s[i..]
  }

  predicate IsHexDigit(c: char) {
    '0' <= c <= '9' || 'a' <= c <= 'f' || 'A' <= c <= 'F'
  }

  predicate IsTxHash(s: string) {
    |s| == 66 && s[0] == '0' && s[1] == 'x' && forall i | 2 <= i < 66 :: IsHexDigit(s[i])
  }

  const SUCCESS: set<string> := {"CONFIRMED", "COMPLETE", "COMPLETED", "SUCCESS", "SUCCEEDED", "SENT"}

  function ExtractTx(r: WriteResult): Option<string> {
    if r.jsonTx.Some? then r.jsonTx
    else if r.dataTx.Some? then r.dataTx
    else if r.output.Some? && IsTxHash(r.output.value) then r.output
    else r.stdoutTx
  }

  function ClassifyError(e: CliError): OpState {
    var msg := Lower(e.message);
    if e.name == "AbortError" then Unknown
    else if e.killed || e.signal == "SIGTERM" then Unknown
    else if || Contains(msg, "timeout") || Contains(msg, "abort")
            || Contains(msg, "timed out") || Contains(msg, "etimedout") then Unknown
    else Failed
  }

  function Classify(a: Attempt): OpState {
    match a
    case Threw(e) => ClassifyError(e)
    case Returned(r) =>
      if r.reportsError then Failed
      else if r.dataState.Some? && Upper(r.dataState.value) in {"FAILED", "DENIED", "REVERTED"} then Failed
      else if r.dataState.Some? && Upper(r.dataState.value) in {"CANCELLED", "CANCELED"} then Cancelled
      else if Truthy(ExtractTx(r)).Some? then
        if || (r.status.Some? && Upper(r.status.value) in SUCCESS)
           || (r.dataState.Some? && Upper(r.dataState.value) in SUCCESS) then Confirmed
        else Broadcast
      else Unknown
  }

  function AttemptTx(a: Attempt): Option<string> {
    if a.Returned? then ExtractTx(a.result) else None
  }

  /**
   A classification is never a pre-broadcast state; confirmed and broadcast always come with a hash; and a
   result (as opposed to an exception) is retryable only when it said so itself.
   */
  lemma ClassificationIsConservative(a: Attempt)
    ensures Classify(a) in {Confirmed, Broadcast, Unknown, Failed, Cancelled}
    ensures Classify(a) in {Confirmed, Broadcast} ==> Truthy(AttemptTx(a)).Some?
    ensures a.Returned? && Classify(a) in {Failed, Cancelled} ==>
              a.result.reportsError
              || (a.result.dataState.Some? && Upper(a.result.dataState.value) in
                    {"FAILED", "DENIED", "REVERTED", "CANCELLED", "CANCELED"})
    ensures a.Threw? ==> Classify(a) in {Unknown, Failed}
  {
  }

  // ----- what each answer means, in terms of the fields -----

  /** The text is the upper-case word, whatever the case of its ASCII letters. */
  predicate Spells(text: string, word: string) {
    && |text| == |word|
    && forall i | 0 <= i < |text| :: text[i] == word[i] || ('A' <= word[i] <= 'Z' && text[i] as int == word[i] as int + 32)
  }

  predicate NoLower(word: string) {
    forall i | 0 <= i < |word| :: !('a' <= word[i] <= 'z')
  }

  predicate SaysOneOf(text: Option<string>, words: set<string>) {
    text.Some? && exists word | word in words :: Spells(text.value, word)
  }

  predicate SpellsAt(text: string, i: nat, word: string) {
    i + |word| <= |text| && Spells(text[i..i + |word|], word)
  }

  /** The upper-case word occurs in the text, in any case. */
  predicate Mentions(text: string, word: string) {
    exists i: nat | i <= |text| :: SpellsAt(text, i, word)
  }

  lemma UpperSpells(text: string, word: string)
    requires NoLower(word)
    ensures Upper(text) == word <==> Spells(text, word)
  {
    if Upper(text) == word {
      forall i | 0 <= i < |text|
        ensures text[i] == word[i] || ('A' <= word[i] <= 'Z' && text[i] as int == word[i] as int + 32)
      {
        assert Upper(text)[i] == word[i];
      }
    }
    if Spells(text, word) {
      forall i | 0 <= i < |text|
        ensures Upper(text)[i] == word[i]
      {
      }
    }
  }

  lemma UpperSaysOneOf(text: Option<string>, words: set<string>)
    requires forall word | word in words :: NoLower(word)
    ensures text.Some? && Upper(text.value) in words <==> SaysOneOf(text, words)
  {
    if text.Some? {
      forall word | word in words
        ensures Upper(text.value) == word <==> Spells(text.value, word)
      {
        UpperSpells(text.value, word);
      }
    }
  }

  lemma LowerSpells(text: string, word: string)
    requires NoLower(word)
    ensures Lower(text) == Lower(word) <==> Spells(text, word)
  {
    if Lower(text) == Lower(word) {
      assert |Lower(text)| == |text| && |Lower(word)| == |word|;
      forall i | 0 <= i < |text|
        ensures text[i] == word[i] || ('A' <= word[i] <= 'Z' && text[i] as int == word[i] as int + 32)
      {
        assert Lower(text)[i] == Lower(word)[i];
      }
    }
    if Spells(text, word) {
      forall i | 0 <= i < |text|
        ensures Lower(text)[i] == Lower(word)[i]
      {
      }
      assert |Lower(text)| == |text| && |Lower(word)| == |word|;
      assert Lower(text) == Lower(word);
    }
  }

  lemma LowerSpellsAt(text: string, i: nat, word: string)
    requires NoLower(word) && i <= |text|
    ensures Lower(word) <= Lower(text)[i..] <==> SpellsAt(text, i, word)
  {
    if i + |word| <= |text| {
      LowerSpells(text[i..i + |word|], word);
      assert Lower(text)[i..][..|word|] == Lower(text[i..i + |word|]);
    }
  }

  lemma LowerMentions(text: string, word: string)
    requires NoLower(word)
    ensures Contains(Lower(text), Lower(word)) <==> Mentions(text, word)
  {
    assert |Lower(text)| == |text|;
    if Contains(Lower(text), Lower(word)) {
      var i: nat :| i <= |Lower(text)| && Lower(word) <= Lower(text)[i..];
      LowerSpellsAt(text, i, word);
    }
    if Mentions(text, word) {
      var i: nat :| i <= |text| && SpellsAt(text, i, word);
      LowerSpellsAt(text, i, word);
      assert i <= |Lower(text)| && Lower(word) <= Lower(text)[i..];
    }
  }

  /** 0x and sixty-four hexadecimal digits. */
  predicate LooksLikeHash(text: string) {
    |text| == 66 && text[..2] == "0x" && forall i | 2 <= i < 66 :: text[i] in "0123456789abcdefABCDEF"
  }

  lemma HashLooks(text: string)
    ensures IsTxHash(text) <==> LooksLikeHash(text)
  {
    if |text| == 66 {
      assert text[..2] == [text[0]] + [text[1]];
      forall i | 2 <= i < 66
        ensures IsHexDigit(text[i]) <==> text[i] in "0123456789abcdefABCDEF"
      {
        HexDigitsAre(text[i]);
      }
    }
  }

  lemma HexDigitsAre(c: char)
    ensures IsHexDigit(c) <==> c in "0123456789abcdefABCDEF"
  {
    var digits := "0123456789abcdefABCDEF";
    if '0' <= c <= '9' {
      assert digits[c as int - '0' as int] == c;
    } else if 'a' <= c <= 'f' {
      assert digits[10 + c as int - 'a' as int] == c;
    } else if 'A' <= c <= 'F' {
      assert digits[16 + c as int - 'A' as int] == c;
    }
  }

  /** The hash a result carries, in the order of the places it is looked for. */
  predicate Carries(r: WriteResult, tx: Option<string>) {
    var listed := r.output.Some? && LooksLikeHash(r.output.value);
    || (r.jsonTx.Some? && tx == r.jsonTx)
    || (r.jsonTx.None? && r.dataTx.Some? && tx == r.dataTx)
    || (r.jsonTx.None? && r.dataTx.None? && listed && tx == r.output)
    || (r.jsonTx.None? && r.dataTx.None? && !listed && tx == r.stdoutTx)
  }

  predicate Refuses(r: WriteResult) {
    r.reportsError || SaysOneOf(r.dataState, {"FAILED", "DENIED", "REVERTED"})
  }

  predicate Withdraws(r: WriteResult) {
    !Refuses(r) && SaysOneOf(r.dataState, {"CANCELLED", "CANCELED"})
  }

  predicate Succeeds(r: WriteResult) {
    || SaysOneOf(r.status, {"CONFIRMED", "COMPLETE", "COMPLETED", "SUCCESS", "SUCCEEDED", "SENT"})
    || SaysOneOf(r.dataState, {"CONFIRMED", "COMPLETE", "COMPLETED", "SUCCESS", "SUCCEEDED", "SENT"})
  }

  /** A time-out, an abort or a killed process, after which nothing is known. */
  predicate Interrupted(e: CliError) {
    || e.name == "AbortError" || e.killed || e.signal == "SIGTERM"
    || Mentions(e.message, "TIMEOUT") || Mentions(e.message, "ABORT")
    || Mentions(e.message, "ETIMEDOUT") || Mentions(e.message, "TIMED OUT")
  }

  lemma WordsAreUpper()
    ensures NoLower("TIMEOUT") && NoLower("ABORT") && NoLower("ETIMEDOUT") && NoLower("TIMED OUT")
    ensures Lower("TIMEOUT") == "timeout" && Lower("ABORT") == "abort"
    ensures Lower("ETIMEDOUT") == "etimedout" && Lower("TIMED OUT") == "timed out"
  {
  }

  /** An exception is unknown exactly when the process was interrupted, and failed otherwise. */
  lemma ErrorMeaning(e: CliError)
    ensures ClassifyError(e) == if Interrupted(e) then Unknown else Failed
  {
    WordsAreUpper();
    LowerMentions(e.message, "TIMEOUT");
    LowerMentions(e.message, "ABORT");
    LowerMentions(e.message, "ETIMEDOUT");
    LowerMentions(e.message, "TIMED OUT");
  }

  lemma StatesAreUpper()
    ensures forall word | word in {"FAILED", "DENIED", "REVERTED"} :: NoLower(word)
    ensures forall word | word in {"CANCELLED", "CANCELED"} :: NoLower(word)
    ensures forall word | word in SUCCESS :: NoLower(word)
  {
  }

  /** Each answer to a result, exactly. */
  lemma ResultMeaning(r: WriteResult, tx: Option<string>)
    requires Carries(r, tx)
    ensures AttemptTx(Returned(r)) == tx
    ensures Classify(Returned(r)) == Failed <==> Refuses(r)
    ensures Classify(Returned(r)) == Cancelled <==> Withdraws(r)
    ensures Classify(Returned(r)) == Confirmed <==> !Refuses(r) && !Withdraws(r) && Succeeds(r) && tx.Some? && tx.value != ""
    ensures Classify(Returned(r)) == Broadcast <==> !Refuses(r) && !Withdraws(r) && !Succeeds(r) && tx.Some? && tx.value != ""
    ensures Classify(Returned(r)) == Unknown <==> !Refuses(r) && !Withdraws(r) && (tx.None? || tx.value == "")
  {
    if r.output.Some? {
      HashLooks(r.output.value);
    }
    StatesAreUpper();
    UpperSaysOneOf(r.dataState, {"FAILED", "DENIED", "REVERTED"});
    UpperSaysOneOf(r.dataState, {"CANCELLED", "CANCELED"});
    UpperSaysOneOf(r.dataState, SUCCESS);
    UpperSaysOneOf(r.status, SUCCESS);
  }
}
