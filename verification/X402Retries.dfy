/** What payments that share a key do to the ledger: the exact excess of the sums, and the retry of an unresolved payment. */
module X402Retries {
  import opened Calendar
  import opened Basics
  import opened X402
  import Usdc

  // ----- a success ends its key -----

  predicate SuccessEnds(l: seq<Event>) {
    forall i, j | 0 <= i < j < |l| && l[i].status == Success :: l[j].key != l[i].key
  }

  /** A success follows an attempt of its key. */
  predicate SuccessIsAttempted(l: seq<Event>) {
    forall j | 0 <= j < |l| && l[j].status == Success :: Has(l[..j], l[j].key, Attempt)
  }

  lemma PlusKeepsEnds(l: seq<Event>, e: Event)
    requires SuccessEnds(l) && !HasSucceeded(l, e.key)
    ensures SuccessEnds(l + [e])
  {
  }

  lemma PlusKeepsAttempted(l: seq<Event>, e: Event)
    requires SuccessIsAttempted(l) && (e.status == Success ==> Has(l, e.key, Attempt))
    ensures SuccessIsAttempted(l + [e])
  {
    forall j | 0 <= j < |l + [e]| && (l + [e])[j].status == Success
      ensures Has((l + [e])[..j], (l + [e])[j].key, Attempt)
    {
      assert (l + [e])[..j] == l[..j];
      assert l[..|l|] == l;
    }
  }

  lemma PayKeepsEnds(cfg: Config, l: seq<Event>, p: Payment)
    requires SuccessEnds(l) && SuccessIsAttempted(l)
    ensures SuccessEnds(Pay(cfg, l, p).0) && SuccessIsAttempted(Pay(cfg, l, p).0)
  {
    if Stopped(cfg, l, p) == None {
      WithinWhenNotStopped(cfg, l, p);
      AppendedKeepsEnds(l, AttemptOf(p), p.outcome, p.ended);
    }
  }

  lemma AppendedKeepsEnds(l: seq<Event>, attempt: Event, outcome: Outcome, ended: Date)
    requires SuccessEnds(l) && SuccessIsAttempted(l) && attempt.status == Attempt && !HasSucceeded(l, attempt.key)
    ensures var l' := l + Appended(attempt, outcome, ended); SuccessEnds(l') && SuccessIsAttempted(l')
  {
    PlusKeepsEnds(l, attempt);
    PlusKeepsAttempted(l, attempt);
    if Ending(outcome).Some? {
      var last := Event(attempt.key, Ending(outcome).value, 0, ended);
      assert (l + [attempt])[|l|] == attempt;
      PlusKeepsEnds(l + [attempt], last);
      PlusKeepsAttempted(l + [attempt], last);
      assert l + Appended(attempt, outcome, ended) == l + [attempt] + [last];
    }
  }

  lemma {:induction false} RunsKeepEnds(cfg: Config, ps: seq<Payment>)
    ensures SuccessEnds(PayAll(cfg, [], ps)) && SuccessIsAttempted(PayAll(cfg, [], ps))
  {
    if ps != [] {
      RunsKeepEnds(cfg, ps[..|ps| - 1]);
      PayKeepsEnds(cfg, PayAll(cfg, [], ps[..|ps| - 1]), ps[|ps| - 1]);
    }
  }

  // ----- the sums against the amount paid -----

  /** An attempt of a key that has succeeded, but with a later attempt. */
  predicate Superseded(l: seq<Event>, i: nat)
    requires i < |l|
  {
    l[i].status == Attempt && HasSucceeded(l, l[i].key) && Has(l[i + 1..], l[i].key, Attempt)
  }

  /** The amounts of the superseded attempts of the window, among the first n events. */
  function SupersededSum(l: seq<Event>, n: nat, w: Bucket): nat
    requires n <= |l|
  {
    if n == 0 then 0
    else SupersededSum(l, n - 1, w) + if Superseded(l, n - 1) && Within(l[n - 1].date, w) then l[n - 1].micros else 0
  }

  /** All attempts of one key in the window, among the first n events. */
  function AttemptsOf(l: seq<Event>, n: nat, key: string, w: Bucket): nat
    requires n <= |l|
  {
    if n == 0 then 0
    else
      AttemptsOf(l, n - 1, key, w)
      + if l[n - 1].status == Attempt && l[n - 1].key == key && Within(l[n - 1].date, w) then l[n - 1].micros else 0
  }

  predicate IsLastAttempt(l: seq<Event>, m: nat, key: string) {
    && m < |l| && l[m].key == key && l[m].status == Attempt
    && forall j | m < j < |l| :: !(l[j].key == key && l[j].status == Attempt)
  }

  lemma {:induction false} LastAttemptAt(l: seq<Event>, key: string) returns (m: nat)
    requires Has(l, key, Attempt)
    ensures IsLastAttempt(l, m, key) && LastAttempt(l, key) == Some(l[m])
  {
    m := |l| - 1;
    if !(l[m].key == key && l[m].status == Attempt) {
      var init := l[..m];
      m := LastAttemptAt(init, key);
    }
  }

  /** An event that is no success, of a key without success, supersedes nothing. */
  lemma {:induction false} OtherSupersedesNothing(l: seq<Event>, e: Event, n: nat, w: Bucket)
    requires n <= |l| && e.status != Success && !HasSucceeded(l, e.key)
    ensures SupersededSum(l + [e], n, w) == SupersededSum(l, n, w)
  {
    if n > 0 {
      OtherSupersedesNothing(l, e, n - 1, w);
      SucceededPlus(l, e, l[n - 1].key);
      HasLaterPlus(l, e, n - 1);
    }
  }

  /** One more event is a later attempt of its own key only, and only if it is one. */
  lemma HasLaterPlus(l: seq<Event>, e: Event, i: nat)
    requires i < |l|
    ensures Has((l + [e])[i + 1..], l[i].key, Attempt) <==>
              Has(l[i + 1..], l[i].key, Attempt) || (e.key == l[i].key && e.status == Attempt)
  {
    var rest := l[i + 1..];
    assert (l + [e])[i + 1..] == rest + [e];
    if Has(rest, l[i].key, Attempt) {
      var j :| 0 <= j < |rest| && rest[j].key == l[i].key && rest[j].status == Attempt;
      assert (rest + [e])[j] == rest[j];
    }
    assert (rest + [e])[|rest|] == e;
  }

  lemma SucceededPlus(l: seq<Event>, e: Event, key: string)
    ensures HasSucceeded(l + [e], key) <==> HasSucceeded(l, key) || (e.status == Success && e.key == key)
  {
    if HasSucceeded(l, key) {
      var i :| 0 <= i < |l| && l[i].key == key && l[i].status == Success;
      assert (l + [e])[i] == l[i];
    }
    assert (l + [e])[|l|] == e;
  }

  /** A success supersedes every attempt of its key but the last. */
  lemma {:induction false} SuccessSupersedes(l: seq<Event>, e: Event, m: nat, n: nat, w: Bucket)
    requires n <= |l| && e.status == Success && !HasSucceeded(l, e.key) && IsLastAttempt(l, m, e.key)
    ensures SupersededSum(l + [e], n, w) + (if m < n && Within(l[m].date, w) then l[m].micros else 0)
         == SupersededSum(l, n, w) + AttemptsOf(l, n, e.key, w)
  {
    if n > 0 {
      SuccessSupersedes(l, e, m, n - 1, w);
      SupersededBySuccess(l, e, m, n - 1);
    }
  }

  lemma SupersededBySuccess(l: seq<Event>, e: Event, m: nat, i: nat)
    requires i < |l| && e.status == Success && !HasSucceeded(l, e.key) && IsLastAttempt(l, m, e.key)
    ensures Superseded(l + [e], i) <==>
              if l[i].key == e.key then l[i].status == Attempt && i != m else Superseded(l, i)
    ensures l[i].key == e.key ==> !Superseded(l, i)
  {
    SucceededPlus(l, e, l[i].key);
    HasLaterPlus(l, e, i);
    if l[i].key == e.key && l[i].status == Attempt && i < m {
      assert l[i + 1..][m - i - 1] == l[m];
    }
  }

  /** A success adds all attempts of its key to the sum. */
  lemma {:induction false} SuccessAddsAttempts(l: seq<Event>, e: Event, n: nat, w: Bucket)
    requires n <= |l| && e.status == Success && !HasSucceeded(l, e.key)
    ensures SumOver(l[..n], l + [e], w) == SumOver(l[..n], l, w) + AttemptsOf(l, n, e.key, w)
  {
    if n > 0 {
      SuccessAddsAttempts(l, e, n - 1, w);
      assert l[..n][..n - 1] == l[..n - 1];
      SucceededPlus(l, e, l[n - 1].key);
    }
  }

  lemma {:induction false} OtherAddsNothing(l: seq<Event>, e: Event, n: nat, w: Bucket)
    requires n <= |l| && e.status != Success
    ensures SumOver(l[..n], l + [e], w) == SumOver(l[..n], l, w)
  {
    if n > 0 {
      OtherAddsNothing(l, e, n - 1, w);
      assert l[..n][..n - 1] == l[..n - 1];
      SucceededPlus(l, e, l[n - 1].key);
    }
  }

  lemma LastEvent(l: seq<Event>, e: Event, w: Bucket)
    requires e.status == Attempt ==> !HasSucceeded(l, e.key)
    ensures SumSuccessful(l + [e], w) == SumOver(l[..|l|], l + [e], w)
    ensures SupersededSum(l + [e], |l| + 1, w) == SupersededSum(l + [e], |l|, w)
  {
    SumPlus(l, e, l + [e], w);
    SucceededPlus(l, e, e.key);
    assert l[..|l|] == l;
  }

  /** One more event keeps the account balanced. */
  lemma EventKeepsAccount(l: seq<Event>, e: Event, w: Bucket)
    requires !HasSucceeded(l, e.key) && (e.status == Success ==> Has(l, e.key, Attempt))
    requires SumSuccessful(l, w) == Paid(l, w) + SupersededSum(l, |l|, w)
    ensures SumSuccessful(l + [e], w) == Paid(l + [e], w) + SupersededSum(l + [e], |l| + 1, w)
  {
    LastEvent(l, e, w);
    PaidPlus(l, e, w);
    assert l[..|l|] == l;
    if e.status == Success {
      var m := LastAttemptAt(l, e.key);
      SuccessSupersedes(l, e, m, |l|, w);
      SuccessAddsAttempts(l, e, |l|, w);
    } else {
      OtherSupersedesNothing(l, e, |l|, w);
      OtherAddsNothing(l, e, |l|, w);
    }
  }

  lemma {:induction false} AccountBalances(l: seq<Event>, w: Bucket)
    requires SuccessEnds(l) && SuccessIsAttempted(l)
    ensures SumSuccessful(l, w) == Paid(l, w) + SupersededSum(l, |l|, w)
  {
    if l != [] {
      var init, e := l[..|l| - 1], l[|l| - 1];
      assert l == init + [e];
      forall j | 0 <= j < |init| && init[j].status == Success
        ensures Has(init[..j], init[j].key, Attempt)
      {
        assert init[..j] == l[..j] && init[j] == l[j];
      }
      AccountBalances(init, w);
      EventKeepsAccount(init, e, w);
    }
  }

  /**
   Over every run the sum of a window is what was paid in it and the superseded attempts of succeeded keys; it is the
   amount paid exactly when these add up to nothing.
   */
  lemma SumIsPaidIff(cfg: Config, ps: seq<Payment>, w: Bucket)
    ensures var l := PayAll(cfg, [], ps);
            && SumSuccessful(l, w) == Paid(l, w) + SupersededSum(l, |l|, w)
            && (SumSuccessful(l, w) == Paid(l, w) <==>
                  forall i | 0 <= i < |l| && Superseded(l, i) && Within(l[i].date, w) :: l[i].micros == 0)
  {
    var l := PayAll(cfg, [], ps);
    RunsKeepEnds(cfg, ps);
    AccountBalances(l, w);
    NothingSuperseded(l, |l|, w);
  }

  lemma {:induction false} NothingSuperseded(l: seq<Event>, n: nat, w: Bucket)
    requires n <= |l|
    ensures SupersededSum(l, n, w) == 0 <==>
              forall i | 0 <= i < n && Superseded(l, i) && Within(l[i].date, w) :: l[i].micros == 0
  {
    if n > 0 {
      NothingSuperseded(l, n - 1, w);
    }
  }

  // ----- an unresolved payment -----

  /** The last the ledger knows of the key is an attempt: its payment may or may not have happened. */
  predicate Unresolved(l: seq<Event>, key: string) {
    exists i | 0 <= i < |l| :: EndsWithAttempt(l, i, key)
  }

  predicate EndsWithAttempt(l: seq<Event>, i: nat, key: string) {
    i < |l| && l[i].key == key && l[i].status == Attempt && forall j | i < j < |l| :: l[j].key != key
  }

  /** The checks that do not look at the key. */
  predicate Affordable(cfg: Config, l: seq<Event>, p: Payment) {
    && Usdc.IsDecimal(p.amount) && PaymentRefused(cfg, p).None?
    && !Exceeds(l, Bucket(Daily, p.dayCheck), Amount(p), cfg.dailyLimit)
    && !Exceeds(l, Bucket(Monthly, p.monthCheck), Amount(p), cfg.monthlyLimit)
  }

  lemma UnresolvedIsNotSucceeded(l: seq<Event>, key: string)
    requires SuccessEnds(l) && Unresolved(l, key)
    ensures !HasSucceeded(l, key) && Has(l, key, Attempt)
  {
    var i :| 0 <= i < |l| && EndsWithAttempt(l, i, key);
    assert forall j | i < j < |l| :: l[j].key != key;
    assert forall j | 0 <= j < i && l[j].status == Success :: l[i].key != l[j].key;
  }

  /**
   A payment whose outcome is unknown is left unresolved so that a retry does not pay again. In every run a retry of such
   a key reaches the wallet exactly when the key has failed before, and the payment passes the other checks; without a
   failure it is told that the payment is in progress.
   */
  lemma UnresolvedIsPaidAgainIff(cfg: Config, ps: seq<Payment>, q: Payment)
    requires Unresolved(PayAll(cfg, [], ps), q.key)
    ensures var l := PayAll(cfg, [], ps);
            && (Stopped(cfg, l, q) == None <==> Has(l, q.key, Failure) && Affordable(cfg, l, q))
            && (!Has(l, q.key, Failure) && Usdc.IsDecimal(q.amount) && PaymentRefused(cfg, q).None? ==>
                  Pay(cfg, l, q) == (l, PaymentInProgress))
  {
    var l := PayAll(cfg, [], ps);
    RunsKeepEnds(cfg, ps);
    UnresolvedIsNotSucceeded(l, q.key);
    StoppedByKeyOrChecks(cfg, l, q);
    assert HasPendingAttempt(l, q.key) <==> !Has(l, q.key, Failure);
  }

  /** What stops a payment is its key or one of the other checks. */
  lemma StoppedByKeyOrChecks(cfg: Config, l: seq<Event>, q: Payment)
    ensures Stopped(cfg, l, q) == None <==>
              !HasSucceeded(l, q.key) && !HasPendingAttempt(l, q.key) && Affordable(cfg, l, q)
    ensures HasPendingAttempt(l, q.key) && Usdc.IsDecimal(q.amount) && PaymentRefused(cfg, q).None? ==>
              Pay(cfg, l, q) == (l, PaymentInProgress)
  {
  }

  /** Events of another key do not end a pending attempt. */
  lemma OthersKeepPending(l: seq<Event>, more: seq<Event>, key: string)
    requires HasPendingAttempt(l, key) && forall j | 0 <= j < |more| :: more[j].key != key
    ensures HasPendingAttempt(l + more, key)
  {
    var i :| 0 <= i < |l| && l[i].key == key && l[i].status == Attempt;
    assert (l + more)[i] == l[i];
  }

  lemma PayKeepsPending(cfg: Config, l: seq<Event>, p: Payment, key: string)
    requires HasPendingAttempt(l, key)
    ensures HasPendingAttempt(Pay(cfg, l, p).0, key)
  {
    PayAppends(cfg, l, p);
    var more := Appended(AttemptOf(p), p.outcome, p.ended);
    if p.key != key {
      OthersKeepPending(l, more, key);
    }
  }

  lemma PayAppends(cfg: Config, l: seq<Event>, p: Payment)
    ensures Pay(cfg, l, p).0 == l
         || (!HasPendingAttempt(l, p.key) && Pay(cfg, l, p).0 == l + Appended(AttemptOf(p), p.outcome, p.ended))
  {
  }

  /** Without an earlier failure the key is blocked for good: whatever is paid later, no payment of it goes through. */
  lemma {:induction false} PendingForEver(cfg: Config, l: seq<Event>, ps: seq<Payment>, key: string)
    requires HasPendingAttempt(l, key)
    ensures HasPendingAttempt(PayAll(cfg, l, ps), key)
    ensures forall q: Payment | q.key == key :: Stopped(cfg, PayAll(cfg, l, ps), q).Some?
  {
    if ps != [] {
      PendingForEver(cfg, l, ps[..|ps| - 1], key);
      PayKeepsPending(cfg, PayAll(cfg, l, ps[..|ps| - 1]), ps[|ps| - 1], key);
    }
  }
}
