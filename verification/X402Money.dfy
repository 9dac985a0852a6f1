/** The money that really moves against what the ledger records, and payments that show where the two part. */
module X402Money {
  import opened Basics
  import opened Calendar
  import opened X402
  import opened X402Retries
  import Decimal
  import Usdc

  // ----- money moved -----

  /** This payment's money has left the wallet. */
  predicate Moves(outcome: Outcome) {
    match outcome
    case Settled => true
    case SettledUnstored => true
    case AlreadyPaid(moved) => moved
    case AlreadyPaidUnstored(moved) => moved
    case Unknown(moved) => moved
    case Rejected => false
  }

  predicate Recorded(outcome: Outcome) {
    Ending(outcome) == Some(Success)
  }

  /** The amount of a payment that reaches the wallet with its attempt in the window. */
  function Reaching(cfg: Config, l: seq<Event>, p: Payment, w: Bucket): nat {
    if Stopped(cfg, l, p) == None && Within(p.attempted, w) then Amount(p) else 0
  }

  /** The amounts, in the window, of the payments that reached the wallet and ended in one of these ways. */
  function Sum(cfg: Config, ps: seq<Payment>, counts: Outcome -> bool, w: Bucket): nat {
    if ps == [] then 0
    else
      var init, last := ps[..|ps| - 1], ps[|ps| - 1];
      Sum(cfg, init, counts, w) + if counts(last.outcome) then Reaching(cfg, PayAll(cfg, [], init), last, w) else 0
  }

  function Moved(cfg: Config, ps: seq<Payment>, w: Bucket): nat {
    Sum(cfg, ps, Moves, w)
  }

  /** Money that moved without a success event. */
  function Unrecorded(cfg: Config, ps: seq<Payment>, w: Bucket): nat {
    Sum(cfg, ps, o => Moves(o) && !Recorded(o), w)
  }

  /** Success events of payments that moved nothing, because the resource was paid before. */
  function Excused(cfg: Config, ps: seq<Payment>, w: Bucket): nat {
    Sum(cfg, ps, o => Recorded(o) && !Moves(o), w)
  }

  lemma PayPaid(cfg: Config, l: seq<Event>, p: Payment, w: Bucket)
    ensures Paid(Pay(cfg, l, p).0, w) == Paid(l, w) + if Recorded(p.outcome) then Reaching(cfg, l, p, w) else 0
  {
    if Stopped(cfg, l, p) == None {
      AppendedStep(l, AttemptOf(p), p.outcome, p.ended, w);
    }
  }

  /** Over every run: what moved is what the ledger has as paid, and what it missed, less what it has without a move. */
  lemma {:induction false} MovedAgainstPaid(cfg: Config, ps: seq<Payment>, w: Bucket)
    ensures Moved(cfg, ps, w) + Excused(cfg, ps, w) == Paid(PayAll(cfg, [], ps), w) + Unrecorded(cfg, ps, w)
  {
    if ps != [] {
      var init, last := ps[..|ps| - 1], ps[|ps| - 1];
      MovedAgainstPaid(cfg, init, w);
      PayPaid(cfg, PayAll(cfg, [], init), last, w);
    }
  }

  /** What moved in a day or month is within its limit but for the money the ledger missed. */
  lemma MovedIsLimited(cfg: Config, ps: seq<Payment>, w: Bucket)
    requires InSequence(ps)
    ensures Moved(cfg, ps, w) > Unrecorded(cfg, ps, w) ==>
              Limit(cfg, w).Some? && Moved(cfg, ps, w) <= Limit(cfg, w).value + Unrecorded(cfg, ps, w)
  {
    MovedAgainstPaid(cfg, ps, w);
    LimitsHold(cfg, ps, w);
  }

  // ----- what the events of a run say about its payments -----

  predicate Any(outcome: Outcome) {
    true
  }

  predicate Fails(outcome: Outcome) {
    Ending(outcome) == Some(Failure)
  }

  /** Some payment of the key reached the wallet and ended in one of these ways. */
  predicate SomeReached(cfg: Config, ps: seq<Payment>, key: string, counts: Outcome -> bool) {
    ps != []
    && var init, last := ps[..|ps| - 1], ps[|ps| - 1];
       || SomeReached(cfg, init, key, counts)
       || (last.key == key && counts(last.outcome) && Stopped(cfg, PayAll(cfg, [], init), last) == None)
  }

  lemma HasPlus(l: seq<Event>, more: seq<Event>, key: string, status: Status)
    ensures Has(l + more, key, status) <==> Has(l, key, status) || Has(more, key, status)
  {
    if Has(l, key, status) {
      var i :| 0 <= i < |l| && l[i].key == key && l[i].status == status;
      assert (l + more)[i] == l[i];
    }
    if Has(more, key, status) {
      var i :| 0 <= i < |more| && more[i].key == key && more[i].status == status;
      assert (l + more)[|l| + i] == more[i];
    }
  }

  lemma AppendedHas(attempt: Event, outcome: Outcome, ended: Date, key: string, status: Status)
    requires attempt.status == Attempt
    ensures Has(Appended(attempt, outcome, ended), key, status) <==>
              attempt.key == key && (status == Attempt || Ending(outcome) == Some(status))
  {
    var more := Appended(attempt, outcome, ended);
    assert more[0] == attempt;
    assert Ending(outcome).Some? ==> more[1] == Event(attempt.key, Ending(outcome).value, 0, ended);
  }

  /** A payment adds an event of this kind exactly when it reaches the wallet and ends so. */
  lemma PayHas(cfg: Config, l: seq<Event>, p: Payment, key: string, status: Status)
    ensures Has(Pay(cfg, l, p).0, key, status) <==>
              || Has(l, key, status)
              || (p.key == key && Stopped(cfg, l, p) == None && (status == Attempt || Ending(p.outcome) == Some(status)))
  {
    if Stopped(cfg, l, p) == None {
      HasPlus(l, Appended(AttemptOf(p), p.outcome, p.ended), key, status);
      AppendedHas(AttemptOf(p), p.outcome, p.ended, key, status);
    }
  }

  /** The ledger holds an event exactly when a payment of the run made it. */
  lemma {:induction false} EventsComeFromPayments(cfg: Config, ps: seq<Payment>, key: string)
    ensures var l := PayAll(cfg, [], ps);
            && (Has(l, key, Attempt) <==> SomeReached(cfg, ps, key, Any))
            && (Has(l, key, Success) <==> SomeReached(cfg, ps, key, Recorded))
            && (Has(l, key, Failure) <==> SomeReached(cfg, ps, key, Fails))
  {
    if ps != [] {
      var init, last := ps[..|ps| - 1], ps[|ps| - 1];
      var l := PayAll(cfg, [], init);
      EventsComeFromPayments(cfg, init, key);
      PayHas(cfg, l, last, key, Attempt);
      PayHas(cfg, l, last, key, Success);
      PayHas(cfg, l, last, key, Failure);
    }
  }

  /**
   Once a payment of a key has reached the wallet, whether or not its money moved, another payment of the key reaches it
   exactly when some payment of the key ended as a failure, none as a success, and the other checks pass. A settled
   payment whose receipt could not be stored ends as a failure, so its key is paid again.
   */
  lemma PaidAgainIff(cfg: Config, ps: seq<Payment>, q: Payment)
    requires SomeReached(cfg, ps, q.key, Any)
    ensures Stopped(cfg, PayAll(cfg, [], ps), q) == None <==>
              && SomeReached(cfg, ps, q.key, Fails)
              && !SomeReached(cfg, ps, q.key, Recorded)
              && Affordable(cfg, PayAll(cfg, [], ps), q)
  {
    EventsComeFromPayments(cfg, ps, q.key);
    StoppedByKeyOrChecks(cfg, PayAll(cfg, [], ps), q);
  }

  // ----- payments that show it -----

  const LIMITS: Config := Config(true, "wallet", [], "1", "1", "1", 5, "1")

  const TODAY: Date := Date(2024, 1, 1)

  /** One USDC under one key, on one day. */
  function One(outcome: Outcome): Payment {
    Payment("key", "host", "1", outcome, TODAY, TODAY, TODAY, TODAY)
  }

  const A: Event := Event("key", Attempt, 1_000_000, TODAY)
  const F: Event := Event("key", Failure, 0, TODAY)
  const S: Event := Event("key", Success, 0, TODAY)

  lemma OneUsdc()
    ensures Usdc.IsDecimal("1") && Micros("1") == Some(1_000_000)
  {
    var one := "1";
    assert Usdc.FirstDot(one[1..]) == 0 && Usdc.FirstDot(one) == 1;
    assert one[..1] == one && one[..0] == "";
    assert Usdc.Whole(one) == one && Usdc.Fraction(one) == "";
    assert Decimal.Value(one) == 1;
    Decimal.ValueZeros(6);
    assert Usdc.Fraction(one) + "000000" == Decimal.Zeros(6) == Decimal.Zeros(6)[..6];
  }

  lemma {:induction false} NoSuccessNoSum(part: seq<Event>, whole: seq<Event>, w: Bucket)
    requires forall i | 0 <= i < |whole| :: whole[i].status != Success
    ensures SumOver(part, whole, w) == 0
  {
    if part != [] {
      NoSuccessNoSum(part[..|part| - 1], whole, w);
    }
  }

  lemma Affords(l: seq<Event>, outcome: Outcome)
    requires forall i | 0 <= i < |l| :: l[i].status != Success
    ensures Affordable(LIMITS, l, One(outcome)) && AttemptOf(One(outcome)) == A
  {
    OneUsdc();
    NoSuccessNoSum(l, l, Bucket(Daily, TODAY));
    NoSuccessNoSum(l, l, Bucket(Monthly, TODAY));
  }

  /** Without any success the payment goes through when it is the first, or when one has failed. */
  lemma GoesThrough(l: seq<Event>, outcome: Outcome)
    requires forall i | 0 <= i < |l| :: l[i].status != Success
    requires l == [] || Has(l, "key", Failure)
    ensures Stopped(LIMITS, l, One(outcome)) == None
    ensures Pay(LIMITS, l, One(outcome)).0 == l + Appended(A, outcome, TODAY)
  {
    Affords(l, outcome);
    StoppedByKeyOrChecks(LIMITS, l, One(outcome));
  }

  lemma AfterFailure(failed: Outcome)
    requires Fails(failed)
    ensures PayAll(LIMITS, [], [One(failed)]) == [A, F] && Has([A, F], "key", Failure)
  {
    GoesThrough([], failed);
    assert [One(failed)][..0] == [];
    assert [] + Appended(A, failed, TODAY) == [A, F];
    assert [A, F][1] == F;
  }

  lemma AfterTwo(failed: Outcome, second: Outcome)
    requires Fails(failed)
    ensures var ps := [One(failed), One(second)];
            && ps[..1] == [One(failed)] && Stopped(LIMITS, PayAll(LIMITS, [], ps[..1]), ps[1]) == None
            && PayAll(LIMITS, [], ps) == [A, F] + Appended(A, second, TODAY)
  {
    AfterFailure(failed);
    GoesThrough([A, F], second);
    assert [One(failed), One(second)][..1] == [One(failed)];
  }

  /**
   A retry that may pay again: after a failure, a payment of the key times out, its money gone; the ledger has it as
   unresolved, and yet the next payment of the key reaches the wallet.
   */
  lemma UnresolvedIsPaidAgain()
    ensures var l := PayAll(LIMITS, [], [One(Rejected), One(Unknown(true))]);
            Unresolved(l, "key") && Stopped(LIMITS, l, One(Settled)) == None
  {
    AfterTwo(Rejected, Unknown(true));
    var l := [A, F] + [A];
    assert l[1] == F && EndsWithAttempt(l, 2, "key");
    GoesThrough(l, Settled);
  }

  /** Sums that are not what was paid: a failed and a settled payment of one key count as two. */
  lemma SumIsNotPaid()
    ensures var l := PayAll(LIMITS, [], [One(Rejected), One(Settled)]);
            && Paid(l, Bucket(Daily, TODAY)) == 1_000_000
            && SumSuccessful(l, Bucket(Daily, TODAY)) == 2_000_000
  {
    AfterTwo(Rejected, Settled);
    EventsOfTwo(A, F, A, S, Bucket(Daily, TODAY));
    assert [A, F] + ([A] + [S]) == [A, F, A, S];
  }

  /**
   Money that moved twice under one key, and past the limit: the receipt of a settled payment cannot be stored, the
   ledger has it as failed, and the next payment settles as well.
   */
  lemma PaidTwice()
    ensures var ps := [One(SettledUnstored), One(Settled)];
            && Moved(LIMITS, ps, Bucket(Daily, TODAY)) == 2_000_000
            && Limit(LIMITS, Bucket(Daily, TODAY)) == Some(1_000_000)
  {
    var w := Bucket(Daily, TODAY);
    var ps := [One(SettledUnstored), One(Settled)];
    AfterTwo(SettledUnstored, Settled);
    OneUsdc();
    GoesThrough([], SettledUnstored);
    assert [One(SettledUnstored)][..0] == [];
    assert Moved(LIMITS, [One(SettledUnstored)], w) == 1_000_000;
    assert Moved(LIMITS, ps, w) == Moved(LIMITS, ps[..1], w) + 1_000_000;
  }
}
