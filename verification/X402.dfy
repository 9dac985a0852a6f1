/**
 x402 payments: the event-sourced spending ledger, the limits computed from it, and payX402, for payments that follow
 one another. A payment's dates are parameters: when each limit is checked, and when each event is recorded.
 */
module X402 {
  import opened Basics
  import opened Calendar
  import Usdc

  // ----- the ledger -----

  datatype Status = Attempt | Success | Failure

  datatype Event = Event(key: string, status: Status, micros: nat, date: Date)

  /** A dayBucket or a monthBucket: the UTC day, or month, of a date. */
  datatype Bucket = Bucket(window: Window, at: Date)

  predicate Within(d: Date, b: Bucket) {
    InWindow(b.window, d, b.at)
  }

  predicate Has(l: seq<Event>, key: string, status: Status) {
    exists i | 0 <= i < |l| :: l[i].key == key && l[i].status == status
  }

  predicate HasSucceeded(l: seq<Event>, key: string) {
    Has(l, key, Success)
  }

  predicate HasPendingAttempt(l: seq<Event>, key: string) {
    Has(l, key, Attempt) && !Has(l, key, Success) && !Has(l, key, Failure)
  }

  /** The reduce of the sums: attempts in the window whose key has succeeded anywhere in the whole ledger. */
  function SumOver(part: seq<Event>, whole: seq<Event>, w: Bucket): nat {
    if part == [] then 0
    else
      var e := part[|part| - 1];
      SumOver(part[..|part| - 1], whole, w)
      + if e.status == Attempt && HasSucceeded(whole, e.key) && Within(e.date, w) then e.micros else 0
  }

  /** sumSuccessfulByDay and sumSuccessfulByMonth. */
  function SumSuccessful(l: seq<Event>, w: Bucket): nat {
    SumOver(l, l, w)
  }

  class SpendingLedger {
    var records: seq<Event>

    constructor ()
      ensures records == []
    {
      records := [];
    }

    method RecordAttempt(key: string, micros: nat, now: Date)
      modifies this
      ensures records == old(records) + [Event(key, Attempt, micros, now)]
    {
      records := records + [Event(key, Attempt, micros, now)];
    }

    method RecordSuccess(key: string, now: Date)
      modifies this
      ensures records == old(records) + [Event(key, Success, 0, now)]
    {
      records := records + [Event(key, Success, 0, now)];
    }

    method RecordFailure(key: string, now: Date)
      modifies this
      ensures records == old(records) + [Event(key, Failure, 0, now)]
    {
      records := records + [Event(key, Failure, 0, now)];
    }
  }

  // ----- paying -----

  datatype Config = Config(
    paymentEnabled: bool, wallet: string, allowedHosts: seq<string>,
    perTxLimit: string, dailyLimit: string, monthlyLimit: string, batchMaxItems: nat, batchMaxTotal: string)

  /**
   How the wallet's payment ends. AlreadyPaid is an HTTP 409 that says so, Unknown a broker timeout or abort; after either
   this payment may have moved money or not. In the last two storing the receipt throws, after a settled payment and
   after a 409.
   */
  datatype Outcome =
    | Settled
    | AlreadyPaid(moved: bool)
    | Rejected
    | Unknown(moved: bool)
    | SettledUnstored
    | AlreadyPaidUnstored(moved: bool)

  datatype Payment = Payment(
    key: string, host: string, amount: string, outcome: Outcome,
    dayCheck: Date, monthCheck: Date, attempted: Date, ended: Date)

  datatype Answer =
    | InvalidAmount | PaymentDisabled | WalletMissing | HostNotAllowed | PerTxLimitExceeded
    | AlreadyCompleted | PaymentInProgress | DailyLimitExceeded | MonthlyLimitExceeded
    | Completed | Failed | StateUnknown

  function Micros(amount: string): Option<nat> {
    match Usdc.DecimalToMicros(amount)
    case Ok(n) => Some(n)
    case Err(_) => None
  }

  function Amount(p: Payment): nat {
    if Micros(p.amount).Some? then Micros(p.amount).value else 0
  }

  predicate HostAllowed(hosts: seq<string>, host: string) {
    hosts == [] || "*" in hosts || host in hosts
  }

  /** assertX402PaymentAllowed, for an amount the request schema accepts; None is "allowed". */
  function PaymentRefused(cfg: Config, p: Payment): Option<Answer> {
    if !cfg.paymentEnabled then Some(PaymentDisabled)
    else if cfg.wallet == "" then Some(WalletMissing)
    else if !HostAllowed(cfg.allowedHosts, p.host) then Some(HostNotAllowed)
    else if Micros(p.amount).None? || Micros(cfg.perTxLimit).None? then Some(InvalidAmount)
    else if Micros(p.amount).value > Micros(cfg.perTxLimit).value then Some(PerTxLimitExceeded)
    else None
  }

  /** assertDailyLimit and assertMonthlyLimit; a configured limit that does not parse refuses too. */
  predicate Exceeds(l: seq<Event>, w: Bucket, additional: nat, limit: string) {
    !AtMost(SumSuccessful(l, w) + additional, limit)
  }

  /** What stops a payment before it is attempted, if anything. */
  function Stopped(cfg: Config, l: seq<Event>, p: Payment): Option<Answer> {
    if !Usdc.IsDecimal(p.amount) then Some(InvalidAmount)
    else if PaymentRefused(cfg, p).Some? then PaymentRefused(cfg, p)
    else if HasSucceeded(l, p.key) then Some(AlreadyCompleted)
    else if HasPendingAttempt(l, p.key) then Some(PaymentInProgress)
    else if Exceeds(l, Bucket(Daily, p.dayCheck), Amount(p), cfg.dailyLimit) then Some(DailyLimitExceeded)
    else if Exceeds(l, Bucket(Monthly, p.monthCheck), Amount(p), cfg.monthlyLimit) then Some(MonthlyLimitExceeded)
    else None
  }

  /** What the ledger records after the attempt: an error that is neither a timeout nor a 409 counts as a failure. */
  function Ending(outcome: Outcome): Option<Status> {
    match outcome
    case Settled => Some(Success)
    case AlreadyPaid(_) => Some(Success)
    case Rejected => Some(Failure)
    case SettledUnstored => Some(Failure)
    case Unknown(_) => None
    case AlreadyPaidUnstored(_) => None
  }

  /** The events an attempt and its outcome append. */
  function Appended(attempt: Event, outcome: Outcome, ended: Date): seq<Event> {
    match Ending(outcome)
    case Some(status) => [attempt] + [Event(attempt.key, status, 0, ended)]
    case None => [attempt]
  }

  /** Failed is any error but a timeout, thrown on to the caller. */
  function AnswerTo(outcome: Outcome): Answer {
    match outcome
    case Settled => Completed
    case AlreadyPaid(_) => Completed
    case Unknown(_) => StateUnknown
    case _ => Failed
  }

  function AttemptOf(p: Payment): Event {
    Event(p.key, Attempt, Amount(p), p.attempted)
  }

  /** payX402 on the ledger. */
  function Pay(cfg: Config, l: seq<Event>, p: Payment): (seq<Event>, Answer) {
    match Stopped(cfg, l, p)
    case Some(answer) => (l, answer)
    case None => (l + Appended(AttemptOf(p), p.outcome, p.ended), AnswerTo(p.outcome))
  }

  function PayAll(cfg: Config, l: seq<Event>, ps: seq<Payment>): seq<Event> {
    if ps == [] then l else Pay(cfg, PayAll(cfg, l, ps[..|ps| - 1]), ps[|ps| - 1]).0
  }

  class PaymentService {
    const config: Config
    const ledger: SpendingLedger

    constructor (config: Config, ledger: SpendingLedger)
      ensures this.config == config && this.ledger == ledger
    {
      this.config, this.ledger := config, ledger;
    }

    method PayX402(p: Payment) returns (answer: Answer)
      modifies ledger
      ensures (ledger.records, answer) == Pay(config, old(ledger.records), p)
    {
      if !Usdc.IsDecimal(p.amount) {
        return InvalidAmount;
      }
      var refusal := PaymentRefused(config, p);
      if refusal.Some? {
        return refusal.value;
      }
      if HasSucceeded(ledger.records, p.key) {
        return AlreadyCompleted;
      }
      if HasPendingAttempt(ledger.records, p.key) {
        return PaymentInProgress;
      }
      var amount := Amount(p);
      if Exceeds(ledger.records, Bucket(Daily, p.dayCheck), amount, config.dailyLimit) {
        return DailyLimitExceeded;
      }
      if Exceeds(ledger.records, Bucket(Monthly, p.monthCheck), amount, config.monthlyLimit) {
        return MonthlyLimitExceeded;
      }
      answer := PayService(p);
    }

    /** From recordAttempt on: the wallet is called, and what came of it recorded. */
    method PayService(p: Payment) returns (answer: Answer)
      modifies ledger
      ensures ledger.records == old(ledger.records) + Appended(AttemptOf(p), p.outcome, p.ended)
      ensures answer == AnswerTo(p.outcome)
    {
      ghost var was := ledger.records;
      ledger.RecordAttempt(p.key, Amount(p), p.attempted);
      match p.outcome {
        case Settled =>
          ledger.RecordSuccess(p.key, p.ended);
          answer := Completed;
        case AlreadyPaid(_) =>
          ledger.RecordSuccess(p.key, p.ended);
          answer := Completed;
        case Rejected =>
          ledger.RecordFailure(p.key, p.ended);
          answer := Failed;
        case SettledUnstored =>
          ledger.RecordFailure(p.key, p.ended);
          answer := Failed;
        case Unknown(_) =>
          answer := StateUnknown;
        case AlreadyPaidUnstored(_) =>
          answer := Failed;
      }
      assert Ending(p.outcome).Some? ==>
          ledger.records == was + [AttemptOf(p)] + [Event(p.key, Ending(p.outcome).value, 0, p.ended)];
    }

    /** The loop of assertBatchAllowed: None when some payment is refused, else the total. */
    method BatchTotal(ps: seq<Payment>) returns (r: Option<nat>)
      ensures r == if AllAllowed(config, ps) then Some(Total(ps)) else None
    {
      var total := 0;
      for i := 0 to |ps|
        invariant AllAllowed(config, ps[..i])
        invariant total == Total(ps[..i])
      {
        BatchStep(config, ps, i);
        if !Allowed(config, ps[i]) {
          return None;
        }
        total := total + Amount(ps[i]);
      }
      assert ps[..|ps|] == ps;
      return Some(total);
    }

    /** assertBatchAllowed: at most so many payments, each allowed by itself, and their total within the batch limit. */
    method BatchAllowed(ps: seq<Payment>) returns (ok: bool)
      ensures ok <==> |ps| <= config.batchMaxItems && AllAllowed(config, ps) && AtMost(Total(ps), config.batchMaxTotal)
    {
      if |ps| > config.batchMaxItems {
        return false;
      }
      var total := BatchTotal(ps);
      return total.Some? && AtMost(total.value, config.batchMaxTotal);
    }
  }

  predicate Allowed(cfg: Config, p: Payment) {
    PaymentRefused(cfg, p) == None
  }

  predicate AllAllowed(cfg: Config, ps: seq<Payment>) {
    forall i | 0 <= i < |ps| :: Allowed(cfg, ps[i])
  }

  lemma BatchStep(cfg: Config, ps: seq<Payment>, i: nat)
    requires i < |ps|
    ensures Total(ps[..i + 1]) == Total(ps[..i]) + Amount(ps[i])
    ensures AllAllowed(cfg, ps[..i + 1]) <==> AllAllowed(cfg, ps[..i]) && Allowed(cfg, ps[i])
    ensures AllAllowed(cfg, ps) ==> Allowed(cfg, ps[i])
  {
    assert ps[..i + 1][..i] == ps[..i];
    assert ps[..i + 1] == ps[..i] + [ps[i]];
  }

  predicate AtMost(micros: nat, limit: string) {
    Micros(limit).Some? && micros <= Micros(limit).value
  }

  function Total(ps: seq<Payment>): nat {
    if ps == [] then 0
    else Total(ps[..|ps| - 1]) + Amount(ps[|ps| - 1])
  }

  // ----- what was actually paid -----

  /** The attempt a success event settles: the last one of its key before it. */
  function LastAttempt(l: seq<Event>, key: string): Option<Event> {
    if l == [] then None
    else if l[|l| - 1].key == key && l[|l| - 1].status == Attempt then Some(l[|l| - 1])
    else LastAttempt(l[..|l| - 1], key)
  }

  /** The amounts of the attempts that succeeded, by the date of the attempt. */
  function Paid(l: seq<Event>, w: Bucket): nat {
    if l == [] then 0
    else
      var init, e := l[..|l| - 1], l[|l| - 1];
      var a := LastAttempt(init, e.key);
      Paid(init, w) + if e.status == Success && a.Some? && Within(a.value.date, w) then a.value.micros else 0
  }

  function Limit(cfg: Config, w: Bucket): Option<nat> {
    Micros(if w.window == Daily then cfg.dailyLimit else cfg.monthlyLimit)
  }

  ghost predicate OneSuccessPerKey(l: seq<Event>) {
    forall i, j | 0 <= i < j < |l| && l[i].status == Success && l[j].status == Success :: l[i].key != l[j].key
  }

  /** A growing ledger only adds to the sum over a fixed part. */
  lemma {:induction false} SumGrows(part: seq<Event>, l: seq<Event>, more: seq<Event>, w: Bucket)
    ensures SumOver(part, l, w) <= SumOver(part, l + more, w)
  {
    if part != [] {
      SumGrows(part[..|part| - 1], l, more, w);
      var key := part[|part| - 1].key;
      if HasSucceeded(l, key) {
        var i :| 0 <= i < |l| && l[i].key == key && l[i].status == Success;
        assert (l + more)[i] == l[i];
      }
    }
  }

  lemma SumPlus(part: seq<Event>, e: Event, whole: seq<Event>, w: Bucket)
    ensures SumOver(part + [e], whole, w) == SumOver(part, whole, w)
              + if e.status == Attempt && HasSucceeded(whole, e.key) && Within(e.date, w) then e.micros else 0
  {
    assert (part + [e])[..|part|] == part;
  }

  lemma PaidPlus(l: seq<Event>, e: Event, w: Bucket)
    ensures var a := LastAttempt(l, e.key);
            Paid(l + [e], w) == Paid(l, w) + if e.status == Success && a.Some? && Within(a.value.date, w) then a.value.micros else 0
    ensures e.status == Attempt ==> LastAttempt(l + [e], e.key) == Some(e)
  {
    assert (l + [e])[..|l|] == l;
  }

  /** A settled payment adds its amount to what was paid, and at least that much to the sum the limits use. */
  lemma SettledStep(l: seq<Event>, attempt: Event, success: Event, w: Bucket)
    requires attempt.status == Attempt && success.status == Success && attempt.key == success.key
    ensures var l' := l + [attempt] + [success];
            var gain := if Within(attempt.date, w) then attempt.micros else 0;
            Paid(l', w) == Paid(l, w) + gain && SumSuccessful(l', w) >= SumSuccessful(l, w) + gain
  {
    var l' := l + [attempt] + [success];
    PaidPlus(l, attempt, w);
    PaidPlus(l + [attempt], success, w);
    assert l' == l + [attempt, success];
    assert l'[|l'| - 1] == success;
    SumGrows(l, l, [attempt, success], w);
    SumPlus(l, attempt, l', w);
    SumPlus(l + [attempt], success, l', w);
  }

  /** An attempt without success changes nothing paid, and never lowers the sum. */
  lemma UnsettledStep(l: seq<Event>, e: Event, w: Bucket)
    requires e.status != Success
    ensures Paid(l + [e], w) == Paid(l, w) && SumSuccessful(l + [e], w) >= SumSuccessful(l, w)
  {
    PaidPlus(l, e, w);
    SumGrows(l, l, [e], w);
    SumPlus(l, e, l + [e], w);
  }

  lemma OneMoreSuccess(l: seq<Event>, e: Event)
    requires OneSuccessPerKey(l) && (e.status == Success ==> !HasSucceeded(l, e.key))
    ensures OneSuccessPerKey(l + [e])
  {
  }

  lemma PayKeepsOneSuccess(cfg: Config, l: seq<Event>, p: Payment)
    requires OneSuccessPerKey(l)
    ensures OneSuccessPerKey(Pay(cfg, l, p).0)
  {
    if Stopped(cfg, l, p) == None {
      WithinWhenNotStopped(cfg, l, p);
      AppendedKeepsOneSuccess(l, AttemptOf(p), p.outcome, p.ended);
    }
  }

  lemma AppendedKeepsOneSuccess(l: seq<Event>, attempt: Event, outcome: Outcome, ended: Date)
    requires OneSuccessPerKey(l) && attempt.status == Attempt && !HasSucceeded(l, attempt.key)
    ensures OneSuccessPerKey(l + Appended(attempt, outcome, ended))
  {
    OneMoreSuccess(l, attempt);
    if Ending(outcome).Some? {
      var last := Event(attempt.key, Ending(outcome).value, 0, ended);
      assert !HasSucceeded(l + [attempt], attempt.key);
      OneMoreSuccess(l + [attempt], last);
      assert l + Appended(attempt, outcome, ended) == l + [attempt] + [last];
    }
  }

  /** What a payment that ends so adds to the amount paid in a bucket. */
  function Gain(attempt: Event, outcome: Outcome, w: Bucket): nat {
    if Ending(outcome) == Some(Success) && Within(attempt.date, w) then attempt.micros else 0
  }

  lemma AppendedStep(l: seq<Event>, attempt: Event, outcome: Outcome, ended: Date, w: Bucket)
    requires attempt.status == Attempt
    ensures var l' := l + Appended(attempt, outcome, ended);
            && Paid(l', w) == Paid(l, w) + Gain(attempt, outcome, w)
            && SumSuccessful(l', w) >= SumSuccessful(l, w) + Gain(attempt, outcome, w)
  {
    match Ending(outcome)
    case None => UnsettledStep(l, attempt, w);
    case Some(status) =>
      var last := Event(attempt.key, status, 0, ended);
      EndedStep(l, attempt, last, w);
      assert l + Appended(attempt, outcome, ended) == l + [attempt] + [last];
  }

  lemma EndedStep(l: seq<Event>, attempt: Event, last: Event, w: Bucket)
    requires attempt.status == Attempt && last.status != Attempt && last.key == attempt.key
    ensures var l' := l + [attempt] + [last];
            var gain := if last.status == Success && Within(attempt.date, w) then attempt.micros else 0;
            Paid(l', w) == Paid(l, w) + gain && SumSuccessful(l', w) >= SumSuccessful(l, w) + gain
  {
    if last.status == Success {
      SettledStep(l, attempt, last, w);
    } else {
      UnsettledStep(l, attempt, w);
      UnsettledStep(l + [attempt], last, w);
    }
  }

  /** The readings of one payment are taken in this order. */
  predicate Forward(p: Payment) {
    NotAfter(p.dayCheck, p.monthCheck) && NotAfter(p.monthCheck, p.attempted) && NotAfter(p.attempted, p.ended)
  }

  /** Each payment is finished before the next one starts, and the clock does not run backwards. */
  predicate InSequence(ps: seq<Payment>) {
    && (forall i | 0 <= i < |ps| :: Forward(ps[i]))
    && forall i | 0 <= i < |ps| - 1 :: NotAfter(ps[i].ended, ps[i + 1].dayCheck)
  }

  /** No attempt is dated after the reading. */
  ghost predicate AttemptsUpTo(l: seq<Event>, now: Date) {
    forall i | 0 <= i < |l| && l[i].status == Attempt :: NotAfter(l[i].date, now)
  }

  lemma {:induction false} LastAttemptIsOne(l: seq<Event>, key: string)
    ensures LastAttempt(l, key).Some? ==> LastAttempt(l, key).value.status == Attempt && LastAttempt(l, key).value in l
  {
    if l != [] {
      LastAttemptIsOne(l[..|l| - 1], key);
    }
  }

  lemma {:induction false} NothingPaidElsewhere(l: seq<Event>, w: Bucket)
    requires forall i | 0 <= i < |l| && l[i].status == Attempt :: !Within(l[i].date, w)
    ensures Paid(l, w) == 0
  {
    if l != [] {
      NothingPaidElsewhere(l[..|l| - 1], w);
      LastAttemptIsOne(l[..|l| - 1], l[|l| - 1].key);
    }
  }

  /** A bucket the clock has entered only since the check holds nothing paid yet. */
  lemma NewBucketIsUnpaid(l: seq<Event>, check: Date, now: Date, w: Bucket)
    requires AttemptsUpTo(l, check) && NotAfter(check, now) && Within(now, w) && !Within(check, w)
    ensures Paid(l, w) == 0
  {
    forall i | 0 <= i < |l| && l[i].status == Attempt
      ensures !Within(l[i].date, w)
    {
      NewWindowIsEmpty(w.window, l[i].date, check, now, w.at);
    }
    NothingPaidElsewhere(l, w);
  }

  lemma {:induction false} SumOfSameBucket(part: seq<Event>, whole: seq<Event>, w: Bucket, v: Bucket)
    requires w.window == v.window && Within(w.at, v)
    ensures SumOver(part, whole, w) == SumOver(part, whole, v)
  {
    if part != [] {
      SumOfSameBucket(part[..|part| - 1], whole, w, v);
    }
  }

  /** What the check of this kind of window has bounded. */
  function CheckOf(p: Payment, w: Bucket): Date {
    if w.window == Daily then p.dayCheck else p.monthCheck
  }

  lemma PayKeepsSums(cfg: Config, l: seq<Event>, p: Payment, w: Bucket)
    requires Paid(l, w) <= SumSuccessful(l, w)
    ensures Paid(Pay(cfg, l, p).0, w) <= SumSuccessful(Pay(cfg, l, p).0, w)
  {
    if Stopped(cfg, l, p) == None {
      AppendedStep(l, AttemptOf(p), p.outcome, p.ended, w);
    }
  }

  /**
   What was paid in the bucket that an attempt falls into, before it, is within what its check has seen: the check saw
   that bucket, or the clock has entered the bucket since and nothing is paid in it.
   */
  lemma CheckSawPaid(l: seq<Event>, p: Payment, w: Bucket)
    requires Paid(l, w) <= SumSuccessful(l, w) && Forward(p) && AttemptsUpTo(l, p.dayCheck) && Within(p.attempted, w)
    ensures Paid(l, w) == 0 || SumSuccessful(l, w) == SumSuccessful(l, Bucket(w.window, CheckOf(p, w)))
  {
    var check := CheckOf(p, w);
    if Within(check, w) {
      SumOfSameBucket(l, l, Bucket(w.window, check), w);
    } else {
      AttemptsStayUpTo(l, p.dayCheck, check);
      NotAfterIsOrder(p.dayCheck, p.monthCheck, p.attempted);
      NewBucketIsUnpaid(l, check, p.attempted, w);
    }
  }

  /** A payment raises what was paid in a bucket at most to its limit, whether or not it crosses into the bucket. */
  lemma PayKeepsLimit(cfg: Config, l: seq<Event>, p: Payment, w: Bucket)
    requires Paid(l, w) <= SumSuccessful(l, w) && Forward(p) && AttemptsUpTo(l, p.dayCheck)
    ensures Paid(Pay(cfg, l, p).0, w) > Paid(l, w) ==>
              Limit(cfg, w).Some? && Paid(Pay(cfg, l, p).0, w) <= Limit(cfg, w).value
  {
    if Stopped(cfg, l, p) == None {
      CheckBounds(cfg, l, p, w);
      AppendedStep(l, AttemptOf(p), p.outcome, p.ended, w);
      if Within(p.attempted, w) {
        CheckSawPaid(l, p, w);
      }
    }
  }

  lemma AttemptsStayUpTo(l: seq<Event>, now: Date, later: Date)
    requires AttemptsUpTo(l, now) && NotAfter(now, later)
    ensures AttemptsUpTo(l, later)
  {
    forall i | 0 <= i < |l| && l[i].status == Attempt
      ensures NotAfter(l[i].date, later)
    {
      NotAfterIsOrder(l[i].date, now, later);
    }
  }

  /** A payment that is not stopped has passed the limit of its own bucket of this kind. */
  lemma CheckBounds(cfg: Config, l: seq<Event>, p: Payment, w: Bucket)
    requires Stopped(cfg, l, p) == None
    ensures Limit(cfg, w).Some?
    ensures SumSuccessful(l, Bucket(w.window, CheckOf(p, w))) + Amount(p) <= Limit(cfg, w).value
  {
    WithinWhenNotStopped(cfg, l, p);
  }

  lemma PayKeepsDates(cfg: Config, l: seq<Event>, p: Payment)
    requires Forward(p) && AttemptsUpTo(l, p.dayCheck)
    ensures AttemptsUpTo(Pay(cfg, l, p).0, p.ended)
  {
    NotAfterIsOrder(p.dayCheck, p.monthCheck, p.attempted);
    NotAfterIsOrder(p.dayCheck, p.attempted, p.ended);
    AttemptsStayUpTo(l, p.dayCheck, p.ended);
  }

  lemma WithinWhenNotStopped(cfg: Config, l: seq<Event>, p: Payment)
    requires Stopped(cfg, l, p) == None
    ensures !HasSucceeded(l, p.key)
    ensures Limit(cfg, Bucket(Daily, p.dayCheck)).Some? && Limit(cfg, Bucket(Monthly, p.monthCheck)).Some?
    ensures SumSuccessful(l, Bucket(Daily, p.dayCheck)) + Amount(p) <= Limit(cfg, Bucket(Daily, p.dayCheck)).value
    ensures SumSuccessful(l, Bucket(Monthly, p.monthCheck)) + Amount(p) <= Limit(cfg, Bucket(Monthly, p.monthCheck)).value
  {
  }

  // ----- main results -----

  /** In every sequence of payments no key succeeds twice. */
  lemma {:induction false} NoKeySucceedsTwice(cfg: Config, ps: seq<Payment>)
    ensures OneSuccessPerKey(PayAll(cfg, [], ps))
  {
    if ps != [] {
      NoKeySucceedsTwice(cfg, ps[..|ps| - 1]);
      PayKeepsOneSuccess(cfg, PayAll(cfg, [], ps[..|ps| - 1]), ps[|ps| - 1]);
    }
  }

  /** The sums the limits are computed from always bound what was paid, in every window. */
  lemma {:induction false} SumsBoundPaid(cfg: Config, ps: seq<Payment>, w: Bucket)
    ensures Paid(PayAll(cfg, [], ps), w) <= SumSuccessful(PayAll(cfg, [], ps), w)
  {
    if ps != [] {
      SumsBoundPaid(cfg, ps[..|ps| - 1], w);
      PayKeepsSums(cfg, PayAll(cfg, [], ps[..|ps| - 1]), ps[|ps| - 1], w);
    }
  }

  lemma {:induction false} DatesStayInOrder(cfg: Config, ps: seq<Payment>)
    requires InSequence(ps) && ps != []
    ensures AttemptsUpTo(PayAll(cfg, [], ps), ps[|ps| - 1].ended)
  {
    var init, last := ps[..|ps| - 1], ps[|ps| - 1];
    if init != [] {
      DatesStayInOrder(cfg, init);
      AttemptsStayUpTo(PayAll(cfg, [], init), init[|init| - 1].ended, last.dayCheck);
    }
    PayKeepsDates(cfg, PayAll(cfg, [], init), last);
  }

  /** For payments that follow one another nothing above the limit of any day or month is ever paid. */
  lemma {:induction false} LimitsHold(cfg: Config, ps: seq<Payment>, w: Bucket)
    requires InSequence(ps)
    ensures var paid := Paid(PayAll(cfg, [], ps), w);
            paid > 0 ==> Limit(cfg, w).Some? && paid <= Limit(cfg, w).value
  {
    if ps != [] {
      var init, last := ps[..|ps| - 1], ps[|ps| - 1];
      LimitsHold(cfg, init, w);
      SumsBoundPaid(cfg, init, w);
      if init != [] {
        DatesStayInOrder(cfg, init);
        AttemptsStayUpTo(PayAll(cfg, [], init), init[|init| - 1].ended, last.dayCheck);
      }
      PayKeepsLimit(cfg, PayAll(cfg, [], init), last, w);
    }
  }

  // ----- the sums are an upper bound, not the amount paid -----

  lemma TwoPayments(cfg: Config, p: Payment, q: Payment)
    ensures PayAll(cfg, [], [p, q]) == Pay(cfg, Pay(cfg, [], p).0, q).0
  {
    var one, two := [p], [p, q];
    assert two[..1] == one && one[..0] == [];
    assert PayAll(cfg, [], one) == Pay(cfg, [], p).0;
    assert PayAll(cfg, [], two) == Pay(cfg, PayAll(cfg, [], one), q).0;
  }

  /** The sums count the failed attempts of a key that later succeeds: they may lie above what was paid. */
  lemma FailedAttemptsCount(cfg: Config, p: Payment, q: Payment, w: Bucket)
    requires p.key == q.key && p.outcome == Rejected && q.outcome == Settled
    requires Stopped(cfg, [], p) == None && Stopped(cfg, Pay(cfg, [], p).0, q) == None
    requires Within(p.attempted, w) && Within(q.attempted, w)
    ensures var l := PayAll(cfg, [], [p, q]);
            Paid(l, w) == Amount(q) && SumSuccessful(l, w) == Amount(p) + Amount(q)
  {
    TwoPayments(cfg, p, q);
    EventsOfTwo(AttemptOf(p), Event(p.key, Failure, 0, p.ended), AttemptOf(q), Event(q.key, Success, 0, q.ended), w);
  }

  lemma EventsOfTwo(a: Event, b: Event, c: Event, d: Event, w: Bucket)
    requires a.status == Attempt && c.status == Attempt && d.status == Success && c.key == d.key && a.key == c.key
    requires b.status == Failure && Within(a.date, w) && Within(c.date, w)
    ensures [] + ([a] + [b]) + ([c] + [d]) == [a, b, c, d]
    ensures Paid([a, b, c, d], w) == c.micros && SumSuccessful([a, b, c, d], w) == a.micros + c.micros
  {
    var l := [a, b, c, d];
    var one, two, three := [a], [a, b], [a, b, c];
    assert one == [] + [a] && two == one + [b] && three == two + [c] && l == three + [d] && l[3] == d;
    assert HasSucceeded(l, a.key);
    PaidPlus([], a, w);
    PaidPlus(one, b, w);
    PaidPlus(two, c, w);
    PaidPlus(three, d, w);
    SumPlus([], a, l, w);
    SumPlus(one, b, l, w);
    SumPlus(two, c, l, w);
    SumPlus(three, d, l, w);
    assert Paid(one, w) == Paid(two, w) == Paid(three, w) == 0;
    assert LastAttempt(three, d.key) == Some(c);
    assert Paid(l, w) == c.micros;
    assert SumOver(one, l, w) == a.micros;
    assert SumOver(two, l, w) == a.micros;
    assert SumOver(three, l, w) == a.micros + c.micros;
    assert SumOver(l, l, w) == a.micros + c.micros;
  }
}
