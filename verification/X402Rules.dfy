/** Which payments reach the wallet, check by check, and what each other one is told. */
module X402Rules {
  import opened Basics
  import opened Calendar
  import opened X402
  import Usdc

  // ----- the checks, in the order of the code -----

  predicate AmountOk(p: Payment) {
    Usdc.IsDecimal(p.amount)
  }

  predicate HostListed(cfg: Config, p: Payment) {
    cfg.allowedHosts == [] || exists i | 0 <= i < |cfg.allowedHosts| :: cfg.allowedHosts[i] in {"*", p.host}
  }

  /** The exact amount of the payment, cut to micros. */
  ghost function Worth(p: Payment): nat
    requires AmountOk(p)
  {
    Usdc.Micros(p.amount)
  }

  ghost predicate UpTo(sum: nat, limit: string) {
    exists n: nat :: Usdc.DecimalToMicros(limit) == Ok(n) && sum <= n
  }

  /** Some event of the key has this status. */
  predicate Knows(l: seq<Event>, key: string, status: Status) {
    exists i | 0 <= i < |l| :: l[i] == Event(key, status, l[i].micros, l[i].date)
  }

  /** The answers a payment can be stopped with, in order; None is passed by every payment. */
  ghost predicate Passes(cfg: Config, l: seq<Event>, p: Payment, check: Answer)
    requires AmountOk(p)
  {
    match check
    case PaymentDisabled => cfg.paymentEnabled
    case WalletMissing => cfg.wallet != ""
    case HostNotAllowed => HostListed(cfg, p)
    case InvalidAmount => Usdc.DecimalToMicros(cfg.perTxLimit).Ok?
    case PerTxLimitExceeded => UpTo(Worth(p), cfg.perTxLimit)
    case AlreadyCompleted => !Knows(l, p.key, Success)
    case PaymentInProgress => Knows(l, p.key, Attempt) ==> Knows(l, p.key, Failure)
    case DailyLimitExceeded => UpTo(SumSuccessful(l, Bucket(Daily, p.dayCheck)) + Worth(p), cfg.dailyLimit)
    case MonthlyLimitExceeded => UpTo(SumSuccessful(l, Bucket(Monthly, p.monthCheck)) + Worth(p), cfg.monthlyLimit)
    case _ => true
  }

  function Place(check: Answer): nat {
    match check
    case PaymentDisabled => 0
    case WalletMissing => 1
    case HostNotAllowed => 2
    case InvalidAmount => 3
    case PerTxLimitExceeded => 4
    case AlreadyCompleted => 5
    case PaymentInProgress => 6
    case DailyLimitExceeded => 7
    case MonthlyLimitExceeded => 8
    case _ => 9
  }

  lemma WorthIsAmount(p: Payment)
    requires AmountOk(p)
    ensures Micros(p.amount) == Some(Worth(p)) && Amount(p) == Worth(p)
  {
    Usdc.DecimalToMicrosIsFloor(p.amount);
  }

  lemma HostIsListed(cfg: Config, p: Payment)
    ensures HostAllowed(cfg.allowedHosts, p.host) <==> HostListed(cfg, p)
  {
  }

  lemma KnowsIsHas(l: seq<Event>, key: string, status: Status)
    ensures Knows(l, key, status) <==> Has(l, key, status)
  {
    if Knows(l, key, status) {
      var i :| 0 <= i < |l| && l[i] == Event(key, status, l[i].micros, l[i].date);
      assert l[i].key == key;
    }
    if Has(l, key, status) {
      var i :| 0 <= i < |l| && l[i].key == key && l[i].status == status;
      assert l[i] == Event(key, status, l[i].micros, l[i].date);
    }
  }

  lemma UpToIsAtMost(sum: nat, limit: string)
    ensures UpTo(sum, limit) <==> AtMost(sum, limit)
  {
  }

  lemma PolicyChecks(cfg: Config, l: seq<Event>, p: Payment)
    requires AmountOk(p)
    ensures Passes(cfg, l, p, PaymentDisabled) <==> cfg.paymentEnabled
    ensures Passes(cfg, l, p, WalletMissing) <==> cfg.wallet != ""
    ensures Passes(cfg, l, p, HostNotAllowed) <==> HostAllowed(cfg.allowedHosts, p.host)
    ensures Passes(cfg, l, p, InvalidAmount) <==> Micros(cfg.perTxLimit).Some?
    ensures Passes(cfg, l, p, PerTxLimitExceeded) <==> AtMost(Amount(p), cfg.perTxLimit)
  {
    WorthIsAmount(p);
    HostIsListed(cfg, p);
    UpToIsAtMost(Worth(p), cfg.perTxLimit);
  }

  lemma KeyChecks(cfg: Config, l: seq<Event>, p: Payment)
    requires AmountOk(p)
    ensures Passes(cfg, l, p, AlreadyCompleted) <==> !HasSucceeded(l, p.key)
    ensures !HasSucceeded(l, p.key) ==> (Passes(cfg, l, p, PaymentInProgress) <==> !HasPendingAttempt(l, p.key))
  {
    KnowsIsHas(l, p.key, Success);
    KnowsIsHas(l, p.key, Attempt);
    KnowsIsHas(l, p.key, Failure);
  }

  lemma LimitChecks(cfg: Config, l: seq<Event>, p: Payment)
    requires AmountOk(p)
    ensures Passes(cfg, l, p, DailyLimitExceeded) <==> !Exceeds(l, Bucket(Daily, p.dayCheck), Amount(p), cfg.dailyLimit)
    ensures Passes(cfg, l, p, MonthlyLimitExceeded) <==> !Exceeds(l, Bucket(Monthly, p.monthCheck), Amount(p), cfg.monthlyLimit)
  {
    WorthIsAmount(p);
    UpToIsAtMost(SumSuccessful(l, Bucket(Daily, p.dayCheck)) + Worth(p), cfg.dailyLimit);
    UpToIsAtMost(SumSuccessful(l, Bucket(Monthly, p.monthCheck)) + Worth(p), cfg.monthlyLimit);
  }

  ghost function Passing(cfg: Config, l: seq<Event>, p: Payment): Answer -> bool
    requires AmountOk(p)
  {
    check => Passes(cfg, l, p, check)
  }

  /** The first of the checks that is not passed. */
  function FirstFailed(passes: Answer -> bool): Option<Answer> {
    if !passes(PaymentDisabled) then Some(PaymentDisabled)
    else if !passes(WalletMissing) then Some(WalletMissing)
    else if !passes(HostNotAllowed) then Some(HostNotAllowed)
    else if !passes(InvalidAmount) then Some(InvalidAmount)
    else if !passes(PerTxLimitExceeded) then Some(PerTxLimitExceeded)
    else if !passes(AlreadyCompleted) then Some(AlreadyCompleted)
    else if !passes(PaymentInProgress) then Some(PaymentInProgress)
    else if !passes(DailyLimitExceeded) then Some(DailyLimitExceeded)
    else if !passes(MonthlyLimitExceeded) then Some(MonthlyLimitExceeded)
    else None
  }

  lemma FirstFailedMeaning(passes: Answer -> bool, check: Answer)
    requires forall c: Answer | Place(c) == 9 :: passes(c)
    ensures FirstFailed(passes) == Some(check) <==>
              !passes(check) && forall c: Answer | Place(c) < Place(check) :: passes(c)
    ensures FirstFailed(passes) == None <==> forall c: Answer :: passes(c)
  {
  }

  lemma RefusedAsChecked(cfg: Config, l: seq<Event>, p: Payment, passes: Answer -> bool)
    requires AmountOk(p) && passes == Passing(cfg, l, p)
    ensures PaymentRefused(cfg, p) ==
              if !passes(PaymentDisabled) then Some(PaymentDisabled)
              else if !passes(WalletMissing) then Some(WalletMissing)
              else if !passes(HostNotAllowed) then Some(HostNotAllowed)
              else if !passes(InvalidAmount) then Some(InvalidAmount)
              else if !passes(PerTxLimitExceeded) then Some(PerTxLimitExceeded)
              else None
  {
    PolicyChecks(cfg, l, p);
    WorthIsAmount(p);
  }

  lemma StoppedAsChecked(cfg: Config, l: seq<Event>, p: Payment, passes: Answer -> bool)
    requires AmountOk(p) && passes == Passing(cfg, l, p) && PaymentRefused(cfg, p) == None
    ensures Stopped(cfg, l, p) ==
              if !passes(AlreadyCompleted) then Some(AlreadyCompleted)
              else if !passes(PaymentInProgress) then Some(PaymentInProgress)
              else if !passes(DailyLimitExceeded) then Some(DailyLimitExceeded)
              else if !passes(MonthlyLimitExceeded) then Some(MonthlyLimitExceeded)
              else None
  {
    KeyChecks(cfg, l, p);
    LimitChecks(cfg, l, p);
  }

  lemma RefusedIsStopped(cfg: Config, l: seq<Event>, p: Payment)
    requires AmountOk(p) && PaymentRefused(cfg, p).Some?
    ensures Stopped(cfg, l, p) == PaymentRefused(cfg, p)
  {
  }

  lemma StoppedIsFirstFailed(cfg: Config, l: seq<Event>, p: Payment)
    requires AmountOk(p)
    ensures Stopped(cfg, l, p) == FirstFailed(Passing(cfg, l, p))
  {
    var passes := Passing(cfg, l, p);
    RefusedAsChecked(cfg, l, p, passes);
    if PaymentRefused(cfg, p) == None {
      StoppedAsChecked(cfg, l, p, passes);
    } else {
      RefusedIsStopped(cfg, l, p);
    }
  }

  /** A payment whose amount is no decimal is refused before anything else. */
  lemma BadAmountIsRefused(cfg: Config, l: seq<Event>, p: Payment)
    requires !AmountOk(p)
    ensures Pay(cfg, l, p) == (l, InvalidAmount)
  {
  }

  lemma OthersPass(cfg: Config, l: seq<Event>, p: Payment)
    requires AmountOk(p)
    ensures forall c: Answer | Place(c) == 9 :: Passing(cfg, l, p)(c)
  {
  }

  /** A payment is stopped exactly with the first check, in their order, that it does not pass. */
  lemma StoppedByFirst(cfg: Config, l: seq<Event>, p: Payment, check: Answer)
    requires AmountOk(p)
    ensures Stopped(cfg, l, p) == Some(check) <==>
              !Passing(cfg, l, p)(check) && forall c: Answer | Place(c) < Place(check) :: Passing(cfg, l, p)(c)
  {
    StoppedIsFirstFailed(cfg, l, p);
    OthersPass(cfg, l, p);
    FirstFailedMeaning(Passing(cfg, l, p), check);
  }

  /**
   It reaches the wallet exactly when it passes them all; so what reaches the wallet goes to a listed host and is at most
   the limit of a single payment.
   */
  lemma ReachesWalletIff(cfg: Config, l: seq<Event>, p: Payment)
    ensures Stopped(cfg, l, p) == None <==> AmountOk(p) && forall check: Answer :: Passing(cfg, l, p)(check)
  {
    if AmountOk(p) {
      StoppedIsFirstFailed(cfg, l, p);
      OthersPass(cfg, l, p);
      FirstFailedMeaning(Passing(cfg, l, p), Completed);
    }
  }

  // ----- what is answered, and batches -----

  /** A payment that reaches the wallet is answered by how it ends. */
  lemma AnswerMeaning(cfg: Config, l: seq<Event>, p: Payment)
    requires Stopped(cfg, l, p) == None
    ensures Pay(cfg, l, p).1 == Completed <==> p.outcome.Settled? || p.outcome.AlreadyPaid?
    ensures Pay(cfg, l, p).1 == StateUnknown <==> p.outcome.Unknown?
    ensures Pay(cfg, l, p).1 == Failed <==> p.outcome.Rejected? || p.outcome.SettledUnstored? || p.outcome.AlreadyPaidUnstored?
  {
  }

  /** What it leaves: its attempt, then a success or a failure, or nothing more. */
  lemma PayLeaves(cfg: Config, l: seq<Event>, p: Payment)
    ensures Stopped(cfg, l, p) != None ==> Pay(cfg, l, p).0 == l
    ensures Stopped(cfg, l, p) == None ==>
              AmountOk(p)
              && var attempt := l + [Event(p.key, Attempt, Worth(p), p.attempted)];
                 Pay(cfg, l, p).0 ==
                   match p.outcome
                   case Settled => attempt + [Event(p.key, Success, 0, p.ended)]
                   case AlreadyPaid(_) => attempt + [Event(p.key, Success, 0, p.ended)]
                   case Rejected => attempt + [Event(p.key, Failure, 0, p.ended)]
                   case SettledUnstored => attempt + [Event(p.key, Failure, 0, p.ended)]
                   case Unknown(_) => attempt
                   case AlreadyPaidUnstored(_) => attempt
  {
    if Stopped(cfg, l, p) == None {
      WorthIsAmount(p);
    }
  }

  /** The checks a single payment has to pass whatever the ledger holds. */
  ghost predicate Payable(cfg: Config, p: Payment)
    requires AmountOk(p)
  {
    cfg.paymentEnabled && cfg.wallet != "" && HostListed(cfg, p) && UpTo(Worth(p), cfg.perTxLimit)
  }

  /** A batch is allowed payment by payment. */
  lemma BatchMeaning(cfg: Config, ps: seq<Payment>)
    requires forall i | 0 <= i < |ps| :: AmountOk(ps[i])
    ensures AllAllowed(cfg, ps) <==> forall i | 0 <= i < |ps| :: Payable(cfg, ps[i])
  {
    forall i | 0 <= i < |ps|
      ensures Allowed(cfg, ps[i]) <==> Payable(cfg, ps[i])
    {
      AllowedIsPayable(cfg, ps[i]);
    }
  }

  lemma AllowedIsPayable(cfg: Config, p: Payment)
    requires AmountOk(p)
    ensures Allowed(cfg, p) <==> Payable(cfg, p)
  {
    RefusedAsChecked(cfg, [], p, Passing(cfg, [], p));
  }

  /** The total of a batch is the sum of its exact amounts. */
  lemma {:induction false} TotalMeaning(ps: seq<Payment>, p: Payment)
    requires AmountOk(p)
    ensures Total([]) == 0 && Total(ps + [p]) == Total(ps) + Worth(p)
  {
    WorthIsAmount(p);
    assert (ps + [p])[..|ps|] == ps;
  }
}
