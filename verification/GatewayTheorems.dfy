/** The main results about the gateway. */
module GatewayTheorems {
  import opened Basics
  import opened Calendar
  import opened OperationStates
  import opened Journal
  import opened Spend
  import opened Usdc
  import opened WriteResults
  import opened Gateway
  import opened GatewayRuns

  // ----- the memory is only a cache -----

  /** Equal but for the hash of a replay. */
  ghost predicate SameReply(a: Reply, b: Reply) {
    a == b || (a.Replay? && b.Replay? && a.id == b.id)
  }

  /** What a call did, memory aside: its reply, the tables, the ledger. */
  ghost predicate SameEffect(a: (World, Reply), b: (World, Reply)) {
    SameReply(a.1, b.1) && a.0.t == b.0.t && a.0.ledger == b.0.ledger && a.0.used == b.0.used
  }

  ghost predicate SameAdmission(a: Admission, b: Admission) {
    && a.t == b.t
    && (a.reply.Some? <==> b.reply.Some?)
    && (a.reply.Some? ==> SameReply(a.reply.value, b.reply.value))
  }

  /** The part of Admit that does not look at memory. */
  lemma AdmitIgnoresMemory(t: Tables, m: Memory, m': Memory, input: Input, id: Id)
    ensures Admit(t, m, input, id).t == Admit(t, m', input, id).t
    ensures Admit(t, m, input, id).reply == Admit(t, m', input, id).reply
  {
  }

  lemma DecideLikeCold(t: Tables, m: Memory, input: Input, id: Id)
    requires Sound(t) && MemOk(t, m) && id !in t.ops && Supported(input)
    ensures SameAdmission(Decide(t, m, input, id), Decide(t, NO_MEMORY, input, id))
    ensures !ConsultMemory(m, InputKey(input)).Answer? ==>
              Decide(t, m, input, id).reply == Decide(t, NO_MEMORY, input, id).reply
  {
    ColdDecision(t, input, id);
    match ConsultMemory(m, InputKey(input))
    case Miss => AdmitIgnoresMemory(t, m, NO_MEMORY, input, id);
    case Answer(_) => AnswerLikeCold(t, m, input, id);
    case Purge(stale) =>
      PurgedKey(t, m, input);
      PurgeLikeCold(t, Forget(m, stale, InputKey(input)), input, id, stale);
  }

  lemma ColdDecision(t: Tables, input: Input, id: Id)
    ensures Decide(t, NO_MEMORY, input, id) == Admit(t, NO_MEMORY, input, id)
  {
  }

  /** What memory answers is what Admit answers from the row. */
  lemma AnswerLikeCold(t: Tables, m: Memory, input: Input, id: Id)
    requires Sound(t) && MemOk(t, m) && Supported(input) && ConsultMemory(m, InputKey(input)).Answer?
    ensures SameAdmission(Decide(t, m, input, id), Admit(t, NO_MEMORY, input, id))
  {
    MemoryHit(t, m, input);
  }

  lemma PurgedKey(t: Tables, m: Memory, input: Input)
    requires Sound(t) && MemOk(t, m) && ConsultMemory(m, InputKey(input)).Purge?
    ensures var stale := m.index[InputKey(input)];
            && ConsultMemory(m, InputKey(input)) == Purge(stale)
            && Holds(t.keys, (input.req.key, input.req.params), stale)
            && ConsultRow(t, stale).Purge?
            && !exists q | q in DeleteOp(t, stale).keys :: q.0 == input.req.key
  {
    MemoryHit(t, m, input);
    var stale := m.index[InputKey(input)];
    DeleteKeepsSound(t, stale);
    assert (input.req.key, input.req.params) !in DeleteOp(t, stale).keys;
  }

  /** Purging a dead row before the insert, because memory names it, comes to the purge Admit itself makes. */
  lemma PurgeLikeCold(t: Tables, m: Memory, input: Input, id: Id, stale: Id)
    requires Supported(input)
    requires Holds(t.keys, (input.req.key, input.req.params), stale) && ConsultRow(t, stale).Purge?
    requires !exists q | q in DeleteOp(t, stale).keys :: q.0 == input.req.key
    ensures SameAdmission(Admit(DeleteOp(t, stale), m, input, id), Admit(t, NO_MEMORY, input, id))
    ensures Admit(DeleteOp(t, stale), m, input, id).reply == Admit(t, NO_MEMORY, input, id).reply
  {
  }

  /**
   In every reachable world a call on a supported chain replies and writes exactly as it would with both in-memory maps
   empty, although a restart reloads only some rows.
   */
  lemma MemoryIsOnlyACache(guard: Option<Policy>, ws: seq<World>, steps: seq<Step>, i: nat,
                           input: Input, id: Id, clock: Readings)
    requires Run(guard, ws, steps) && i < |ws|
    requires Supported(input) && id !in ws[i].used
    ensures SameEffect(Begin(guard, ws[i], input, id, clock),
                       Begin(guard, ws[i].(m := NO_MEMORY), input, id, clock))
  {
    RunKeepsInv(guard, ws, steps, i);
    DecideLikeCold(ws[i].t, ws[i].m, input, id);
    ContinueAlike(guard, ws[i].ledger, ws[i].used + {id}, Decide(ws[i].t, ws[i].m, input, id),
                  Decide(ws[i].t, NO_MEMORY, input, id), input, id, clock);
  }

  lemma ContinueAlike(guard: Option<Policy>, ledger: seq<Entry>, used: set<Id>, a: Admission, b: Admission,
                      input: Input, id: Id, clock: Readings)
    requires SameAdmission(a, b)
    ensures SameEffect(Continue(guard, ledger, used, a, input, id, clock), Continue(guard, ledger, used, b, input, id, clock))
  {
  }

  /**
   On any chain: the equivalence holds exactly when the chain is supported or memory has nothing decisive on the key,
   because the code consults memory before it resolves the chain.
   */
  lemma CacheShowsIff(guard: Option<Policy>, ws: seq<World>, steps: seq<Step>, i: nat,
                      input: Input, id: Id, clock: Readings)
    requires Run(guard, ws, steps) && i < |ws| && id !in ws[i].used
    ensures SameEffect(Begin(guard, ws[i], input, id, clock),
                       Begin(guard, ws[i].(m := NO_MEMORY), input, id, clock))
        <==> Supported(input) || ConsultMemory(ws[i].m, InputKey(input)).Miss?
  {
    RunKeepsInv(guard, ws, steps, i);
    if Supported(input) {
      MemoryIsOnlyACache(guard, ws, steps, i, input, id, clock);
    } else if ConsultMemory(ws[i].m, InputKey(input)).Purge? {
      MemoryHit(ws[i].t, ws[i].m, input);
      var stale := ws[i].m.index[InputKey(input)];
      assert stale in ws[i].t.ops && stale !in DeleteOp(ws[i].t, stale).ops;
    }
  }

  /** Such a call exists: the write of a supported chain is executing, and its request comes again without a chain. */
  lemma CacheShows(guard: Option<Policy>, input: Input, a: Id, b: Id, clock: Readings)
    requires Supported(input) && input.req.wallet != "" && input.policy.None? && a != b
    ensures exists ws: seq<World>, steps, again ::
              && Run(guard, ws, steps) && steps == [DoBegin(input, a, clock)]
              && again == input.(chain := "", chainId := None)
              && Begin(guard, ws[1], again, b, clock).1 == InProgress
              && Begin(guard, ws[1].(m := NO_MEMORY), again, b, clock).1 == UnsupportedChain
  {
    var again := input.(chain := "", chainId := None);
    var ws, steps := [START, Begin(guard, START, input, a, clock).0], [DoBegin(input, a, clock)];
    FirstCall(guard, input, a, clock);
    FirstCallInMemory(guard, input, a, clock);
    assert Run(guard, ws, steps);
    ColdDecision(ws[1].t, again, b);
    assert Begin(guard, ws[1], again, b, clock).1 == InProgress;
    assert Begin(guard, ws[1].(m := NO_MEMORY), again, b, clock).1 == UnsupportedChain;
  }

  lemma FirstCallInMemory(guard: Option<Policy>, input: Input, a: Id, clock: Readings)
    requires Supported(input) && input.req.wallet != "" && input.policy.None?
    ensures var m := Begin(guard, START, input, a, clock).0.m;
            && ConsultMemory(m, InputKey(input)) == Answer(InProgress)
            && a in m.ops && m.ops[a].state == Executing && m.ops[a].tx == None
  {
  }

  // ----- locks and keys -----

  /** In every reachable world two live operations share neither wallet, nor job; and no two operations share a key. */
  lemma OneLiveOperationPerLock(guard: Option<Policy>, ws: seq<World>, steps: seq<Step>, i: nat, a: Id, b: Id)
    requires Run(guard, ws, steps) && i < |ws| && a in ws[i].t.ops && b in ws[i].t.ops && a != b
    ensures var x, y := ws[i].t.ops[a], ws[i].t.ops[b];
            && x.key != y.key
            && (!Terminal(x.state) && !Terminal(y.state) ==>
                  && (x.wallet != "" ==> Lower(x.wallet) != Lower(y.wallet))
                  && (x.job != "" ==> x.job != y.job))
  {
    RunKeepsInv(guard, ws, steps, i);
    var x, y := ws[i].t.ops[a], ws[i].t.ops[b];
    if !Terminal(x.state) && !Terminal(y.state)
       && ((x.wallet != "" && Lower(x.wallet) == Lower(y.wallet)) || (x.job != "" && x.job == y.job)) {
      LockExclusion(ws[i].t, a, b);
    }
  }

  /** A lock is held by an operation exactly when the operation asked for it and is not terminal. */
  lemma LocksAreExact(guard: Option<Policy>, ws: seq<World>, steps: seq<Step>, i: nat, id: Id, w: string, j: string)
    requires Run(guard, ws, steps) && i < |ws|
    ensures Holds(ws[i].t.walletLocks, w, id) <==> WantsWallet(ws[i].t, id, w)
    ensures Holds(ws[i].t.jobLocks, j, id) <==> WantsJob(ws[i].t, id, j)
  {
    RunKeepsInv(guard, ws, steps, i);
  }

  // ----- at most once -----

  /** The step records a failure or cancellation of id: its write settled so, or it was reconciled as failed. */
  ghost predicate ExplicitFailure(w: World, s: Step, id: Id) {
    || (s.DoFinish? && s.id == id && Dead(Classify(s.attempt)))
    || FailedByOperator(w, s, id)
  }

  ghost predicate FailedByOperator(w: World, s: Step, id: Id) {
    s.DoReconcile? && s.id == id && s.outcome == AsFailed && Reconcilable(w.m, id)
  }

  /** The step is a crash that finds the row of id still before `executing`. */
  ghost predicate CaughtByCrash(w: World, s: Step, id: Id) {
    (s.DoRestart? || s.CrashInBegin?) && id in w.t.ops && PreBroadcast(w.t.ops[id].state)
  }

  ghost predicate Live(w: World, id: Id, key: string) {
    id in w.t.ops && w.t.ops[id].key == key && !Dead(w.t.ops[id].state)
  }

  /** What one step may do to one row: keep it, purge it dead, or move it along the declared transitions. */
  ghost predicate RowStep(w: World, s: Step, w': World, id: Id)
    requires id in w.t.ops
  {
    var before := w.t.ops[id];
    if id !in w'.t.ops then Dead(before.state)
    else
      var after := w'.t.ops[id];
      && after.key == before.key
      && after.state in Later(before.state)
      && (after.state != before.state && Dead(after.state) ==> ExplicitFailure(w, s, id) || CaughtByCrash(w, s, id))
      && (ExplicitFailure(w, s, id) && s.DoFinish? ==> before.state in {Created, Executing})
  }

  lemma RecoveryOnRow(w: World, s: Step, t: Tables, w': World, id: Id)
    requires s.DoRestart? || s.CrashInBegin?
    requires id in w.t.ops && w'.t == RecoverOps(t)
    requires if id in t.ops then t.ops[id] == w.t.ops[id] else Dead(w.t.ops[id].state)
    ensures RowStep(w, s, w', id)
  {
  }

  lemma SameOnRow(w: World, s: Step, w': World, id: Id)
    requires id in w.t.ops && (if id in w'.t.ops then w'.t.ops[id] == w.t.ops[id] else Dead(w.t.ops[id].state))
    requires ExplicitFailure(w, s, id) && s.DoFinish? ==> w.t.ops[id].state in {Created, Executing}
    ensures RowStep(w, s, w', id)
  {
  }

  lemma BeginOnRow(guard: Option<Policy>, w: World, s: Step, id: Id)
    requires Inv(w) && s.DoBegin? && Enabled(w, s) && id in w.t.ops
    ensures RowStep(w, s, Apply(guard, w, s), id)
  {
    DecideSpec(w.t, w.m, s.input, s.id);
    var a := Decide(w.t, w.m, s.input, s.id);
    var w' := Apply(guard, w, s);
    BeginEffect(guard, w, s.input, s.id, s.clock);
    if id in a.t.ops {
      FinalizedRow(a.t, s.id, Failed, None, id);
    }
    SameOnRow(w, s, w', id);
  }

  /** Finalizing `who` is allowed when its own row moves along a declared chain and does not die without a cause. */
  lemma FinalizedOnRow(w: World, s: Step, w': World, who: Id, state: OpState, tx: Option<string>, id: Id)
    requires id in w.t.ops && w'.t == FinalizeOp(w.t, who, state, tx)
    requires who == id ==>
               var before := w.t.ops[id].state;
               state in Later(before) && (state != before && Dead(state) ==> ExplicitFailure(w, s, id))
    requires s.DoFinish? && ExplicitFailure(w, s, id) ==> w.t.ops[id].state in {Created, Executing}
    ensures RowStep(w, s, w', id)
  {
    FinalizedRow(w.t, who, state, tx, id);
    LaterIsReflexive(w.t.ops[id].state);
  }

  lemma LaterIsReflexive(state: OpState)
    ensures state in Later(state)
  {
  }

  lemma FinishOnRow(guard: Option<Policy>, w: World, s: Step, id: Id)
    requires Inv(w) && s.DoFinish? && Enabled(w, s) && id in w.t.ops
    ensures RowStep(w, s, Apply(guard, w, s), id)
  {
    assert RecOk(w.t, w.m, s.id);
    ClassificationIsConservative(s.attempt);
    FinalizedOnRow(w, s, Apply(guard, w, s), s.id, Classify(s.attempt), AttemptTx(s.attempt), id);
  }

  lemma ReconcileOnRow(guard: Option<Policy>, w: World, s: Step, id: Id)
    requires Inv(w) && s.DoReconcile? && id in w.t.ops
    ensures RowStep(w, s, Apply(guard, w, s), id)
  {
    if Reconcilable(w.m, s.id) {
      assert RecOk(w.t, w.m, s.id);
      ReconcileIsFinalize(w.t, s.id, s.outcome, s.tx);
      ReconciledIsLater(w.t.ops[s.id].state, s.outcome);
      FinalizedOnRow(w, s, Apply(guard, w, s), s.id, Reconciled(s.outcome),
                     if s.outcome == AsConfirmed then Truthy(s.tx) else None, id);
    } else {
      SameOnRow(w, s, w, id);
    }
  }

  lemma ReconciledIsLater(before: OpState, outcome: Reconciliation)
    requires before == Broadcast || before == Unknown
    ensures Reconciled(outcome) in Later(before) && (Dead(Reconciled(outcome)) ==> outcome == AsFailed)
  {
  }

  lemma ReceiptOnRow(guard: Option<Policy>, w: World, s: Step, id: Id)
    requires Inv(w) && s.DoStoreReceipt? && Enabled(w, s) && id in w.t.ops
    ensures RowStep(w, s, Apply(guard, w, s), id)
  {
    if s.id in w.m.ops {
      assert RecOk(w.t, w.m, s.id);
      StatesAgreeIsLater(w.t.ops[s.id].state, w.m.ops[s.id].state);
      FinalizedOnRow(w, s, Apply(guard, w, s), s.id, w.m.ops[s.id].state, None, id);
    } else {
      LaterIsReflexive(Confirmed);
      FinalizedOnRow(w, s, Apply(guard, w, s), s.id, Confirmed, None, id);
    }
  }

  lemma StatesAgreeIsLater(row: OpState, rec: OpState)
    requires StatesAgree(row, rec)
    ensures rec in Later(row) && (Dead(rec) ==> rec == row)
  {
  }

  lemma StepOnRow(guard: Option<Policy>, w: World, s: Step, id: Id)
    requires Inv(w) && Enabled(w, s) && id in w.t.ops
    ensures RowStep(w, s, Apply(guard, w, s), id)
  {
    match s
    case DoBegin(_, _, _) => BeginOnRow(guard, w, s, id);
    case CrashInBegin(input, newId, created, _, _) =>
      CrashTablesSpec(w, input, newId, created);
      RecoveryOnRow(w, s, CrashTables(w, input, newId, created), Apply(guard, w, s), id);
    case DoFinish(_, _) => FinishOnRow(guard, w, s, id);
    case DoReconcile(_, _, _) => ReconcileOnRow(guard, w, s, id);
    case DoStoreReceipt(_) => ReceiptOnRow(guard, w, s, id);
    case DoRestart(_, _) => RecoveryOnRow(w, s, w.t, Apply(guard, w, s), id);
  }

  /** The history of one row: every step treats it as RowStep says, and a used id never comes back. */
  ghost predicate RowHistory(ws: seq<World>, steps: seq<Step>, id: Id) {
    && |ws| == |steps| + 1
    && (forall m | 0 <= m < |steps| && id in ws[m].t.ops :: RowStep(ws[m], steps[m], ws[m + 1], id))
    && (forall m | 0 <= m < |steps| && id in ws[m].used ::
          id in ws[m + 1].used && (id in ws[m + 1].t.ops ==> id in ws[m].t.ops))
  }

  lemma NoResurrection(guard: Option<Policy>, w: World, s: Step, id: Id)
    requires Inv(w) && Enabled(w, s) && id in w.used && id !in w.t.ops
    ensures id !in Apply(guard, w, s).t.ops
  {
    match s
    case DoBegin(input, newId, clock) => BeginOnlyAdds(guard, w, input, newId, clock);
    case CrashInBegin(input, newId, created, _, _) => CrashTablesSpec(w, input, newId, created);
    case DoFinish(who, attempt) => FinalizeAddsNone(w.t, who, Classify(attempt), AttemptTx(attempt));
    case DoReconcile(who, outcome, tx) =>
      FinalizeAddsNone(w.t, who, Reconciled(outcome), if outcome == AsConfirmed then Truthy(tx) else None);
      if Reconcilable(w.m, who) {
        assert RecOk(w.t, w.m, who);
        ReconcileIsFinalize(w.t, who, outcome, tx);
      }
    case DoStoreReceipt(who) =>
      FinalizeAddsNone(w.t, who, if who in w.m.ops then w.m.ops[who].state else Confirmed, None);
    case DoRestart(_, _) =>
  }

  lemma BeginOnlyAdds(guard: Option<Policy>, w: World, input: Input, newId: Id, clock: Readings)
    requires Inv(w) && newId !in w.used
    ensures Begin(guard, w, input, newId, clock).0.t.ops.Keys <= w.t.ops.Keys + {newId}
  {
    DecideSpec(w.t, w.m, input, newId);
    BeginEffect(guard, w, input, newId, clock);
    FinalizeAddsNone(Decide(w.t, w.m, input, newId).t, newId, Failed, None);
  }

  lemma FinalizeAddsNone(t: Tables, who: Id, state: OpState, tx: Option<string>)
    ensures FinalizeOp(t, who, state, tx).ops.Keys == t.ops.Keys
  {
  }

  lemma RunHasRowHistories(guard: Option<Policy>, ws: seq<World>, steps: seq<Step>, id: Id)
    requires Run(guard, ws, steps)
    ensures RowHistory(ws, steps, id)
  {
    forall m | 0 <= m < |steps| && id in ws[m].t.ops
      ensures RowStep(ws[m], steps[m], ws[m + 1], id)
    {
      RunKeepsInv(guard, ws, steps, m);
      StepOnRow(guard, ws[m], steps[m], id);
    }
    forall m | 0 <= m < |steps| && id in ws[m].used
      ensures id in ws[m + 1].used && (id in ws[m + 1].t.ops ==> id in ws[m].t.ops)
    {
      RunKeepsInv(guard, ws, steps, m);
      StepKeepsInv(guard, ws[m], steps[m]);
      if id !in ws[m].t.ops {
        NoResurrection(guard, ws[m], steps[m], id);
      }
    }
  }

  /** Broadcast, unknown or, by then, confirmed. */
  ghost predicate Sent(w: World, id: Id, key: string) {
    Live(w, id, key) && w.t.ops[id].state in {Broadcast, Unknown, Confirmed}
  }

  ghost predicate ConfirmedFor(w: World, id: Id, key: string) {
    Live(w, id, key) && w.t.ops[id].state == Confirmed
  }

  lemma RowStepFacts(w: World, s: Step, w': World, id: Id, key: string)
    requires id in w.t.ops && RowStep(w, s, w', id)
    ensures Live(w, id, key) ==> Live(w', id, key) || ExplicitFailure(w, s, id) || CaughtByCrash(w, s, id)
    ensures Sent(w, id, key) ==> Sent(w', id, key) || FailedByOperator(w, s, id)
    ensures ConfirmedFor(w, id, key) ==> ConfirmedFor(w', id, key)
  {
  }

  /** No call is made for a key whose operation is not failed or cancelled. */
  lemma NoCallWhileLive(guard: Option<Policy>, w: World, s: Step, id: Id, key: string, id': Id)
    requires Inv(w) && Enabled(w, s) && Live(w, id, key)
    ensures !CallsFor(guard, w, s, key, id')
  {
    if s.DoBegin? {
      DecideSpec(w.t, w.m, s.input, s.id);
      BeginEffect(guard, w, s.input, s.id, s.clock);
    }
  }

  lemma CallMakesLive(guard: Option<Policy>, w: World, s: Step, key: string, id: Id)
    requires Inv(w) && Enabled(w, s) && CallsFor(guard, w, s, key, id)
    ensures Live(Apply(guard, w, s), id, key)
  {
    DecideSpec(w.t, w.m, s.input, s.id);
    BeginEffect(guard, w, s.input, s.id, s.clock);
  }

  /** A live operation stays live until something fails it. */
  lemma {:induction false} LiveUntilFailed(ws: seq<World>, steps: seq<Step>, i: nat, j: nat, id: Id, key: string)
    requires RowHistory(ws, steps, id) && i <= j < |ws| && Live(ws[i], id, key)
    ensures || Live(ws[j], id, key)
            || exists m | i <= m < j :: ExplicitFailure(ws[m], steps[m], id) || CaughtByCrash(ws[m], steps[m], id)
  {
    if i < j {
      LiveUntilFailed(ws, steps, i, j - 1, id, key);
      if Live(ws[j - 1], id, key) {
        RowStepFacts(ws[j - 1], steps[j - 1], ws[j], id, key);
      }
    }
  }

  /**
   At most once: between two calls of executeFn for one idempotency key some step failed the first operation. Either its
   failure was recorded, or a crash caught its row before `executing`; without crashes only the former.
   */
  lemma CallsAreSeparatedByFailure(guard: Option<Policy>, ws: seq<World>, steps: seq<Step>,
                                   i: nat, j: nat, key: string, a: Id, b: Id)
    requires Run(guard, ws, steps) && i < j < |steps|
    requires CallsFor(guard, ws[i], steps[i], key, a) && CallsFor(guard, ws[j], steps[j], key, b)
    ensures exists m | i < m < j :: ExplicitFailure(ws[m], steps[m], a) || CaughtByCrash(ws[m], steps[m], a)
  {
    RunKeepsInv(guard, ws, steps, i);
    RunKeepsInv(guard, ws, steps, j);
    CallMakesLive(guard, ws[i], steps[i], key, a);
    RunHasRowHistories(guard, ws, steps, a);
    LiveUntilFailed(ws, steps, i + 1, j, a, key);
    if Live(ws[j], a, key) {
      NoCallWhileLive(guard, ws[j], steps[j], a, key, b);
    }
  }

  /** Once confirmed, a row stays confirmed for ever and its key is never called for again, restarts included. */
  lemma ConfirmedForEver(guard: Option<Policy>, ws: seq<World>, steps: seq<Step>,
                         i: nat, j: nat, id: Id, key: string, id': Id)
    requires Run(guard, ws, steps) && i <= j < |ws| && ConfirmedFor(ws[i], id, key)
    ensures ConfirmedFor(ws[j], id, key)
    ensures j < |steps| ==> !CallsFor(guard, ws[j], steps[j], key, id')
  {
    RunHasRowHistories(guard, ws, steps, id);
    ConfirmedStays(ws, steps, i, j, id, key);
    RunKeepsInv(guard, ws, steps, j);
    if j < |steps| {
      NoCallWhileLive(guard, ws[j], steps[j], id, key, id');
    }
  }

  lemma {:induction false} ConfirmedStays(ws: seq<World>, steps: seq<Step>, i: nat, j: nat, id: Id, key: string)
    requires RowHistory(ws, steps, id) && i <= j < |ws| && ConfirmedFor(ws[i], id, key)
    ensures ConfirmedFor(ws[j], id, key)
  {
    if i < j {
      ConfirmedStays(ws, steps, i, j - 1, id, key);
      RowStepFacts(ws[j - 1], steps[j - 1], ws[j], id, key);
    }
  }

  /** Once broadcast or unknown, a key is called for again only after an operator reconciled the operation as failed. */
  lemma UncertainNeedsReconciliation(guard: Option<Policy>, ws: seq<World>, steps: seq<Step>,
                                     i: nat, j: nat, id: Id, key: string, id': Id)
    requires Run(guard, ws, steps) && i <= j < |steps| && Sent(ws[i], id, key)
    requires CallsFor(guard, ws[j], steps[j], key, id')
    ensures exists m | i <= m < j :: FailedByOperator(ws[m], steps[m], id)
  {
    RunHasRowHistories(guard, ws, steps, id);
    SentUntilFailed(ws, steps, i, j, id, key);
    RunKeepsInv(guard, ws, steps, j);
    if Live(ws[j], id, key) {
      NoCallWhileLive(guard, ws[j], steps[j], id, key, id');
    }
  }

  lemma {:induction false} SentUntilFailed(ws: seq<World>, steps: seq<Step>, i: nat, j: nat, id: Id, key: string)
    requires RowHistory(ws, steps, id) && i <= j < |ws| && Sent(ws[i], id, key)
    ensures Sent(ws[j], id, key) || exists m | i <= m < j :: FailedByOperator(ws[m], steps[m], id)
  {
    if i < j {
      SentUntilFailed(ws, steps, i, j - 1, id, key);
      if Sent(ws[j - 1], id, key) {
        RowStepFacts(ws[j - 1], steps[j - 1], ws[j], id, key);
      }
    }
  }

  /** The tables a crash during the first call leaves after recovery: a failed row and its key, no locks. */
  function AfterCrash(req: Request, id: Id): Tables {
    Tables(map[id := NewRow(req).(state := Failed)], map[(req.key, req.params) := id], map[], map[])
  }

  lemma RecoveredFirstCall(req: Request, id: Id)
    ensures RecoverOps(Insert(EMPTY_TABLES, id, req)) == AfterCrash(req, id)
  {
    var t, t' := Insert(EMPTY_TABLES, id, req), RecoverOps(Insert(EMPTY_TABLES, id, req));
    assert t'.ops == AfterCrash(req, id).ops;
    assert t'.walletLocks == map[] && t'.jobLocks == map[];
  }

  lemma CallOverFailedRow(guard: Option<Policy>, input: Input, a: Id, b: Id, clock: Readings)
    requires Supported(input) && input.req.wallet != "" && input.policy.None? && a != b
    ensures Begin(guard, World(AfterCrash(input.req, a), NO_MEMORY, [], {a}), input, b, clock).1 == Calls(b)
  {
    var t := AfterCrash(input.req, a);
    assert DeleteOp(t, a) == EMPTY_TABLES;
    assert CreateOp(t, b, input.req) == (t, KeyExists(a));
    assert CreateOp(EMPTY_TABLES, b, input.req).1 == Inserted;
  }

  /**
   The journal never learns that a write is executing, so a crash during executeFn recovers the row to failed and the
   same request may call executeFn again, although the design promises `unknown` there.
   */
  lemma CrashDuringCallAllowsASecond(guard: Option<Policy>, input: Input, a: Id, b: Id, clock: Readings)
    requires Supported(input) && input.req.wallet != "" && input.policy.None? && a != b
    ensures exists ws, steps ::
              && Run(guard, ws, steps)
              && steps == [DoBegin(input, a, clock), DoRestart([], []), DoBegin(input, b, clock)]
              && CallsFor(guard, ws[0], steps[0], input.req.key, a)
              && CallsFor(guard, ws[2], steps[2], input.req.key, b)
  {
    var s0, s1, s2 := DoBegin(input, a, clock), DoRestart([], []), DoBegin(input, b, clock);
    var w1 := Begin(guard, START, input, a, clock).0;
    FirstCall(guard, input, a, clock);
    RecoveredFirstCall(input.req, a);
    var w2 := World(AfterCrash(input.req, a), NO_MEMORY, [], {a});
    CallOverFailedRow(guard, input, a, b, clock);
    var w3 := Begin(guard, w2, input, b, clock).0;
    assert Enabled(w1, s1) && w2 == Apply(guard, w1, s1);
    ThreeSteps(guard, [START, w1, w2, w3], [s0, s1, s2]);
  }

  lemma FirstCall(guard: Option<Policy>, input: Input, a: Id, clock: Readings)
    requires Supported(input) && input.req.wallet != "" && input.policy.None?
    ensures var (w, reply) := Begin(guard, START, input, a, clock);
            reply == Calls(a) && w.t == Insert(EMPTY_TABLES, a, input.req) && w.used == {a} && w.ledger == []
  {
  }

  lemma ThreeSteps(guard: Option<Policy>, ws: seq<World>, steps: seq<Step>)
    requires |steps| == 3 && |ws| == 4 && ws[0] == START
    requires Enabled(ws[0], steps[0]) && ws[1] == Apply(guard, ws[0], steps[0])
    requires Enabled(ws[1], steps[1]) && ws[2] == Apply(guard, ws[1], steps[1])
    requires Enabled(ws[2], steps[2]) && ws[3] == Apply(guard, ws[2], steps[2])
    ensures Run(guard, ws, steps)
  {
  }

  // ----- the declared state machine -----

  /** Over a whole run a row only moves along declared transitions, keeps a terminal state, and once gone stays gone. */
  lemma RowsFollowTheMachine(guard: Option<Policy>, ws: seq<World>, steps: seq<Step>, i: nat, j: nat, id: Id)
    requires Run(guard, ws, steps) && i <= j < |ws| && id in ws[i].used && id in ws[j].t.ops
    ensures id in ws[i].t.ops && Reaches(ws[i].t.ops[id].state, ws[j].t.ops[id].state)
    ensures Terminal(ws[i].t.ops[id].state) ==> ws[j].t.ops[id].state == ws[i].t.ops[id].state
  {
    RunHasRowHistories(guard, ws, steps, id);
    HistoryFollowsMachine(ws, steps, i, j, id);
    TerminalIsFinal(ws[i].t.ops[id].state, ws[j].t.ops[id].state);
  }

  lemma HistoryStep(ws: seq<World>, steps: seq<Step>, m: nat, id: Id)
    requires RowHistory(ws, steps, id) && m < |steps| && id in ws[m].used
    ensures id in ws[m + 1].used
    ensures id in ws[m + 1].t.ops ==> id in ws[m].t.ops && ws[m + 1].t.ops[id].state in Later(ws[m].t.ops[id].state)
  {
  }

  lemma {:induction false} HistoryFollowsMachine(ws: seq<World>, steps: seq<Step>, i: nat, j: nat, id: Id)
    requires RowHistory(ws, steps, id) && i <= j < |ws| && id in ws[i].used
    ensures id in ws[j].used
    ensures id in ws[j].t.ops ==> id in ws[i].t.ops && Reaches(ws[i].t.ops[id].state, ws[j].t.ops[id].state)
  {
    if i < j {
      HistoryFollowsMachine(ws, steps, i, j - 1, id);
      HistoryStep(ws, steps, j - 1, id);
      if id in ws[j].t.ops {
        ReachesOn(ws[i].t.ops[id].state, ws[j - 1].t.ops[id].state, ws[j].t.ops[id].state);
      }
    } else if id in ws[j].t.ops {
      Reflexive(ws[j].t.ops[id].state);
    }
  }

  lemma ReachesOn(a: OpState, b: OpState, c: OpState)
    requires Reaches(a, b) && c in Later(b)
    ensures Reaches(a, c)
  {
    LaterIsReaches(b, c);
    Transitive(a, b, c);
  }

  // ----- spending -----

  /** The clock readings of a run: in order within each call, and from each call to every later one. */
  ghost predicate Ticking(steps: seq<Step>) {
    && (forall m | 0 <= m < |steps| && steps[m].DoBegin? :: Forward(steps[m].clock))
    && forall m, n | 0 <= m < n < |steps| && steps[m].DoBegin? && steps[n].DoBegin? ::
         NotAfter(steps[m].clock.reserved, steps[n].clock.daily)
  }

  /** Step m is a call that dates its reservation so. */
  ghost predicate DatesAt(steps: seq<Step>, m: nat, on: Date) {
    m < |steps| && steps[m].DoBegin? && on == steps[m].clock.reserved
  }

  ghost predicate DatedBefore(steps: seq<Step>, i: nat, on: Date) {
    exists m: nat | m < i :: DatesAt(steps, m, on)
  }

  /** Every entry was dated by an earlier call. */
  ghost predicate DatedBy(ledger: seq<Entry>, steps: seq<Step>, i: nat) {
    forall k | 0 <= k < |ledger| :: DatedBefore(steps, i, ledger[k].on)
  }

  /**
   In every reachable world the reserved sums of every wallet, day and month are within the policy, with the clock read
   three times per call and never running backwards.
   */
  lemma {:induction false} SpendIsCapped(policy: Policy, ws: seq<World>, steps: seq<Step>, i: nat)
    requires Run(Some(policy), ws, steps) && i < |ws| && Ticking(steps)
    ensures Capped(policy, ws[i].ledger) && DatedBy(ws[i].ledger, steps, i)
  {
    if i > 0 {
      SpendIsCapped(policy, ws, steps, i - 1);
      RunKeepsInv(Some(policy), ws, steps, i - 1);
      LedgerStep(policy, ws[i - 1], steps[i - 1]);
      var e := NewEntry(policy, ws[i - 1], steps[i - 1]);
      if e.Some? {
        LedgerIsUpTo(ws[i - 1].ledger, steps, i - 1);
        ReserveKeepsCap(policy, ws[i - 1].ledger, steps[i - 1].input.policy.value, e.value, steps[i - 1].clock);
      }
      DatesGrow(ws[i - 1].ledger, e, steps, i - 1);
    }
  }

  lemma LedgerIsUpTo(ledger: seq<Entry>, steps: seq<Step>, i: nat)
    requires Ticking(steps) && DatedBy(ledger, steps, i) && i < |steps| && steps[i].DoBegin?
    ensures UpTo(ledger, steps[i].clock.daily)
  {
    forall k | 0 <= k < |ledger|
      ensures NotAfter(ledger[k].on, steps[i].clock.daily)
    {
      assert DatedBefore(steps, i, ledger[k].on);
      var m: nat :| m < i && DatesAt(steps, m, ledger[k].on);
    }
  }

  lemma DatesGrow(ledger: seq<Entry>, e: Option<Entry>, steps: seq<Step>, i: nat)
    requires DatedBy(ledger, steps, i) && i < |steps|
    requires e.Some? ==> steps[i].DoBegin? && e.value.on == steps[i].clock.reserved
    ensures DatedBy(Grown(ledger, e), steps, i + 1)
  {
    var grown := Grown(ledger, e);
    forall k | 0 <= k < |grown|
      ensures DatedBefore(steps, i + 1, grown[k].on)
    {
      if k < |ledger| {
        assert DatedBefore(steps, i, ledger[k].on);
        var m: nat :| m < i && DatesAt(steps, m, ledger[k].on);
        assert DatesAt(steps, m, grown[k].on);
      } else {
        assert DatesAt(steps, i, grown[k].on);
      }
    }
  }

  /** The entry a step appends, if any. */
  ghost function NewEntry(policy: Policy, w: World, s: Step): Option<Entry> {
    if s.DoBegin? && s.input.policy.Some? && Reserves(s.input.policy.value)
       && Begin(Some(policy), w, s.input, s.id, s.clock).1 == Calls(s.id)
    then Some(Reservation(s.input, s.input.policy.value, s.id, s.clock))
    else None
  }

  function Grown(ledger: seq<Entry>, e: Option<Entry>): seq<Entry> {
    if e.Some? then ledger + [e.value] else ledger
  }

  lemma LedgerStep(policy: Policy, w: World, s: Step)
    requires Inv(w) && Enabled(w, s)
    ensures Apply(Some(policy), w, s).ledger == Grown(w.ledger, NewEntry(policy, w, s))
    ensures NewEntry(policy, w, s).Some? ==>
              var e := NewEntry(policy, w, s).value;
              && e.operationId !in w.used
              && Guard(policy, w.ledger, e.wallet, s.input.policy.value, s.clock).Ok?
              && e.on == s.clock.reserved
              && e.amount == s.input.policy.value.amount
  {
    if s.DoBegin? {
      DecideSpec(w.t, w.m, s.input, s.id);
    }
  }

  function Reservations(entries: seq<Entry>, id: Id): nat {
    if entries == [] then 0
    else
      Reservations(entries[..|entries| - 1], id) + if entries[|entries| - 1].operationId == id then 1 else 0
  }

  lemma ReservationsGrow(entries: seq<Entry>, e: Option<Entry>, id: Id)
    ensures Reservations(Grown(entries, e), id)
         == Reservations(entries, id) + if e.Some? && e.value.operationId == id then 1 else 0
  {
    if e.Some? {
      assert (entries + [e.value])[..|entries|] == entries;
    }
  }

  /** How one step changes the ledger and the used ids, seen from one id. */
  ghost predicate EntryStep(w: World, w': World, id: Id) {
    && w.used <= w'.used
    && exists e :: w'.ledger == Grown(w.ledger, e)
                   && (e.Some? && e.value.operationId == id ==> id !in w.used && id in w'.used)
  }

  ghost predicate LedgerHistory(ws: seq<World>, id: Id) {
    forall m | 0 <= m < |ws| - 1 :: EntryStep(ws[m], ws[m + 1], id)
  }

  lemma StepIsEntryStep(policy: Policy, w: World, s: Step, id: Id)
    requires Inv(w) && Enabled(w, s)
    ensures EntryStep(w, Apply(Some(policy), w, s), id)
  {
    StepKeepsInv(Some(policy), w, s);
    LedgerStep(policy, w, s);
    var e := NewEntry(policy, w, s);
    assert Apply(Some(policy), w, s).ledger == Grown(w.ledger, e);
  }

  lemma RunHasLedgerHistory(policy: Policy, ws: seq<World>, steps: seq<Step>, id: Id)
    requires Run(Some(policy), ws, steps)
    ensures LedgerHistory(ws, id)
  {
    forall m | 0 <= m < |ws| - 1
      ensures EntryStep(ws[m], ws[m + 1], id)
    {
      RunKeepsInv(Some(policy), ws, steps, m);
      StepIsEntryStep(policy, ws[m], steps[m], id);
    }
  }

  lemma EntryStepFacts(w: World, w': World, id: Id)
    requires EntryStep(w, w', id)
    ensures w.ledger <= w'.ledger
    ensures id in w.used ==> id in w'.used && Reservations(w'.ledger, id) == Reservations(w.ledger, id)
    ensures id !in w'.used ==> id !in w.used && Reservations(w'.ledger, id) == Reservations(w.ledger, id)
  {
    var e :| w'.ledger == Grown(w.ledger, e)
             && (e.Some? && e.value.operationId == id ==> id !in w.used && id in w'.used);
    ReservationsGrow(w.ledger, e, id);
  }

  lemma {:induction false} UnusedIdHasNone(ws: seq<World>, i: nat, id: Id)
    requires LedgerHistory(ws, id) && i < |ws| && ws[0].ledger == [] && id !in ws[i].used
    ensures Reservations(ws[i].ledger, id) == 0
  {
    if i > 0 {
      EntryStepFacts(ws[i - 1], ws[i], id);
      UnusedIdHasNone(ws, i - 1, id);
    }
  }

  lemma {:induction false} UsedIdKeepsItsOwn(ws: seq<World>, i: nat, j: nat, id: Id)
    requires LedgerHistory(ws, id) && i <= j < |ws| && id in ws[i].used
    ensures id in ws[j].used && ws[i].ledger <= ws[j].ledger
    ensures Reservations(ws[j].ledger, id) == Reservations(ws[i].ledger, id)
  {
    if i < j {
      UsedIdKeepsItsOwn(ws, i, j - 1, id);
      EntryStepFacts(ws[j - 1], ws[j], id);
    }
  }

  /**
   A call under the policy that declares a non-zero amount has, from then on, exactly one reservation, of that amount,
   which the per-transaction limit allows.
   */
  lemma OneReservationPerCall(policy: Policy, ws: seq<World>, steps: seq<Step>, i: nat, j: nat)
    requires Run(Some(policy), ws, steps) && i < |steps| && i < j < |ws|
    requires steps[i].DoBegin? && steps[i].input.policy.Some? && Reserves(steps[i].input.policy.value)
    requires Begin(Some(policy), ws[i], steps[i].input, steps[i].id, steps[i].clock).1 == Calls(steps[i].id)
    ensures var id, s := steps[i].id, steps[i].input.policy.value;
            && Reservations(ws[j].ledger, id) == 1
            && Reservation(steps[i].input, s, id, steps[i].clock) in ws[j].ledger
            && UsdcToMicros(s.amount).Ok?
            && UsdcToMicros(s.amount).value <= AmountIn(UsdcToMicros(policy.perTx))
  {
    var id, s := steps[i].id, steps[i].input.policy.value;
    RunKeepsInv(Some(policy), ws, steps, i);
    LedgerStep(policy, ws[i], steps[i]);
    var e := NewEntry(policy, ws[i], steps[i]);
    RunHasLedgerHistory(policy, ws, steps, id);
    UnusedIdHasNone(ws, i, id);
    ReservationsGrow(ws[i].ledger, e, id);
    assert id in ws[i + 1].used;
    UsedIdKeepsItsOwn(ws, i + 1, j, id);
    assert ws[i + 1].ledger[|ws[i].ledger|] == e.value;
    GuardMeaning(policy, ws[i].ledger, e.value.wallet, s, steps[i].clock);
  }
}
