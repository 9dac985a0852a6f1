/**
 The transaction hash a replay reports. reconcileBroadcast takes a hash into memory for every outcome but into the
 journal only for confirmed; in runs where it never brings a new hash with another outcome, memory and journal agree on
 hashes too, and then the in-memory maps do not show even in the hash of a replay.
 */
module GatewayHashes {
  import opened Basics
  import opened OperationStates
  import opened Journal
  import opened Spend
  import opened WriteResults
  import opened Gateway
  import opened GatewayRuns
  import opened GatewayTheorems

  /** Memory and journal report the same hash for every operation in memory; an executing one has none yet. */
  ghost predicate HashesAgree(w: World) {
    forall id | id in w.m.ops && id in w.t.ops ::
      && Truthy(w.m.ops[id].tx) == Truthy(w.t.ops[id].tx)
      && (w.m.ops[id].state == Executing ==> Truthy(w.t.ops[id].tx) == None)
  }

  /** reconcileBroadcast keeps the agreement exactly when it passes no new hash with an outcome other than confirmed. */
  lemma ReconcileKeepsHashesIff(w: World, id: Id, outcome: Reconciliation, tx: Option<string>)
    requires Inv(w) && HashesAgree(w)
    ensures HashesAgree(Reconcile(w, id, outcome, tx)) <==>
            !(Reconcilable(w.m, id) && outcome != AsConfirmed && Truthy(tx).Some?
              && Truthy(tx) != Truthy(w.m.ops[id].tx))
  {
    if Reconcilable(w.m, id) {
      assert RecOk(w.t, w.m, id);
      var w' := Reconcile(w, id, outcome, tx);
      var tx' := if outcome == AsConfirmed then Truthy(tx) else None;
      ReconcileIsFinalize(w.t, id, outcome, tx);
      forall i
        ensures i in w'.t.ops <==> i in w.t.ops
        ensures i in w.t.ops ==> w'.t.ops[i].tx == if i == id && tx'.Some? then tx' else w.t.ops[i].tx
      {
        FinalizedHash(w.t, id, Reconciled(outcome), tx', i);
      }
      assert id in w'.m.ops && id in w'.t.ops;
    }
  }

  /** The step is a reconciliation that brings a new hash with an outcome other than confirmed. */
  ghost predicate BringsStrayHash(w: World, s: Step) {
    && s.DoReconcile? && Reconcilable(w.m, s.id) && s.outcome != AsConfirmed
    && Truthy(s.tx).Some? && Truthy(s.tx) != Truthy(w.m.ops[s.id].tx)
  }

  /** One operation agrees; it need not be in both. */
  ghost predicate HashAgrees(t: Tables, m: Memory, id: Id) {
    id in m.ops && id in t.ops ==>
      && Truthy(m.ops[id].tx) == Truthy(t.ops[id].tx)
      && (m.ops[id].state == Executing ==> Truthy(t.ops[id].tx) == None)
  }

  lemma AgreeingEach(w: World)
    ensures HashesAgree(w) <==> forall id :: HashAgrees(w.t, w.m, id)
  {
    if HashesAgree(w) {
      forall id
        ensures HashAgrees(w.t, w.m, id)
      {
      }
    }
    if forall id :: HashAgrees(w.t, w.m, id) {
      forall id | id in w.m.ops && id in w.t.ops
        ensures Truthy(w.m.ops[id].tx) == Truthy(w.t.ops[id].tx)
        ensures w.m.ops[id].state == Executing ==> Truthy(w.t.ops[id].tx) == None
      {
        assert HashAgrees(w.t, w.m, id);
      }
    }
  }

  /** The decision adds at most one record to memory and changes no other. */
  lemma AdmitMemory(t: Tables, m: Memory, input: Input, id: Id, i: Id)
    requires i != id && i in Admit(t, m, input, id).m.ops
    ensures i in m.ops && Admit(t, m, input, id).m.ops[i] == m.ops[i]
  {
  }

  lemma DecideMemory(t: Tables, m: Memory, input: Input, id: Id, i: Id)
    requires i != id && i in Decide(t, m, input, id).m.ops
    ensures i in m.ops && Decide(t, m, input, id).m.ops[i] == m.ops[i]
  {
    match ConsultMemory(m, InputKey(input))
    case Answer(_) =>
    case Miss => AdmitMemory(t, m, input, id, i);
    case Purge(stale) => AdmitMemory(DeleteOp(t, stale), Forget(m, stale, InputKey(input)), input, id, i);
  }

  lemma DecideKeepsHash(t: Tables, m: Memory, input: Input, id: Id, i: Id)
    requires Sound(t) && MemOk(t, m) && id !in t.ops && HashAgrees(t, m, i)
    ensures var a := Decide(t, m, input, id);
            && HashAgrees(a.t, a.m, i)
            && (i == id && a.reply.None? ==>
                  i in a.t.ops && a.t.ops[i].tx == None && i in a.m.ops && a.m.ops[i].tx == None)
  {
    var a := Decide(t, m, input, id);
    DecideSpec(t, m, input, id);
    if i == id {
      if a.reply.None? {
        assert Admitted(t, a, input, id);
      }
    } else if i in a.m.ops && i in a.t.ops {
      DecideMemory(t, m, input, id, i);
    }
  }

  lemma BeginKeepsHash(guard: Option<Policy>, w: World, input: Input, id: Id, clock: Readings, i: Id)
    requires Inv(w) && id !in w.used && HashAgrees(w.t, w.m, i)
    ensures var w' := Begin(guard, w, input, id, clock).0; HashAgrees(w'.t, w'.m, i)
  {
    var a := Decide(w.t, w.m, input, id);
    DecideKeepsHash(w.t, w.m, input, id, i);
    ContinueKeepsHash(guard, w.ledger, w.used + {id}, a, input, id, clock, i);
  }

  lemma ContinueKeepsHash(guard: Option<Policy>, ledger: seq<Entry>, used: set<Id>, a: Admission, input: Input, id: Id,
                          clock: Readings, i: Id)
    requires HashAgrees(a.t, a.m, i)
    requires i == id && a.reply.None? ==> i in a.t.ops && a.t.ops[i].tx == None && i in a.m.ops && a.m.ops[i].tx == None
    ensures var w' := Continue(guard, ledger, used, a, input, id, clock).0; HashAgrees(w'.t, w'.m, i)
  {
    if i in a.t.ops {
      FinalizedHash(a.t, id, Failed, None, i);
    }
  }

  lemma FinalizedHash(t: Tables, id: Id, state: OpState, tx: Option<string>, i: Id)
    ensures i in FinalizeOp(t, id, state, tx).ops <==> i in t.ops
    ensures i in t.ops ==>
              FinalizeOp(t, id, state, tx).ops[i].tx == if i == id && tx.Some? then tx else t.ops[i].tx
  {
    ReleaseKeepsRows(SetState(t, id, state, tx), id);
  }

  lemma FinishKeepsHash(w: World, id: Id, attempt: Attempt, i: Id)
    requires HashAgrees(w.t, w.m, i) && id in w.m.ops && w.m.ops[id].state == Executing
    ensures var w' := Finish(w, id, attempt); HashAgrees(w'.t, w'.m, i)
  {
    FinalizedHash(w.t, id, Classify(attempt), AttemptTx(attempt), i);
    ClassificationIsConservative(attempt);
  }

  lemma {:induction false} LoadedHash(t: Tables, m: Memory, ids: seq<Id>, i: Id)
    requires forall k | 0 <= k < |ids| :: ids[k] in t.ops && t.ops[ids[k]].state != Executing
    requires HashAgrees(t, m, i)
    ensures HashAgrees(t, LoadAll(t, m, ids), i)
  {
    if ids != [] {
      LoadedHash(t, m, ids[..|ids| - 1], i);
    }
  }

  lemma RestartKeepsHash(w: World, confirmed: seq<Id>, uncertain: seq<Id>, i: Id)
    requires StartupRows(RecoverOps(w.t), confirmed, uncertain)
    ensures var w' := Restart(w, confirmed, uncertain); HashAgrees(w'.t, w'.m, i)
  {
    LoadedHash(RecoverOps(w.t), NO_MEMORY, confirmed, i);
    LoadedHash(RecoverOps(w.t), LoadAll(RecoverOps(w.t), NO_MEMORY, confirmed), uncertain, i);
  }

  lemma ReceiptKeepsHash(w: World, id: Id, i: Id)
    requires HashAgrees(w.t, w.m, i)
    ensures var w' := StoreReceipt(w, id); HashAgrees(w'.t, w'.m, i)
  {
    FinalizedHash(w.t, id, if id in w.m.ops then w.m.ops[id].state else Confirmed, None, i);
  }

  lemma StepKeepsHash(guard: Option<Policy>, w: World, s: Step, i: Id)
    requires Inv(w) && Enabled(w, s) && HashAgrees(w.t, w.m, i) && !s.DoReconcile?
    ensures HashAgrees(Apply(guard, w, s).t, Apply(guard, w, s).m, i)
  {
    match s
    case DoBegin(input, id, clock) => BeginKeepsHash(guard, w, input, id, clock, i);
    case CrashInBegin(input, id, created, confirmed, uncertain) =>
      RestartKeepsHash(w.(t := CrashTables(w, input, id, created), used := w.used + {id}), confirmed, uncertain, i);
    case DoFinish(id, attempt) => FinishKeepsHash(w, id, attempt, i);
    case DoStoreReceipt(id) => ReceiptKeepsHash(w, id, i);
    case DoRestart(confirmed, uncertain) => RestartKeepsHash(w, confirmed, uncertain, i);
  }

  lemma StepKeepsHashes(guard: Option<Policy>, w: World, s: Step)
    requires Inv(w) && Enabled(w, s) && HashesAgree(w) && !BringsStrayHash(w, s)
    ensures HashesAgree(Apply(guard, w, s))
  {
    if s.DoReconcile? {
      ReconcileKeepsHashesIff(w, s.id, s.outcome, s.tx);
    } else {
      AgreeingEach(w);
      forall i
        ensures HashAgrees(Apply(guard, w, s).t, Apply(guard, w, s).m, i)
      {
        StepKeepsHash(guard, w, s, i);
      }
      AgreeingEach(Apply(guard, w, s));
    }
  }

  /** The run brings no stray hash before its world i. */
  ghost predicate NoStrayHash(ws: seq<World>, steps: seq<Step>, i: nat) {
    forall m | 0 <= m < i && m < |steps| && m < |ws| :: !BringsStrayHash(ws[m], steps[m])
  }

  /** In every run without a stray hash memory and journal agree on all hashes. */
  lemma {:induction false} RunsAgreeOnHashes(guard: Option<Policy>, ws: seq<World>, steps: seq<Step>, i: nat)
    requires Run(guard, ws, steps) && i < |ws| && NoStrayHash(ws, steps, i)
    ensures HashesAgree(ws[i])
  {
    if i > 0 {
      RunsAgreeOnHashes(guard, ws, steps, i - 1);
      RunKeepsInv(guard, ws, steps, i - 1);
      StepKeepsHashes(guard, ws[i - 1], steps[i - 1]);
    }
  }

  lemma DecideExactlyLikeCold(t: Tables, m: Memory, input: Input, id: Id)
    requires Sound(t) && MemOk(t, m) && id !in t.ops && Supported(input)
    requires forall i :: HashAgrees(t, m, i)
    ensures Decide(t, m, input, id).reply == Decide(t, NO_MEMORY, input, id).reply
  {
    DecideLikeCold(t, m, input, id);
    if ConsultMemory(m, InputKey(input)).Answer? {
      ColdDecision(t, input, id);
      AnswerExactly(t, m, input, id);
    }
  }

  /** An answer of memory names the hash of the row. */
  lemma AnswerExactly(t: Tables, m: Memory, input: Input, id: Id)
    requires Sound(t) && MemOk(t, m) && Supported(input) && ConsultMemory(m, InputKey(input)).Answer?
    requires forall i :: HashAgrees(t, m, i)
    ensures Decide(t, m, input, id).reply == Admit(t, NO_MEMORY, input, id).reply
  {
    MemoryHit(t, m, input);
    assert HashAgrees(t, m, m.index[InputKey(input)]);
  }

  /**
   In such runs the maps do not show at all: on a supported chain a call gets the very reply, hash included, that it
   would get with both maps empty.
   */
  lemma MemoryDoesNotShow(guard: Option<Policy>, ws: seq<World>, steps: seq<Step>, i: nat,
                          input: Input, id: Id, clock: Readings)
    requires Run(guard, ws, steps) && i < |ws| && NoStrayHash(ws, steps, i)
    requires Supported(input) && id !in ws[i].used
    ensures Begin(guard, ws[i], input, id, clock).1 == Begin(guard, ws[i].(m := NO_MEMORY), input, id, clock).1
  {
    RunKeepsInv(guard, ws, steps, i);
    RunsAgreeOnHashes(guard, ws, steps, i);
    AgreeingEach(ws[i]);
    DecideExactlyLikeCold(ws[i].t, ws[i].m, input, id);
    MemoryIsOnlyACache(guard, ws, steps, i, input, id, clock);
    SameReplyUnlessReplay(guard, ws[i].ledger, ws[i].used + {id}, Decide(ws[i].t, ws[i].m, input, id), input, id, clock);
    SameReplyUnlessReplay(guard, ws[i].ledger, ws[i].used + {id}, Decide(ws[i].t, NO_MEMORY, input, id), input, id, clock);
  }

  /** A replay can only come from the decision. */
  lemma SameReplyUnlessReplay(guard: Option<Policy>, ledger: seq<Entry>, used: set<Id>, a: Admission, input: Input, id: Id,
                              clock: Readings)
    ensures a.reply.Some? ==> Continue(guard, ledger, used, a, input, id, clock).1 == a.reply.value
    ensures a.reply.None? ==> !Continue(guard, ledger, used, a, input, id, clock).1.Replay?
  {
  }

  /** The first call is made with these maps; then a time-out, and a reconciliation as failed with a hash. */
  lemma PartingRun(guard: Option<Policy>, w1: World, first: Step, id: Id, timeout: Attempt, tx: Option<string>)
    returns (ws: seq<World>)
    requires first.DoBegin? && Enabled(START, first) && w1 == Apply(guard, START, first)
    requires id in w1.m.ops && w1.m.ops[id].state == Executing && w1.m.ops[id].tx == None
    requires timeout.Threw? && timeout.error.name == "AbortError" && Truthy(tx).Some?
    ensures Run(guard, ws, [first, DoFinish(id, timeout), DoReconcile(id, AsFailed, tx)])
    ensures HashesAgree(ws[2]) && !HashesAgree(ws[3])
  {
    var w2 := Finish(w1, id, timeout);
    ws := [START, w1, w2, Reconcile(w2, id, AsFailed, tx)];
    var steps := [first, DoFinish(id, timeout), DoReconcile(id, AsFailed, tx)];
    ThreeSteps(guard, ws, steps);
    RunsAgreeOnHashes(guard, ws, steps, 2);
    RunKeepsInv(guard, ws, steps, 2);
    StrayHash(w1, id, timeout, tx);
  }

  /** Such a run exists: a write that timed out is reconciled as failed, with the hash the operator found. */
  lemma HashesPart(guard: Option<Policy>, input: Input, a: Id, clock: Readings, timeout: Attempt)
    returns (ws: seq<World>)
    requires Supported(input) && input.req.wallet != "" && input.policy.None?
    requires timeout == Threw(CliError("AbortError", false, "", ""))
    ensures Run(guard, ws, [DoBegin(input, a, clock), DoFinish(a, timeout), DoReconcile(a, AsFailed, Some("0x1"))])
    ensures HashesAgree(ws[2]) && !HashesAgree(ws[3])
  {
    var first := DoBegin(input, a, clock);
    FirstCallInMemory(guard, input, a, clock);
    ws := PartingRun(guard, Apply(guard, START, first), first, a, timeout, Some("0x1"));
  }

  lemma StrayHash(w: World, id: Id, timeout: Attempt, tx: Option<string>)
    requires id in w.m.ops && timeout.Threw? && timeout.error.name == "AbortError" && Truthy(tx).Some?
    requires Truthy(w.m.ops[id].tx) != Truthy(tx)
    requires var w' := Finish(w, id, timeout); Inv(w') && HashesAgree(w')
    ensures !HashesAgree(Reconcile(Finish(w, id, timeout), id, AsFailed, tx))
  {
    var w' := Finish(w, id, timeout);
    assert w'.m.ops[id].state == Unknown && w'.m.ops[id].tx == w.m.ops[id].tx;
    ReconcileKeepsHashesIff(w', id, AsFailed, tx);
  }
}
