/** When a crash during executeFn lets the same request run again. */
module GatewayCrash {
  import opened Basics
  import opened OperationStates
  import opened Journal
  import opened Spend
  import opened Gateway
  import opened GatewayRuns
  import opened GatewayTheorems

  /** The policy, where there is one to check, admits the write. */
  predicate PolicyAdmits(guard: Option<Policy>, ledger: seq<Entry>, input: Input, clock: Readings) {
    input.policy.None? || guard.None? || Guard(guard.value, ledger, input.req.wallet, input.policy.value, clock).Ok?
  }

  predicate SameRequest(row: Row, input: Input) {
    input.req == Request(row.key, row.params, row.wallet, row.job)
  }

  /** An admitted operation with a wallet calls executeFn exactly when the policy admits it. */
  lemma ContinueCalls(guard: Option<Policy>, ledger: seq<Entry>, used: set<Id>, a: Admission, input: Input, id: Id, clock: Readings)
    requires a.reply.Some? ==> !a.reply.value.Calls?
    ensures Continue(guard, ledger, used, a, input, id, clock).1 == Calls(id) <==>
              a.reply.None? && input.req.wallet != "" && PolicyAdmits(guard, ledger, input, clock)
  {
  }

  /** After recovery the wallet and the job of an operation that was live are free, once its own row is purged. */
  lemma RecoveredLocksAreFree(t: Tables, id: Id)
    requires Sound(t) && id in t.ops && PreBroadcast(t.ops[id].state)
    ensures var t', row := DeleteOp(RecoverOps(t), id), t.ops[id];
            && (row.wallet != "" ==> Lower(row.wallet) !in t'.walletLocks)
            && (row.job != "" ==> row.job !in t'.jobLocks)
  {
    var t', row := DeleteOp(RecoverOps(t), id), t.ops[id];
    if row.wallet != "" {
      assert WantsWallet(t, id, Lower(row.wallet));
      assert Holds(t.walletLocks, Lower(row.wallet), id);
    }
    if row.job != "" {
      assert WantsJob(t, id, row.job);
      assert Holds(t.jobLocks, row.job, id);
    }
  }

  /** A request whose key a failed row holds, and whose locks are free, is admitted in its place. */
  lemma AdmittedOverFailed(t: Tables, input: Input, stale: Id, b: Id)
    requires Sound(t) && b !in t.ops && Supported(input)
    requires stale in t.ops && SameRequest(t.ops[stale], input)
    ensures Admit(t, NO_MEMORY, input, b).reply.None? <==>
              Dead(t.ops[stale].state) && CreateOp(DeleteOp(t, stale), b, input.req).1 == Inserted
    ensures Admit(t, NO_MEMORY, input, b).reply.Some? ==> !Admit(t, NO_MEMORY, input, b).reply.value.Calls?
    ensures t.ops[stale].state == Unknown ==> Admit(t, NO_MEMORY, input, b).reply == Some(NeedsReconciliation)
  {
    var q := (input.req.key, input.req.params);
    assert HasKey(t, stale, q);
    assert Holds(t.keys, q, stale);
  }

  lemma RecoveredIsAdmitted(t: Tables, input: Input, id: Id, b: Id)
    requires Sound(t) && b !in t.ops && Supported(input)
    requires id in t.ops && SameRequest(t.ops[id], input) && t.ops[id].state in {Created, Executing}
    ensures Admit(RecoverOps(t), NO_MEMORY, input, b).reply.None? <==> PreBroadcast(t.ops[id].state)
    ensures Admit(RecoverOps(t), NO_MEMORY, input, b).reply.Some? ==>
              !Admit(RecoverOps(t), NO_MEMORY, input, b).reply.value.Calls?
    ensures t.ops[id].state == Executing ==> Admit(RecoverOps(t), NO_MEMORY, input, b).reply == Some(NeedsReconciliation)
  {
    var t' := RecoverOps(t);
    RecoverKeepsSound(t);
    AdmittedOverFailed(t', input, id, b);
    if PreBroadcast(t.ops[id].state) {
      RecoveredLocksAreFree(t, id);
      DeleteKeepsSound(t', id);
    }
  }

  /**
   A process that dies while executeFn runs for an operation, in any reachable world: afterwards the same request calls
   executeFn again exactly when the row was still before `executing` at the crash, which it is unless a receipt was
   linked meanwhile, and the request passes the chain, wallet and policy checks as before. Otherwise, on a supported
   chain, it is told to reconcile, as the recovery promises.
   */
  lemma CrashRepeatsIff(guard: Option<Policy>, ws: seq<World>, steps: seq<Step>, i: nat, id: Id,
                        confirmed: seq<Id>, uncertain: seq<Id>, input: Input, b: Id, clock: Readings)
    requires Run(guard, ws, steps) && i < |ws|
    requires id in ws[i].m.ops && ws[i].m.ops[id].state == Executing
    requires Enabled(ws[i], DoRestart(confirmed, uncertain))
    requires id in ws[i].t.ops && SameRequest(ws[i].t.ops[id], input) && b !in ws[i].used
    ensures Begin(guard, Restart(ws[i], confirmed, uncertain), input, b, clock).1 == Calls(b) <==>
              && PreBroadcast(ws[i].t.ops[id].state)
              && Supported(input) && input.req.wallet != ""
              && PolicyAdmits(guard, ws[i].ledger, input, clock)
    ensures Supported(input) && !PreBroadcast(ws[i].t.ops[id].state) ==>
              Begin(guard, Restart(ws[i], confirmed, uncertain), input, b, clock).1 == NeedsReconciliation
  {
    RunKeepsInv(guard, ws, steps, i);
    CrashRepeats(guard, ws[i], id, confirmed, uncertain, input, b, clock);
  }

  lemma CrashRepeats(guard: Option<Policy>, w: World, id: Id, confirmed: seq<Id>, uncertain: seq<Id>,
                     input: Input, b: Id, clock: Readings)
    requires Inv(w) && id in w.m.ops && w.m.ops[id].state == Executing
    requires StartupRows(RecoverOps(w.t), confirmed, uncertain)
    requires id in w.t.ops && SameRequest(w.t.ops[id], input) && b !in w.used
    ensures Begin(guard, Restart(w, confirmed, uncertain), input, b, clock).1 == Calls(b) <==>
              && PreBroadcast(w.t.ops[id].state)
              && Supported(input) && input.req.wallet != ""
              && PolicyAdmits(guard, w.ledger, input, clock)
    ensures Supported(input) && !PreBroadcast(w.t.ops[id].state) ==>
              Begin(guard, Restart(w, confirmed, uncertain), input, b, clock).1 == NeedsReconciliation
  {
    var w' := Restart(w, confirmed, uncertain);
    DecidedAfterCrash(w, id, confirmed, uncertain, input, b);
    ContinueCalls(guard, w.ledger, w'.used + {b}, Decide(w'.t, w'.m, input, b), input, b, clock);
  }

  lemma DecidedAfterCrash(w: World, id: Id, confirmed: seq<Id>, uncertain: seq<Id>, input: Input, b: Id)
    requires Inv(w) && id in w.m.ops && w.m.ops[id].state == Executing
    requires StartupRows(RecoverOps(w.t), confirmed, uncertain)
    requires id in w.t.ops && SameRequest(w.t.ops[id], input) && b !in w.used
    ensures var w' := Restart(w, confirmed, uncertain);
            var a := Decide(w'.t, w'.m, input, b);
            && (a.reply.None? <==> Supported(input) && PreBroadcast(w.t.ops[id].state))
            && (a.reply.Some? ==> !a.reply.value.Calls?)
            && (Supported(input) && !PreBroadcast(w.t.ops[id].state) ==> a.reply == Some(NeedsReconciliation))
  {
    var w' := Restart(w, confirmed, uncertain);
    RestartKeepsInv(w, confirmed, uncertain);
    assert RecOk(w.t, w.m, id);
    if Supported(input) {
      DecideLikeCold(w'.t, w'.m, input, b);
      ColdDecision(w'.t, input, b);
      RecoveredIsAdmitted(w.t, input, id, b);
    } else {
      UnsupportedIsAnswered(w'.t, w'.m, input, b);
    }
  }

  lemma UnsupportedIsAnswered(t: Tables, m: Memory, input: Input, b: Id)
    requires !Supported(input)
    ensures var a := Decide(t, m, input, b); a.reply.Some? && !a.reply.value.Calls?
  {
  }
}
