/** What each step of the gateway leaves in the rows, the memory and the ledger, and that a success is replayed for ever. */
module GatewayEffects {
  import opened Basics
  import opened OperationStates
  import opened Journal
  import opened Spend
  import opened WriteResults
  import opened Gateway
  import opened GatewayRuns
  import opened GatewayTheorems
  import opened GatewayHashes
  import opened GatewayAnswers

  // ----- a call up to executeFn -----

  ghost predicate Admits(w: World, input: Input) {
    KeyFree(w.t, input) && !Blocked(w.t, input)
  }

  /** The row of the request that failed or was cancelled before; the call purges it, admitted or not. */
  ghost predicate Stale(t: Tables, i: Id, input: Input) {
    SameCall(t, i, input) && t.ops[i].state in {Failed, Cancelled}
  }

  /** What the idempotency part leaves: the stale row goes, the new one comes, every other row is as before. */
  ghost predicate RightTables(t: Tables, t': Tables, input: Input, id: Id, admitted: bool) {
    && (forall i | i in t.ops :: if Stale(t, i, input) then i !in t'.ops else i in t'.ops && t'.ops[i] == t.ops[i])
    && (forall i | i in t'.ops :: i in t.ops || i == id)
    && (id in t'.ops <==> admitted)
    && (admitted ==> t'.ops[id] == Row(input.req.key, input.req.params, input.req.wallet, input.req.job, Created, None))
  }

  lemma DeleteTables(t: Tables, stale: Id, i: Id)
    ensures i in DeleteOp(t, stale).ops <==> i in t.ops && i != stale
    ensures i in t.ops && i != stale ==> DeleteOp(t, stale).ops[i] == t.ops[i]
  {
  }

  /** An admission without purge changes no row but the new one. */
  lemma CreateTables(t: Tables, id: Id, r: Request, i: Id)
    requires id !in t.ops
    ensures var (t', result) := CreateOp(t, id, r);
            && (i != id ==> (i in t'.ops <==> i in t.ops) && (i in t.ops ==> t'.ops[i] == t.ops[i]))
            && (id in t'.ops <==> result == Inserted)
            && (result == Inserted ==> t'.ops[id] == Row(r.key, r.params, r.wallet, r.job, Created, None))
  {
  }

  lemma NoStaleTables(t: Tables, input: Input, id: Id)
    requires Sound(t) && Supported(input) && id !in t.ops && forall i :: !Stale(t, i, input)
    ensures var a := Admit(t, NO_MEMORY, input, id); RightTables(t, a.t, input, id, a.reply.None?)
  {
    KeysShowRows(t, input);
    var a := Admit(t, NO_MEMORY, input, id);
    var q := (input.req.key, input.req.params);
    if q in t.keys {
      assert Holds(t.keys, q, t.keys[q]);
      assert SameCall(t, t.keys[q], input) && !Stale(t, t.keys[q], input);
    }
    forall i
      ensures i in t.ops ==> i in a.t.ops && a.t.ops[i] == t.ops[i]
      ensures i in a.t.ops ==> i in t.ops || i == id
    {
      CreateTables(t, id, input.req, i);
    }
  }

  lemma StaleTables(t: Tables, input: Input, id: Id, stale: Id)
    requires Sound(t) && Supported(input) && id !in t.ops && Stale(t, stale, input)
    ensures var a := Admit(t, NO_MEMORY, input, id); RightTables(t, a.t, input, id, a.reply.None?)
  {
    KeysShowRows(t, input);
    assert Holds(t.keys, (input.req.key, input.req.params), stale);
    var a, purged := Admit(t, NO_MEMORY, input, id), DeleteOp(t, stale);
    forall i
      ensures i in t.ops && i != stale ==> i in a.t.ops && a.t.ops[i] == t.ops[i] && !Stale(t, i, input)
      ensures i in a.t.ops ==> (i in t.ops && i != stale) || i == id
    {
      DeleteTables(t, stale, i);
      CreateTables(purged, id, input.req, i);
    }
    CreateTables(purged, id, input.req, id);
  }

  lemma DecideTables(t: Tables, m: Memory, input: Input, id: Id)
    requires Sound(t) && MemOk(t, m) && Supported(input) && id !in t.ops
    ensures var a := Decide(t, m, input, id); RightTables(t, a.t, input, id, a.reply.None?)
  {
    DecideLikeCold(t, m, input, id);
    ColdDecision(t, input, id);
    if stale :| Stale(t, stale, input) {
      StaleTables(t, input, id, stale);
    } else {
      NoStaleTables(t, input, id);
    }
  }

  /** The reservation a call makes: none without a policy, or for the amounts "" and "0". */
  ghost predicate RightLedger(guard: Option<Policy>, w: World, input: Input, id: Id, clock: Readings, called: bool,
                              ledger: seq<Entry>)
  {
    if called && guard.Some? && input.policy.Some? && input.policy.value.amount !in {"", "0"} then
      ledger == w.ledger + [Entry(input.req.wallet, input.policy.value.amount, EntryReserved, id, input.req.key, clock.reserved)]
    else ledger == w.ledger
  }

  /** What memory says of the new operation: executing when executeFn is called, failed without a wallet. */
  ghost predicate RightRecord(input: Input, id: Id, reply: Reply, m: Memory) {
    if reply == Calls(id) then id in m.ops && m.ops[id] == Rec(input.req.key, input.req.params, Executing, None)
    else if reply.WalletMissing? then id in m.ops && m.ops[id] == Rec(input.req.key, input.req.params, Failed, None)
    else if reply.Refused? then id in m.ops && m.ops[id] == Rec(input.req.key, input.req.params, Created, None)
    else true
  }

  /** A call whose request is admitted leaves a new row: created, or failed when it names no wallet. */
  ghost predicate RightRows(w: World, t': Tables, input: Input, id: Id) {
    && (forall i | i in w.t.ops :: if Stale(w.t, i, input) then i !in t'.ops else i in t'.ops && t'.ops[i] == w.t.ops[i])
    && (forall i | i in t'.ops :: i in w.t.ops || i == id)
    && (id in t'.ops <==> Admits(w, input))
    && (id in t'.ops ==>
          t'.ops[id] == Row(input.req.key, input.req.params, input.req.wallet, input.req.job,
                            if input.req.wallet == "" then Failed else Created, None))
  }

  lemma ContinueLeaves(guard: Option<Policy>, w: World, used: set<Id>, a: Admission, input: Input, id: Id, clock: Readings)
    requires id !in w.t.ops && RightTables(w.t, a.t, input, id, a.reply.None?) && (a.reply.None? <==> Admits(w, input))
    requires a.reply.None? ==> id in a.m.ops && a.m.ops[id] == Rec(input.req.key, input.req.params, Created, None)
    requires a.reply.Some? ==> a.reply.value.Replay? || a.reply.value in {InProgress, NeedsReconciliation, KeyReused, LockConflict}
    ensures var (w', reply) := Continue(guard, w.ledger, used, a, input, id, clock);
            && RightRows(w, w'.t, input, id)
            && RightLedger(guard, w, input, id, clock, reply == Calls(id), w'.ledger)
            && RightRecord(input, id, reply, w'.m)
  {
    var (w', reply) := Continue(guard, w.ledger, used, a, input, id, clock);
    if a.reply.None? && input.req.wallet == "" {
      forall i
        ensures i in w'.t.ops <==> i in a.t.ops
        ensures i in a.t.ops ==> w'.t.ops[i] == if i == id then a.t.ops[i].(state := Failed) else a.t.ops[i]
      {
        FinalizedRowExactly(a.t, id, Failed, None, i);
      }
    }
  }

  /** The whole row after a finalize. */
  lemma FinalizedRowExactly(t: Tables, id: Id, state: OpState, tx: Option<string>, i: Id)
    ensures i in FinalizeOp(t, id, state, tx).ops <==> i in t.ops
    ensures i in t.ops ==>
              FinalizeOp(t, id, state, tx).ops[i] ==
                if i == id then t.ops[i].(state := state, tx := if tx.Some? then tx else t.ops[i].tx) else t.ops[i]
  {
    ReleaseKeepsRows(SetState(t, id, state, tx), id);
  }

  lemma DecisionIsPlain(t: Tables, m: Memory, input: Input, id: Id)
    requires Supported(input)
    ensures var reply := Decide(t, m, input, id).reply;
            reply.Some? ==> reply.value.Replay? || reply.value in {InProgress, NeedsReconciliation, KeyReused, LockConflict}
  {
  }

  /** What execute leaves, up to the call of executeFn, in every reachable world. */
  lemma ExecuteLeaves(guard: Option<Policy>, ws: seq<World>, steps: seq<Step>, i: nat, input: Input, id: Id, clock: Readings)
    requires Run(guard, ws, steps) && i < |ws| && Supported(input) && id !in ws[i].used
    ensures var (w', reply) := Begin(guard, ws[i], input, id, clock);
            && RightRows(ws[i], w'.t, input, id)
            && RightLedger(guard, ws[i], input, id, clock, reply == Calls(id), w'.ledger)
            && RightRecord(input, id, reply, w'.m)
  {
    var w := ws[i];
    RunKeepsInv(guard, ws, steps, i);
    DecisionIsRight(w.t, w.m, input, id);
    DecisionSplits(w.t, w.m, input, id);
    DecideTables(w.t, w.m, input, id);
    DecideSpec(w.t, w.m, input, id);
    DecisionIsPlain(w.t, w.m, input, id);
    ContinueLeaves(guard, w, w.used + {id}, Decide(w.t, w.m, input, id), input, id, clock);
  }

  /** The right decision admits only a free key that nothing blocks. */
  lemma DecisionSplits(t: Tables, m: Memory, input: Input, id: Id)
    requires Sound(t) && RightDecision(t, input, Decide(t, m, input, id).reply)
    ensures Decide(t, m, input, id).reply.None? <==> KeyFree(t, input) && !Blocked(t, input)
  {
    var reply := Decide(t, m, input, id).reply;
    if !KeyFree(t, input) && !KeyTaken(t, input) {
      var i :| i in t.ops && t.ops[i].key == input.req.key
               && !(t.ops[i].params == input.req.params && t.ops[i].state in {Failed, Cancelled});
      assert SameCall(t, i, input);
      assert reply.Some?;
    }
  }

  // ----- the other steps -----

  /** Settling changes the operation's own row and record, and nothing else. */
  lemma FinishLeaves(w: World, id: Id, attempt: Attempt, i: Id)
    requires id in w.t.ops && id in w.m.ops
    ensures var w' := Finish(w, id, attempt);
            && w'.ledger == w.ledger && w'.used == w.used && w'.m.index == w.m.index
            && (i in w'.t.ops <==> i in w.t.ops) && (i in w'.m.ops <==> i in w.m.ops)
            && (i != id && i in w.t.ops ==> w'.t.ops[i] == w.t.ops[i])
            && (i != id && i in w.m.ops ==> w'.m.ops[i] == w.m.ops[i])
            && w'.t.ops[id].state == Classify(attempt) && w'.m.ops[id].state == Classify(attempt)
            && (Truthy(AttemptTx(attempt)).Some? ==>
                  w'.t.ops[id].tx == AttemptTx(attempt) && w'.m.ops[id].tx == AttemptTx(attempt))
  {
    FinalizedRowExactly(w.t, id, Classify(attempt), AttemptTx(attempt), i);
    FinalizedRowExactly(w.t, id, Classify(attempt), AttemptTx(attempt), id);
  }

  /**
   An operator's reconciliation changes a row only when memory has it as broadcast or unknown; then it takes the state
   the operator gives, and the hash for confirmed.
   */
  lemma ReconcileLeaves(w: World, id: Id, outcome: Reconciliation, tx: Option<string>, i: Id)
    requires Inv(w) && i in w.t.ops
    ensures var row := Reconcile(w, id, outcome, tx).t.ops;
            i in row
            && if i == id && id in w.m.ops && w.m.ops[id].state in {Broadcast, Unknown} then
                 && row[i].state == (match outcome case AsConfirmed => Confirmed case AsFailed => Failed case AsUnknown => Unknown)
                 && row[i].tx == (if outcome == AsConfirmed && tx.Some? && tx.value != "" then tx else w.t.ops[i].tx)
                 && row[i].key == w.t.ops[i].key && row[i].params == w.t.ops[i].params
                 && row[i].wallet == w.t.ops[i].wallet && row[i].job == w.t.ops[i].job
               else row[i] == w.t.ops[i]
  {
    if Reconcilable(w.m, id) {
      ReconcileIsFinalize(w.t, id, outcome, tx);
      FinalizedRowExactly(w.t, id, Reconciled(outcome), if outcome == AsConfirmed then Truthy(tx) else None, i);
    }
  }

  /** A receipt writes the state memory has, or confirmed, into the operation's row. */
  lemma ReceiptLeaves(w: World, id: Id, i: Id)
    requires i in w.t.ops
    ensures var w' := StoreReceipt(w, id);
            && i in w'.t.ops && w'.m == w.m
            && (i != id ==> w'.t.ops[i] == w.t.ops[i])
            && (i == id ==>
                  w'.t.ops[i] == w.t.ops[i].(state := if id in w.m.ops then w.m.ops[id].state else Confirmed))
  {
    FinalizedRowExactly(w.t, id, if id in w.m.ops then w.m.ops[id].state else Confirmed, None, i);
  }

  lemma {:induction false} LoadedRecord(t: Tables, m: Memory, ids: seq<Id>, i: Id)
    requires forall k | 0 <= k < |ids| :: ids[k] in t.ops
    ensures i in ids ==>
              i in LoadAll(t, m, ids).ops
              && LoadAll(t, m, ids).ops[i] == Rec(t.ops[i].key, t.ops[i].params, t.ops[i].state, t.ops[i].tx)
    ensures i !in ids ==>
              (i in LoadAll(t, m, ids).ops <==> i in m.ops) && (i in m.ops ==> LoadAll(t, m, ids).ops[i] == m.ops[i])
  {
    if ids != [] {
      var init, last := ids[..|ids| - 1], ids[|ids| - 1];
      LoadedRecord(t, m, init, i);
      assert ids == init + [last];
    }
  }

  /**
   A restart fails what was not yet executing, makes unknown what was, keeps every other row, and brings every uncertain
   row back into memory as it stands.
   */
  lemma RestartLeaves(w: World, confirmed: seq<Id>, uncertain: seq<Id>, i: Id)
    requires StartupRows(RecoverOps(w.t), confirmed, uncertain) && i in w.t.ops
    ensures var w' := Restart(w, confirmed, uncertain);
            && i in w'.t.ops && w'.ledger == w.ledger && w'.used == w.used
            && w'.t.ops[i] == w.t.ops[i].(state := if w.t.ops[i].state in {Created, Prepared, Reserved} then Failed
                                                   else if w.t.ops[i].state == Executing then Unknown
                                                   else w.t.ops[i].state)
            && (w'.t.ops[i].state in {Broadcast, Unknown} ==>
                  i in w'.m.ops && w'.m.ops[i] == Rec(w.t.ops[i].key, w.t.ops[i].params, w'.t.ops[i].state, w.t.ops[i].tx))
  {
    LoadedRecord(RecoverOps(w.t), LoadAll(RecoverOps(w.t), NO_MEMORY, confirmed), uncertain, i);
  }

  // ----- a success is replayed for ever -----

  /** The operation is confirmed with this hash, and memory, where it knows the operation, has the same. */
  ghost predicate SettledWith(w: World, id: Id, key: string, params: Hash, tx: string) {
    && id in w.t.ops && w.t.ops[id].key == key && w.t.ops[id].params == params
    && w.t.ops[id].state == Confirmed && w.t.ops[id].tx == Some(tx) && tx != ""
    && HashAgrees(w.t, w.m, id)
  }

  lemma BeginKeepsSettled(guard: Option<Policy>, w: World, input: Input, b: Id, clock: Readings,
                          id: Id, key: string, params: Hash, tx: string)
    requires Inv(w) && b !in w.used && SettledWith(w, id, key, params, tx)
    ensures SettledWith(Begin(guard, w, input, b, clock).0, id, key, params, tx)
  {
    DecideSpec(w.t, w.m, input, b);
    BeginEffect(guard, w, input, b, clock);
    FinalizedRowExactly(Decide(w.t, w.m, input, b).t, b, Failed, None, id);
    BeginKeepsHash(guard, w, input, b, clock, id);
  }

  lemma RestartKeepsSettled(w: World, t: Tables, used: set<Id>, confirmed: seq<Id>, uncertain: seq<Id>,
                            id: Id, key: string, params: Hash, tx: string)
    requires SettledWith(w, id, key, params, tx) && id in t.ops && t.ops[id] == w.t.ops[id]
    requires StartupRows(RecoverOps(t), confirmed, uncertain)
    ensures SettledWith(Restart(w.(t := t, used := used), confirmed, uncertain), id, key, params, tx)
  {
    RestartLeaves(w.(t := t, used := used), confirmed, uncertain, id);
    RestartKeepsHash(w.(t := t, used := used), confirmed, uncertain, id);
  }

  lemma WriteKeepsSettled(guard: Option<Policy>, w: World, s: Step, id: Id, key: string, params: Hash, tx: string)
    requires Inv(w) && Enabled(w, s) && SettledWith(w, id, key, params, tx)
    requires s.DoFinish? || s.DoReconcile? || s.DoStoreReceipt?
    ensures SettledWith(Apply(guard, w, s), id, key, params, tx)
  {
    assert id in w.m.ops ==> RecOk(w.t, w.m, id);
    match s {
      case DoFinish(who, attempt) =>
        FinalizedRowExactly(w.t, who, Classify(attempt), AttemptTx(attempt), id);
        FinishKeepsHash(w, who, attempt, id);
      case DoReconcile(who, outcome, hash) =>
        ReconcileLeaves(w, who, outcome, hash, id);
      case DoStoreReceipt(who) =>
        ReceiptLeaves(w, who, id);
        ReceiptKeepsHash(w, who, id);
      case _ =>
    }
  }

  lemma StepKeepsSettled(guard: Option<Policy>, w: World, s: Step, id: Id, key: string, params: Hash, tx: string)
    requires Inv(w) && Enabled(w, s) && SettledWith(w, id, key, params, tx)
    ensures SettledWith(Apply(guard, w, s), id, key, params, tx)
  {
    match s {
      case DoBegin(input, b, clock) => BeginKeepsSettled(guard, w, input, b, clock, id, key, params, tx);
      case CrashInBegin(input, b, created, confirmed, uncertain) =>
        CrashTablesSpec(w, input, b, created);
        RestartKeepsSettled(w, CrashTables(w, input, b, created), w.used + {b}, confirmed, uncertain, id, key, params, tx);
      case DoRestart(confirmed, uncertain) =>
        RestartKeepsSettled(w, w.t, w.used, confirmed, uncertain, id, key, params, tx);
      case _ => WriteKeepsSettled(guard, w, s, id, key, params, tx);
    }
  }

  lemma {:induction false} SettledForEver(guard: Option<Policy>, ws: seq<World>, steps: seq<Step>, j: nat, k: nat,
                                          id: Id, key: string, params: Hash, tx: string)
    requires Run(guard, ws, steps) && j <= k < |ws| && SettledWith(ws[j], id, key, params, tx)
    ensures SettledWith(ws[k], id, key, params, tx)
    decreases k - j
  {
    if j < k {
      SettledForEver(guard, ws, steps, j, k - 1, id, key, params, tx);
      RunKeepsInv(guard, ws, steps, k - 1);
      StepKeepsSettled(guard, ws[k - 1], steps[k - 1], id, key, params, tx);
    }
  }

  /** A settled operation is replayed with its hash, whatever memory holds. */
  lemma SettledIsReplayed(guard: Option<Policy>, w: World, input: Input, b: Id, clock: Readings, id: Id, tx: string)
    requires Inv(w) && b !in w.used && Supported(input) && SettledWith(w, id, input.req.key, input.req.params, tx)
    ensures Begin(guard, w, input, b, clock).1 == Replay(id, Some(tx))
  {
    var q := (input.req.key, input.req.params);
    assert HasKey(w.t, id, q);
    assert Holds(w.t.keys, q, id);
    DecideLikeCold(w.t, w.m, input, b);
    ColdDecision(w.t, input, b);
    if ConsultMemory(w.m, InputKey(input)).Answer? {
      MemoryHit(w.t, w.m, input);
    }
    DecidedReply(guard, w, input, b, clock);
  }

  lemma DecidedReply(guard: Option<Policy>, w: World, input: Input, b: Id, clock: Readings)
    requires Decide(w.t, w.m, input, b).reply.Some?
    ensures Begin(guard, w, input, b, clock).1 == Decide(w.t, w.m, input, b).reply.value
  {
  }

  /** The result settles its write as confirmed: a hash, a word of success, and neither an error nor a dead state. */
  ghost predicate SuccessWith(r: WriteResult, tx: string) {
    Carries(r, Some(tx)) && tx != "" && !Refuses(r) && !Withdraws(r) && Succeeds(r)
  }

  lemma SuccessSettles(w: World, id: Id, r: WriteResult, tx: string)
    requires Inv(w) && id in w.m.ops && SuccessWith(r, tx)
    ensures id in w.t.ops && SettledWith(Finish(w, id, Returned(r)), id, w.t.ops[id].key, w.t.ops[id].params, tx)
  {
    assert RecOk(w.t, w.m, id);
    ResultMeaning(r, Some(tx));
    FinishLeaves(w, id, Returned(r), id);
    FinalizedRowExactly(w.t, id, Classify(Returned(r)), AttemptTx(Returned(r)), id);
  }

  /**
   Over every run: once a write has succeeded with a hash, its operation is confirmed with that hash in every later world,
   holds no lock, and the same request on a supported chain is answered with a replay of it, hash included; after crashes
   and restarts too.
   */
  lemma SuccessIsReplayed(guard: Option<Policy>, ws: seq<World>, steps: seq<Step>, m: nat, k: nat,
                          r: WriteResult, tx: string, input: Input, b: Id, clock: Readings)
    requires Run(guard, ws, steps) && m < |steps| && m < k < |ws|
    requires steps[m].DoFinish? && steps[m].attempt == Returned(r) && SuccessWith(r, tx)
    ensures var id := steps[m].id;
            && id in ws[m].t.ops && id in ws[k].t.ops
            && ws[k].t.ops[id].state == Confirmed && ws[k].t.ops[id].tx == Some(tx)
            && (forall w :: !Holds(ws[k].t.walletLocks, w, id)) && (forall j :: !Holds(ws[k].t.jobLocks, j, id))
            && (Supported(input) && b !in ws[k].used
                && input.req.key == ws[m].t.ops[id].key && input.req.params == ws[m].t.ops[id].params ==>
                  Begin(guard, ws[k], input, b, clock).1 == Replay(id, Some(tx)))
  {
    var id := steps[m].id;
    RunKeepsInv(guard, ws, steps, m);
    RunKeepsInv(guard, ws, steps, k);
    assert Enabled(ws[m], steps[m]) && ws[m + 1] == Apply(guard, ws[m], steps[m]);
    SuccessSettles(ws[m], id, r, tx);
    var row := ws[m].t.ops[id];
    SettledForEver(guard, ws, steps, m + 1, k, id, row.key, row.params, tx);
    ConfirmedHoldsNothing(ws[k], id);
    if && Supported(input) && b !in ws[k].used && input.req.key == row.key && input.req.params == row.params {
      SettledIsReplayed(guard, ws[k], input, b, clock, id, tx);
    }
  }

  lemma ConfirmedHoldsNothing(w: World, id: Id)
    requires Inv(w) && id in w.t.ops && w.t.ops[id].state == Confirmed
    ensures (forall x :: !Holds(w.t.walletLocks, x, id)) && forall j :: !Holds(w.t.jobLocks, j, id)
  {
    forall x
      ensures !Holds(w.t.walletLocks, x, id) && !Holds(w.t.jobLocks, x, id)
    {
      assert Holds(w.t.walletLocks, x, id) <==> WantsWallet(w.t, id, x);
      assert Holds(w.t.jobLocks, x, id) <==> WantsJob(w.t, id, x);
    }
  }
}
