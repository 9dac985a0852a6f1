/**
 What holds over every run of the gateway: any interleaving of calls, reconciliations and receipts, with crashes at any
 point, including inside the synchronous part of a call, and restarts that reload any admissible subset of rows.
 */
module GatewayRuns {
  import opened Basics
  import opened OperationStates
  import opened Journal
  import opened Spend
  import opened WriteResults
  import opened Gateway

  // ----- runs -----

  datatype Step =
    | DoBegin(input: Input, id: Id, clock: Readings)
    | CrashInBegin(input: Input, id: Id, created: bool, confirmed: seq<Id>, uncertain: seq<Id>)
    | DoFinish(id: Id, attempt: Attempt)
    | DoReconcile(id: Id, outcome: Reconciliation, tx: Option<string>)
    | DoStoreReceipt(id: Id)
    | DoRestart(confirmed: seq<Id>, uncertain: seq<Id>)

  /** The committed tables of a call that has only purged a stale row so far. */
  function PurgedTables(w: World, input: Input): Tables {
    match ConsultMemory(w.m, InputKey(input))
    case Purge(stale) => DeleteOp(w.t, stale)
    case Answer(_) => w.t
    case Miss =>
      var q := (input.req.key, input.req.params);
      if Supported(input) && q in w.t.keys && ConsultRow(w.t, w.t.keys[q]).Purge? then DeleteOp(w.t, w.t.keys[q])
      else w.t
  }

  /** The committed tables when a call crashes after its purge, or after its insert but before its reservation. */
  function CrashTables(w: World, input: Input, id: Id, created: bool): Tables {
    if created then Decide(w.t, w.m, input, id).t else PurgedTables(w, input)
  }

  ghost predicate Enabled(w: World, s: Step) {
    match s
    case DoBegin(_, id, _) => id !in w.used
    case CrashInBegin(input, id, created, confirmed, uncertain) =>
      id !in w.used && StartupRows(RecoverOps(CrashTables(w, input, id, created)), confirmed, uncertain)
    case DoFinish(id, _) => id in w.m.ops && w.m.ops[id].state == Executing
    case DoReconcile(_, _, _) => true
    case DoStoreReceipt(id) => id in w.m.ops || id !in w.t.ops || w.t.ops[id].state == Confirmed
    case DoRestart(confirmed, uncertain) => StartupRows(RecoverOps(w.t), confirmed, uncertain)
  }

  ghost function Apply(guard: Option<Policy>, w: World, s: Step): World
    requires Enabled(w, s)
  {
    match s
    case DoBegin(input, id, clock) => Begin(guard, w, input, id, clock).0
    case CrashInBegin(input, id, created, confirmed, uncertain) =>
      Restart(w.(t := CrashTables(w, input, id, created), used := w.used + {id}), confirmed, uncertain)
    case DoFinish(id, attempt) => Finish(w, id, attempt)
    case DoReconcile(id, outcome, tx) => Reconcile(w, id, outcome, tx)
    case DoStoreReceipt(id) => StoreReceipt(w, id)
    case DoRestart(confirmed, uncertain) => Restart(w, confirmed, uncertain)
  }

  const START: World := World(EMPTY_TABLES, NO_MEMORY, [], {})

  /** ws are the worlds between the steps of a run that starts with nothing stored. */
  ghost predicate Run(guard: Option<Policy>, ws: seq<World>, steps: seq<Step>) {
    && |ws| == |steps| + 1
    && ws[0] == START
    && forall i | 0 <= i < |steps| :: Enabled(ws[i], steps[i]) && ws[i + 1] == Apply(guard, ws[i], steps[i])
  }

  /** The step calls executeFn, for operation id of the given key. */
  ghost predicate CallsFor(guard: Option<Policy>, w: World, s: Step, key: string, id: Id) {
    s.DoBegin? && s.input.req.key == key && s.id == id && Begin(guard, w, s.input, id, s.clock).1 == Calls(id)
  }

  // ----- memory agrees with the journal -----

  /** A row stays `created` while the write is executing: only memory knows. */
  ghost predicate StatesAgree(row: OpState, rec: OpState) {
    row == rec || (row == Created && rec == Executing)
  }

  ghost predicate RecOk(t: Tables, m: Memory, id: Id) {
    && id in t.ops && id in m.ops
    && m.ops[id].key == t.ops[id].key && m.ops[id].params == t.ops[id].params
    && StatesAgree(t.ops[id].state, m.ops[id].state)
  }

  ghost predicate IndexOk(m: Memory, c: string) {
    c in m.index && m.index[c] in m.ops && Composite(m.ops[m.index[c]].key, m.ops[m.index[c]].params) == c
  }

  ghost predicate MemOk(t: Tables, m: Memory) {
    && (forall id | id in m.ops :: RecOk(t, m, id))
    && (forall c | c in m.index :: IndexOk(m, c))
  }

  ghost predicate Inv(w: World) {
    Sound(w.t) && MemOk(w.t, w.m) && w.t.ops.Keys <= w.used
  }

  /** The composite string key separates all pairs whose second part has no colon. */
  lemma CompositeInjective(k: string, p: Hash, k': string, p': Hash)
    requires Composite(k, p) == Composite(k', p')
    ensures k == k' && p == p'
  {
    var s := Composite(k, p);
    assert s[|k|] == ':' && s[|k'|] == ':';
    assert |k| == |k'|;
    assert k == s[..|k|] && k' == s[..|k'|];
    assert p == s[|k| + 1..] && p' == s[|k'| + 1..];
  }

  // ----- each step keeps the invariant -----

  predicate Dead(s: OpState) {
    s == Failed || s == Cancelled
  }

  /** From t to t' rows only disappear when dead, and only id may be new. */
  ghost predicate OnlyPurges(t: Tables, t': Tables, id: Id) {
    && (forall i | i in t.ops :: if i in t'.ops then t'.ops[i] == t.ops[i] else Dead(t.ops[i].state))
    && (forall i | i in t'.ops :: i in t.ops || i == id)
  }

  lemma PurgeKeepsMem(t: Tables, m: Memory, stale: Id, c: string)
    requires MemOk(t, m) && (stale in t.ops ==> Composite(t.ops[stale].key, t.ops[stale].params) == c)
    ensures MemOk(DeleteOp(t, stale), Forget(m, stale, c))
  {
    var t', m' := DeleteOp(t, stale), Forget(m, stale, c);
    forall id | id in m'.ops
      ensures RecOk(t', m', id)
    {
      assert RecOk(t, m, id);
    }
    forall d | d in m'.index
      ensures IndexOk(m', d)
    {
      assert IndexOk(m, d);
      assert RecOk(t, m, m.index[d]);
    }
  }

  lemma InsertKeepsMem(t: Tables, m: Memory, id: Id, req: Request)
    requires MemOk(t, m) && id !in t.ops
    ensures MemOk(Insert(t, id, req), Remember(m, id, req))
  {
    var t', m' := Insert(t, id, req), Remember(m, id, req);
    forall i | i in m'.ops
      ensures RecOk(t', m', i)
    {
      if i != id {
        assert RecOk(t, m, i);
      }
    }
    forall d | d in m'.index
      ensures IndexOk(m', d)
    {
      if d != Composite(req.key, req.params) {
        assert IndexOk(m, d) && RecOk(t, m, m.index[d]);
      }
    }
  }

  /** What one admission does: it keeps the invariant, purges only dead rows, and admits only when the key is free. */
  lemma AdmitSpec(t: Tables, m: Memory, input: Input, id: Id)
    requires Sound(t) && MemOk(t, m) && id !in t.ops
    ensures var a := Admit(t, m, input, id);
            && Sound(a.t) && MemOk(a.t, a.m) && OnlyPurges(t, a.t, id)
            && (a.reply.None? ==> Admitted(t, a, input, id))
            && (a.reply.Some? ==> id !in a.t.ops && !a.reply.value.Calls?)
  {
    CreateKeepsSound(t, id, input.req);
    var (t', result) := CreateOp(t, id, input.req);
    if Supported(input) {
      if result == Inserted {
        InsertKeepsMem(t, m, id, input.req);
        FreeKey(t, input.req);
      } else if result.KeyExists? {
        var stale := result.existing;
        assert Holds(t.keys, (input.req.key, input.req.params), stale);
        assert HasKey(t, stale, (input.req.key, input.req.params));
        if ConsultRow(t, stale).Purge? {
          RetrySpec(t, m, input, id, stale);
        }
      }
    }
  }

  /** The retry after a purge of the stale row found in the journal. */
  lemma RetrySpec(t: Tables, m: Memory, input: Input, id: Id, stale: Id)
    requires Sound(t) && MemOk(t, m) && id !in t.ops
    requires HasKey(t, stale, (input.req.key, input.req.params)) && Dead(t.ops[stale].state)
    ensures var purged, m' := DeleteOp(t, stale), Forget(m, stale, InputKey(input));
            var (t'', retry) := CreateOp(purged, id, input.req);
            && Sound(purged) && MemOk(purged, m') && OnlyPurges(t, purged, id)
            && (retry == Inserted ==>
                  var a := Admission(t'', Remember(m', id, input.req), None);
                  Sound(t'') && MemOk(t'', a.m) && OnlyPurges(t, t'', id) && Admitted(t, a, input, id))
  {
    var purged, m' := DeleteOp(t, stale), Forget(m, stale, InputKey(input));
    DeleteKeepsSound(t, stale);
    PurgeKeepsMem(t, m, stale, InputKey(input));
    assert purged.ops == t.ops - {stale};
    OnlyStaleHasKey(t, input.req.key, stale);
    InsertAdmits(t, purged, m', input, id);
  }

  lemma OnlyStaleHasKey(t: Tables, key: string, stale: Id)
    requires KeysOk(t) && stale in t.ops && t.ops[stale].key == key
    ensures forall i | i in t.ops && t.ops[i].key == key :: i == stale
  {
  }

  lemma InsertAdmits(t0: Tables, t: Tables, m: Memory, input: Input, id: Id)
    requires Sound(t) && MemOk(t, m) && id !in t0.ops && id !in t.ops && OnlyPurges(t0, t, id)
    requires forall i | i in t0.ops && t0.ops[i].key == input.req.key :: Dead(t0.ops[i].state) && i !in t.ops
    ensures var (t', result) := CreateOp(t, id, input.req);
            result == Inserted ==>
              var a := Admission(t', Remember(m, id, input.req), None);
              Sound(t') && MemOk(t', a.m) && OnlyPurges(t0, t', id) && Admitted(t0, a, input, id)
  {
    CreateKeepsSound(t, id, input.req);
    InsertKeepsMem(t, m, id, input.req);
    assert Insert(t, id, input.req).ops == t.ops[id := NewRow(input.req)];
  }

  ghost predicate Admitted(t: Tables, a: Admission, input: Input, id: Id) {
    && id in a.t.ops && a.t.ops[id] == NewRow(input.req)
    && id in a.m.ops && a.m.ops[id] == Rec(input.req.key, input.req.params, Created, None)
    && forall i | i in t.ops && t.ops[i].key == input.req.key :: Dead(t.ops[i].state) && i !in a.t.ops
  }

  lemma FreeKey(t: Tables, r: Request)
    requires KeysOk(t) && forall q | q in t.keys :: q.0 != r.key
    ensures forall i | i in t.ops :: t.ops[i].key != r.key
  {
    forall i | i in t.ops
      ensures t.ops[i].key != r.key
    {
      assert HasKey(t, i, (t.ops[i].key, t.ops[i].params));
      assert Holds(t.keys, (t.ops[i].key, t.ops[i].params), i);
    }
  }

  /** What memory says about a key is about the journal's operation of that very key and params. */
  lemma MemoryHit(t: Tables, m: Memory, input: Input)
    requires Sound(t) && MemOk(t, m)
    requires InputKey(input) in m.index
    ensures var id := m.index[InputKey(input)];
            && RecOk(t, m, id)
            && t.ops[id].key == input.req.key && t.ops[id].params == input.req.params
            && Holds(t.keys, (input.req.key, input.req.params), id)
  {
    var id := m.index[InputKey(input)];
    assert IndexOk(m, InputKey(input)) && RecOk(t, m, id);
    CompositeInjective(m.ops[id].key, m.ops[id].params, input.req.key, input.req.params);
    assert HasKey(t, id, (input.req.key, input.req.params));
  }

  lemma DecideSpec(t: Tables, m: Memory, input: Input, id: Id)
    requires Sound(t) && MemOk(t, m) && id !in t.ops
    ensures var a := Decide(t, m, input, id);
            && Sound(a.t) && MemOk(a.t, a.m) && OnlyPurges(t, a.t, id)
            && (a.reply.None? ==> Admitted(t, a, input, id))
            && (a.reply.Some? ==> id !in a.t.ops && !a.reply.value.Calls?)
  {
    match ConsultMemory(m, InputKey(input))
    case Answer(_) =>
    case Miss => AdmitSpec(t, m, input, id);
    case Purge(stale) =>
      MemoryHit(t, m, input);
      PurgedAdmitSpec(t, m, input, id, stale);
  }

  lemma PurgedAdmitSpec(t: Tables, m: Memory, input: Input, id: Id, stale: Id)
    requires Sound(t) && MemOk(t, m) && id !in t.ops
    requires stale in t.ops && t.ops[stale].key == input.req.key && t.ops[stale].params == input.req.params
    requires Dead(t.ops[stale].state)
    ensures var a := Admit(DeleteOp(t, stale), Forget(m, stale, InputKey(input)), input, id);
            && Sound(a.t) && MemOk(a.t, a.m) && OnlyPurges(t, a.t, id)
            && (a.reply.None? ==> Admitted(t, a, input, id))
            && (a.reply.Some? ==> id !in a.t.ops && !a.reply.value.Calls?)
  {
    DeleteKeepsSound(t, stale);
    PurgeKeepsMem(t, m, stale, InputKey(input));
    AdmitSpec(DeleteOp(t, stale), Forget(m, stale, InputKey(input)), input, id);
    OnlyStaleHasKey(t, input.req.key, stale);
  }

  lemma SetRow(t: Tables, id: Id, state: OpState, tx: Option<string>, i: Id)
    requires i in t.ops
    ensures var t' := SetState(t, id, state, tx);
            && i in t'.ops && t'.ops[i].key == t.ops[i].key && t'.ops[i].params == t.ops[i].params
            && t'.ops[i].state == if i == id then state else t.ops[i].state
  {
    var t' := SetState(t, id, state, tx);
    if i == id {
      assert t'.ops[i] == t.ops[i].(state := state, tx := t'.ops[i].tx);
    } else {
      assert t'.ops[i] == t.ops[i];
    }
  }

  lemma FinalizedRow(t: Tables, id: Id, state: OpState, tx: Option<string>, i: Id)
    requires i in t.ops
    ensures var t' := FinalizeOp(t, id, state, tx);
            && i in t'.ops && t'.ops[i].key == t.ops[i].key && t'.ops[i].params == t.ops[i].params
            && t'.ops[i].state == if i == id then state else t.ops[i].state
  {
    SetRow(t, id, state, tx, i);
    ReleaseKeepsRows(SetState(t, id, state, tx), id);
  }

  lemma ReleaseKeepsRows(t: Tables, id: Id)
    ensures Release(t, id).ops == t.ops
  {
  }

  lemma StatesKeepMem(t: Tables, m: Memory, id: Id, state: OpState, tx: Option<string>, tx': Option<string>)
    requires MemOk(t, m)
    ensures MemOk(FinalizeOp(t, id, state, tx), SetMemState(m, id, state, tx'))
  {
    var t', m' := FinalizeOp(t, id, state, tx), SetMemState(m, id, state, tx');
    forall i | i in m'.ops
      ensures RecOk(t', m', i)
    {
      assert RecOk(t, m, i);
      FinalizedRow(t, id, state, tx, i);
    }
    forall c | c in m'.index
      ensures IndexOk(m', c)
    {
      assert IndexOk(m, c);
    }
  }

  lemma ExecutingKeepsMem(t: Tables, m: Memory, id: Id)
    requires MemOk(t, m) && id in m.ops && m.ops[id].state == Created
    ensures MemOk(t, SetMemState(m, id, Executing, None))
  {
    var m' := SetMemState(m, id, Executing, None);
    forall i | i in m'.ops
      ensures RecOk(t, m', i)
    {
      assert RecOk(t, m, i);
    }
    forall c | c in m'.index
      ensures IndexOk(m', c)
    {
      assert IndexOk(m, c);
    }
  }

  /** What a call does to tables and ids, apart from its decision. */
  lemma BeginEffect(guard: Option<Policy>, w: World, input: Input, id: Id, clock: Readings)
    ensures var a, (w', reply) := Decide(w.t, w.m, input, id), Begin(guard, w, input, id, clock);
            && w'.used == w.used + {id}
            && (w'.t == a.t || (a.reply.None? && w'.t == FinalizeOp(a.t, id, Failed, None)))
            && (reply.Calls? && !(a.reply.Some? && a.reply.value.Calls?) ==>
                  a.reply.None? && reply == Calls(id) && w'.t == a.t)
  {
  }

  lemma BeginKeepsInv(guard: Option<Policy>, w: World, input: Input, id: Id, clock: Readings)
    requires Inv(w) && id !in w.used
    ensures Inv(Begin(guard, w, input, id, clock).0)
  {
    DecideSpec(w.t, w.m, input, id);
    ContinueKeepsInv(guard, w.ledger, w.used + {id}, Decide(w.t, w.m, input, id), input, id, clock);
  }

  lemma ContinueKeepsInv(guard: Option<Policy>, ledger: seq<Entry>, used: set<Id>, a: Admission, input: Input, id: Id,
                         clock: Readings)
    requires Sound(a.t) && MemOk(a.t, a.m) && a.t.ops.Keys <= used
    requires a.reply.None? ==> id in a.t.ops && id in a.m.ops && a.m.ops[id].state == Created
    ensures Inv(Continue(guard, ledger, used, a, input, id, clock).0)
  {
    if a.reply.None? {
      if input.req.wallet == "" {
        UpdateKeepsSound(a.t, id, Failed, None);
        StatesKeepMem(a.t, a.m, id, Failed, None, None);
      } else {
        ExecutingKeepsMem(a.t, a.m, id);
      }
    }
  }

  lemma {:induction false} LoadKeepsMem(t: Tables, m: Memory, ids: seq<Id>)
    requires MemOk(t, m) && Sound(t) && forall i | 0 <= i < |ids| :: ids[i] in t.ops
    ensures MemOk(t, LoadAll(t, m, ids))
  {
    if ids != [] {
      var m0, last := LoadAll(t, m, ids[..|ids| - 1]), ids[|ids| - 1];
      LoadKeepsMem(t, m, ids[..|ids| - 1]);
      var m' := LoadOne(t, m0, last);
      forall i | i in m'.ops
        ensures RecOk(t, m', i)
      {
        if i != last {
          assert RecOk(t, m0, i);
        }
      }
      forall c | c in m'.index
        ensures IndexOk(m', c)
      {
        if c in m0.index {
          assert IndexOk(m0, c) && RecOk(t, m0, m0.index[c]);
        }
      }
    }
  }

  lemma RestartKeepsInv(w: World, confirmed: seq<Id>, uncertain: seq<Id>)
    requires Sound(w.t) && w.t.ops.Keys <= w.used && StartupRows(RecoverOps(w.t), confirmed, uncertain)
    ensures Inv(Restart(w, confirmed, uncertain))
  {
    RecoverKeepsSound(w.t);
    var t := RecoverOps(w.t);
    LoadKeepsMem(t, NO_MEMORY, confirmed);
    LoadKeepsMem(t, LoadAll(t, NO_MEMORY, confirmed), uncertain);
  }

  lemma CrashTablesSpec(w: World, input: Input, id: Id, created: bool)
    requires Inv(w) && id !in w.used
    ensures Sound(CrashTables(w, input, id, created)) && OnlyPurges(w.t, CrashTables(w, input, id, created), id)
  {
    if created {
      DecideSpec(w.t, w.m, input, id);
    } else {
      PurgedTablesSpec(w, input);
    }
  }

  lemma PurgedTablesSpec(w: World, input: Input)
    requires Inv(w)
    ensures Sound(PurgedTables(w, input))
    ensures forall i :: i in PurgedTables(w, input).ops ==> i in w.t.ops
    ensures forall i | i in w.t.ops ::
              if i in PurgedTables(w, input).ops then PurgedTables(w, input).ops[i] == w.t.ops[i]
              else Dead(w.t.ops[i].state)
  {
    match ConsultMemory(w.m, InputKey(input))
    case Answer(_) =>
    case Purge(stale) =>
      MemoryHit(w.t, w.m, input);
      DeadRowDeleted(w.t, stale);
    case Miss =>
      var q := (input.req.key, input.req.params);
      if q in w.t.keys && ConsultRow(w.t, w.t.keys[q]).Purge? {
        DeadRowDeleted(w.t, w.t.keys[q]);
      }
  }

  lemma DeadRowDeleted(t: Tables, id: Id)
    requires Sound(t) && id in t.ops && Dead(t.ops[id].state)
    ensures Sound(DeleteOp(t, id)) && DeleteOp(t, id).ops == t.ops - {id}
  {
    DeleteKeepsSound(t, id);
  }

  lemma StepKeepsInv(guard: Option<Policy>, w: World, s: Step)
    requires Inv(w) && Enabled(w, s)
    ensures Inv(Apply(guard, w, s)) && w.used <= Apply(guard, w, s).used
  {
    match s
    case DoBegin(input, id, clock) => BeginKeepsInv(guard, w, input, id, clock);
    case CrashInBegin(input, id, created, confirmed, uncertain) =>
      CrashTablesSpec(w, input, id, created);
      RestartKeepsInv(w.(t := CrashTables(w, input, id, created), used := w.used + {id}), confirmed, uncertain);
    case DoFinish(id, attempt) =>
      assert RecOk(w.t, w.m, id);
      UpdateKeepsSound(w.t, id, Classify(attempt), AttemptTx(attempt));
      StatesKeepMem(w.t, w.m, id, Classify(attempt), AttemptTx(attempt), AttemptTx(attempt));
    case DoReconcile(id, outcome, tx) =>
      if Reconcilable(w.m, id) {
        assert RecOk(w.t, w.m, id);
        var tx' := if outcome == AsConfirmed then Truthy(tx) else None;
        ReconcileIsFinalize(w.t, id, outcome, tx);
        UpdateKeepsSound(w.t, id, Reconciled(outcome), tx');
        StatesKeepMem(w.t, w.m, id, Reconciled(outcome), tx', tx);
      }
    case DoStoreReceipt(id) =>
      ReceiptKeepsInv(w, id);
    case DoRestart(confirmed, uncertain) => RestartKeepsInv(w, confirmed, uncertain);
  }

  lemma ReceiptKeepsInv(w: World, id: Id)
    requires Inv(w) && Enabled(w, DoStoreReceipt(id))
    ensures Inv(StoreReceipt(w, id))
  {
    var w' := StoreReceipt(w, id);
    if id in w.m.ops {
      assert RecOk(w.t, w.m, id);
      var rec := w.m.ops[id];
      UpdateKeepsSound(w.t, id, rec.state, None);
      StatesKeepMem(w.t, w.m, id, rec.state, None, None);
      assert w.m.ops[id := rec] == w.m.ops;
    } else if id in w.t.ops {
      UpdateKeepsSound(w.t, id, Confirmed, None);
      StatesKeepMem(w.t, w.m, id, Confirmed, None, None);
    } else {
      FinalizeMissing(w.t, id, Confirmed, None);
    }
  }

  /** Finalizing an operation that has been purged changes nothing. */
  lemma FinalizeMissing(t: Tables, id: Id, state: OpState, tx: Option<string>)
    requires Sound(t) && id !in t.ops
    ensures FinalizeOp(t, id, state, tx) == t
  {
    forall w | w in t.walletLocks
      ensures t.walletLocks[w] != id
    {
      assert Holds(t.walletLocks, w, t.walletLocks[w]);
    }
    forall j | j in t.jobLocks
      ensures t.jobLocks[j] != id
    {
      assert Holds(t.jobLocks, j, t.jobLocks[j]);
    }
  }

  /** In every state of every run the tables are sound and memory agrees with them. */
  lemma {:induction false} RunKeepsInv(guard: Option<Policy>, ws: seq<World>, steps: seq<Step>, i: nat)
    requires Run(guard, ws, steps) && i < |ws|
    ensures Inv(ws[i])
  {
    if i > 0 {
      RunKeepsInv(guard, ws, steps, i - 1);
      StepKeepsInv(guard, ws[i - 1], steps[i - 1]);
    }
  }
}
