/**
 The execution gateway: the boundary every wallet write passes.

 World is what a write can depend on: the journal tables, the in-memory maps, the spend ledger and the ids handed out so
 far. execute has a single await, so a call is two atomic steps: Begin up to the call of executeFn, Finish after it.
 class ExecutionGateway performs the same steps on its fields.
 */
module Gateway {
  import opened Basics
  import opened Calendar
  import opened OperationStates
  import opened Journal
  import opened Spend
  import opened WriteResults

  // ----- data -----

  /** An in-memory operation record. */
  datatype Rec = Rec(key: string, params: Hash, state: OpState, tx: Option<string>)

  /** operations and idempotencyIndex. */
  datatype Memory = Memory(ops: map<Id, Rec>, index: map<string, Id>)

  const NO_MEMORY: Memory := Memory(map[], map[])

  datatype World = World(t: Tables, m: Memory, ledger: seq<Entry>, used: set<Id>)

  datatype Input = Input(req: Request, chain: string, chainId: Option<int>, policy: Option<Spending>)

  /** How execute ends, or Calls when it reaches executeFn. */
  datatype Reply =
    | Replay(id: Id, tx: Option<string>)
    | InProgress
    | NeedsReconciliation
    | KeyReused
    | LockConflict
    | UnsupportedChain
    | WalletMissing(id: Id)
    | Refused(id: Id, error: PolicyError)
    | Calls(id: Id)

  const CHAIN_NAMES: set<string> := {"arc-testnet", "arc", "arctestnet", "5042002"}

  predicate Supported(input: Input) {
    input.chainId.Some? || Lower(input.chain) in CHAIN_NAMES
  }

  function Composite(key: string, params: Hash): string {
    key + ":" + params
  }

  function InputKey(input: Input): string {
    Composite(input.req.key, input.req.params)
  }

  // ----- the idempotency decision -----

  /** What a known operation means for a new call with its key and params. */
  datatype Look = Answer(reply: Reply) | Purge(stale: Id) | Miss

  function ConsultMemory(m: Memory, composite: string): Look {
    if composite !in m.index || m.index[composite] !in m.ops then Miss
    else
      var id := m.index[composite];
      match m.ops[id].state
      case Confirmed => Answer(Replay(id, Truthy(m.ops[id].tx)))
      case Executing => Answer(InProgress)
      case Broadcast => Answer(InProgress)
      case Prepared => Answer(InProgress)
      case Reserved => Answer(InProgress)
      case Unknown => Answer(NeedsReconciliation)
      case Failed => Purge(id)
      case Cancelled => Purge(id)
      case Created => Miss
  }

  function ConsultRow(t: Tables, id: Id): Look {
    if id !in t.ops then Answer(InProgress)
    else
      match t.ops[id].state
      case Confirmed => Answer(Replay(id, Truthy(t.ops[id].tx)))
      case Executing => Answer(InProgress)
      case Broadcast => Answer(InProgress)
      case Prepared => Answer(InProgress)
      case Reserved => Answer(InProgress)
      case Unknown => Answer(NeedsReconciliation)
      case Failed => Purge(id)
      case Cancelled => Purge(id)
      case Created => Answer(InProgress)
  }

  function Forget(m: Memory, id: Id, composite: string): Memory {
    Memory(m.ops - {id}, m.index - {composite})
  }

  function Remember(m: Memory, id: Id, req: Request): Memory {
    Memory(m.ops[id := Rec(req.key, req.params, Created, None)], m.index[Composite(req.key, req.params) := id])
  }

  /** The outcome of the idempotency part: either a reply, or an admitted operation. */
  datatype Admission = Admission(t: Tables, m: Memory, reply: Option<Reply>)

  /** createOperationWithLocks and the handling of its result, one retry after a purge included. */
  function Admit(t: Tables, m: Memory, input: Input, id: Id): Admission {
    if !Supported(input) then Admission(t, m, Some(UnsupportedChain))
    else
      var (t', result) := CreateOp(t, id, input.req);
      match result
      case Inserted => Admission(t', Remember(m, id, input.req), None)
      case KeyConflict => Admission(t, m, Some(KeyReused))
      case WalletLocked(_) => Admission(t, m, Some(LockConflict))
      case JobLocked(_) => Admission(t, m, Some(LockConflict))
      case KeyExists(stale) =>
        match ConsultRow(t, stale)
        case Answer(reply) => Admission(t, m, Some(reply))
        case Miss => Admission(t, m, Some(InProgress))
        case Purge(_) =>
          var purged, m' := DeleteOp(t, stale), Forget(m, stale, InputKey(input));
          var (t'', retry) := CreateOp(purged, id, input.req);
          if retry == Inserted then Admission(t'', Remember(m', id, input.req), None)
          else Admission(purged, m', Some(LockConflict))
  }

  function Decide(t: Tables, m: Memory, input: Input, id: Id): Admission {
    match ConsultMemory(m, InputKey(input))
    case Answer(reply) => Admission(t, m, Some(reply))
    case Purge(stale) => Admit(DeleteOp(t, stale), Forget(m, stale, InputKey(input)), input, id)
    case Miss => Admit(t, m, input, id)
  }

  // ----- the steps -----

  function SetMemState(m: Memory, id: Id, state: OpState, tx: Option<string>): Memory {
    if id !in m.ops then m
    else m.(ops := m.ops[id := m.ops[id].(state := state, tx := if Truthy(tx).Some? then tx else m.ops[id].tx)])
  }

  predicate Reserves(s: Spending) {
    s.amount != "" && s.amount != "0"
  }

  function Reservation(input: Input, s: Spending, id: Id, clock: Readings): Entry {
    Entry(input.req.wallet, s.amount, EntryReserved, id, input.req.key, clock.reserved)
  }

  /** execute from the admission of an operation on, up to and including the call of executeFn. */
  function Continue(guard: Option<Policy>, ledger: seq<Entry>, used: set<Id>, a: Admission,
                    input: Input, id: Id, clock: Readings): (World, Reply)
  {
    var w := World(a.t, a.m, ledger, used);
    if a.reply.Some? then (w, a.reply.value)
    else if input.req.wallet == "" then
      (w.(t := FinalizeOp(a.t, id, Failed, None), m := SetMemState(a.m, id, Failed, None)), WalletMissing(id))
    else if input.policy.None? || guard.None? then
      (w.(m := SetMemState(a.m, id, Executing, None)), Calls(id))
    else
      var s := input.policy.value;
      match Guard(guard.value, ledger, input.req.wallet, s, clock)
      case Err(e) => (w, Refused(id, e))
      case Ok(_) =>
        var ledger' := if Reserves(s) then ledger + [Reservation(input, s, id, clock)] else ledger;
        (w.(m := SetMemState(a.m, id, Executing, None), ledger := ledger'), Calls(id))
  }

  /** execute up to and including the call of executeFn. guard is the policy of the configured guard, if any. */
  function Begin(guard: Option<Policy>, w: World, input: Input, id: Id, clock: Readings): (World, Reply) {
    Continue(guard, w.ledger, w.used + {id}, Decide(w.t, w.m, input, id), input, id, clock)
  }

  /** execute after executeFn has settled. */
  function Finish(w: World, id: Id, attempt: Attempt): World {
    w.(t := FinalizeOp(w.t, id, Classify(attempt), AttemptTx(attempt)),
       m := SetMemState(w.m, id, Classify(attempt), AttemptTx(attempt)))
  }

  predicate Reconcilable(m: Memory, id: Id) {
    id in m.ops && (m.ops[id].state == Broadcast || m.ops[id].state == Unknown)
  }

  /** reconcileBroadcast: memory takes the hash for every outcome, the journal only for confirmed. */
  function Reconcile(w: World, id: Id, outcome: Reconciliation, tx: Option<string>): World {
    if !Reconcilable(w.m, id) then w
    else w.(t := ReconcileOp(w.t, id, outcome, tx), m := SetMemState(w.m, id, Reconciled(outcome), tx))
  }

  /** storeReceipt: rewrites the state memory believes in, confirmed when it knows nothing. */
  function StoreReceipt(w: World, id: Id): World {
    w.(t := FinalizeOp(w.t, id, if id in w.m.ops then w.m.ops[id].state else Confirmed, None))
  }

  function RecOf(row: Row): Rec {
    Rec(row.key, row.params, row.state, row.tx)
  }

  predicate NeedsProtection(row: Row) {
    row.state == Broadcast || row.state == Unknown
  }

  function LoadOne(t: Tables, m: Memory, id: Id): Memory
    requires id in t.ops
  {
    Memory(m.ops[id := RecOf(t.ops[id])], m.index[Composite(t.ops[id].key, t.ops[id].params) := id])
  }

  function LoadAll(t: Tables, m: Memory, ids: seq<Id>): Memory
    requires forall i | 0 <= i < |ids| :: ids[i] in t.ops
  {
    if ids == [] then m else LoadOne(t, LoadAll(t, m, ids[..|ids| - 1]), ids[|ids| - 1])
  }

  const MAX_RESULT_CACHE_ENTRIES: nat := 1000

  /** What the two startup queries may answer: some bounded list of confirmed rows, and all the uncertain ones. */
  predicate StartupRows(t: Tables, confirmed: seq<Id>, uncertain: seq<Id>) {
    && |confirmed| <= MAX_RESULT_CACHE_ENTRIES
    && (forall i | 0 <= i < |confirmed| :: confirmed[i] in t.ops && t.ops[confirmed[i]].state == Confirmed)
    && (forall i | 0 <= i < |uncertain| :: uncertain[i] in t.ops && NeedsProtection(t.ops[uncertain[i]]))
    && (forall id | id in t.ops && NeedsProtection(t.ops[id]) :: id in uncertain)
  }

  function Reload(t: Tables, confirmed: seq<Id>, uncertain: seq<Id>): Memory
    requires StartupRows(t, confirmed, uncertain)
  {
    LoadAll(t, LoadAll(t, NO_MEMORY, confirmed), uncertain)
  }

  /** A crash loses the memory; the next process recovers the journal and reloads. */
  function Restart(w: World, confirmed: seq<Id>, uncertain: seq<Id>): World
    requires StartupRows(RecoverOps(w.t), confirmed, uncertain)
  {
    w.(t := RecoverOps(w.t), m := Reload(RecoverOps(w.t), confirmed, uncertain))
  }

  // ----- the object -----

  class ExecutionGateway {
    const journal: OperationJournal
    const spending: SpendLedger
    const guard: Option<Policy>
    var operations: map<Id, Rec>
    var idempotencyIndex: map<string, Id>
    ghost var used: set<Id>

    ghost function Now(): World
      reads this, journal, spending
    {
      World(journal.Content(), Memory(operations, idempotencyIndex), spending.entries, used)
    }

    /** A new process over existing stores. The two lists are what the startup queries return. */
    constructor (journal: OperationJournal, spending: SpendLedger, guard: Option<Policy>,
                 confirmed: seq<Id>, uncertain: seq<Id>, ghost used: set<Id>)
      requires StartupRows(RecoverOps(journal.Content()), confirmed, uncertain)
      modifies journal
      ensures this.journal == journal && this.spending == spending && this.guard == guard
      ensures Now() == Restart(World(old(journal.Content()), NO_MEMORY, old(spending.entries), used), confirmed, uncertain)
    {
      this.journal, this.spending, this.guard := journal, spending, guard;
      operations, idempotencyIndex := map[], map[];
      this.used := used;
      new;
      var _, _ := journal.RecoverNonTerminalOperations();
      ReloadFromJournal(confirmed, uncertain);
    }

    method ReloadFromJournal(confirmed: seq<Id>, uncertain: seq<Id>)
      requires StartupRows(journal.Content(), confirmed, uncertain)
      requires operations == map[] && idempotencyIndex == map[]
      modifies this`operations, this`idempotencyIndex
      ensures Memory(operations, idempotencyIndex) == Reload(journal.Content(), confirmed, uncertain)
    {
      LoadRows(confirmed);
      LoadRows(uncertain);
    }

    method LoadRows(ids: seq<Id>)
      requires forall i | 0 <= i < |ids| :: ids[i] in journal.ops
      modifies this`operations, this`idempotencyIndex
      ensures Memory(operations, idempotencyIndex)
           == LoadAll(journal.Content(), old(Memory(operations, idempotencyIndex)), ids)
    {
      ghost var m := Memory(operations, idempotencyIndex);
      for i := 0 to |ids|
        invariant Memory(operations, idempotencyIndex) == LoadAll(journal.Content(), m, ids[..i])
      {
        assert ids[..i + 1][..i] == ids[..i];
        var row := journal.ops[ids[i]];
        operations := operations[ids[i] := Rec(row.key, row.params, row.state, row.tx)];
        idempotencyIndex := idempotencyIndex[Composite(row.key, row.params) := ids[i]];
      }
      assert ids[..|ids|] == ids;
    }

    method ForgetOperation(id: Id, composite: string)
      modifies this`operations, this`idempotencyIndex
      ensures Memory(operations, idempotencyIndex) == Forget(old(Memory(operations, idempotencyIndex)), id, composite)
    {
      operations := operations - {id};
      idempotencyIndex := idempotencyIndex - {composite};
    }

    method AdmitOperation(input: Input, id: Id) returns (reply: Option<Reply>)
      requires id !in journal.ops
      modifies this`operations, this`idempotencyIndex, journal
      ensures Admission(journal.Content(), Memory(operations, idempotencyIndex), reply)
           == Admit(old(journal.Content()), old(Memory(operations, idempotencyIndex)), input, id)
    {
      if !Supported(input) {
        return Some(UnsupportedChain);
      }
      var result := journal.CreateOperationWithLocks(id, input.req);
      match result {
        case Inserted =>
        case KeyConflict => return Some(KeyReused);
        case WalletLocked(_) => return Some(LockConflict);
        case JobLocked(_) => return Some(LockConflict);
        case KeyExists(stale) =>
          match ConsultRow(journal.Content(), stale) {
            case Answer(answer) => return Some(answer);
            case Miss => return Some(InProgress);
            case Purge(_) =>
              journal.DeleteOperation(stale);
              ForgetOperation(stale, InputKey(input));
              var retry := journal.CreateOperationWithLocks(id, input.req);
              if retry != Inserted {
                return Some(LockConflict);
              }
          }
      }
      operations := operations[id := Rec(input.req.key, input.req.params, Created, None)];
      idempotencyIndex := idempotencyIndex[InputKey(input) := id];
      return None;
    }

    method SetRecord(id: Id, state: OpState, tx: Option<string>)
      modifies this`operations
      ensures Memory(operations, idempotencyIndex)
           == SetMemState(old(Memory(operations, idempotencyIndex)), id, state, tx)
    {
      if id in operations {
        var rec := operations[id].(state := state);
        if tx.Some? && tx.value != "" {
          rec := rec.(tx := tx);
        }
        operations := operations[id := rec];
      }
    }

    /** The check of the in-memory index: an answer, or a purge of a dead operation, or nothing. */
    method ConsultIndex(input: Input) returns (reply: Option<Reply>)
      modifies this`operations, this`idempotencyIndex, journal
      ensures var m := old(Memory(operations, idempotencyIndex));
              var after := Admission(journal.Content(), Memory(operations, idempotencyIndex), reply);
              match ConsultMemory(m, InputKey(input))
              case Answer(r) => after == Admission(old(journal.Content()), m, Some(r))
              case Purge(stale) =>
                after == Admission(DeleteOp(old(journal.Content()), stale), Forget(m, stale, InputKey(input)), None)
              case Miss => after == Admission(old(journal.Content()), m, None)
    {
      var composite := InputKey(input);
      if composite !in idempotencyIndex || idempotencyIndex[composite] !in operations {
        return None;
      }
      var existing := idempotencyIndex[composite];
      match operations[existing].state {
        case Confirmed => return Some(Replay(existing, Truthy(operations[existing].tx)));
        case Executing => return Some(InProgress);
        case Broadcast => return Some(InProgress);
        case Prepared => return Some(InProgress);
        case Reserved => return Some(InProgress);
        case Unknown => return Some(NeedsReconciliation);
        case Failed =>
          ForgetOperation(existing, composite);
          journal.DeleteOperation(existing);
        case Cancelled =>
          ForgetOperation(existing, composite);
          journal.DeleteOperation(existing);
        case Created =>
      }
      return None;
    }

    /** The policy guard: both windows are read from the ledger, then the policy is checked. */
    method AssertAllowed(policy: Policy, wallet: string, s: Spending, clock: Readings) returns (r: Result<(), PolicyError>)
      ensures r == Guard(policy, spending.entries, wallet, s, clock)
    {
      var daily := spending.Spent(wallet, Daily, clock.daily);
      if daily.Err? {
        return Err(BadAmount);
      }
      var monthly := spending.Spent(wallet, Monthly, clock.monthly);
      if monthly.Err? {
        return Err(BadAmount);
      }
      return Check(policy, s, daily.value, monthly.value);
    }

    /** From the admission of the operation on: wallet, policy, reservation, call. */
    method StartWrite(input: Input, id: Id, clock: Readings) returns (reply: Reply)
      modifies this`operations, journal, spending
      ensures (Now(), reply) == Continue(guard, old(spending.entries), used,
                                         Admission(old(journal.Content()), old(Memory(operations, idempotencyIndex)), None),
                                         input, id, clock)
    {
      if input.req.wallet == "" {
        SetRecord(id, Failed, None);
        journal.FinalizeOperation(id, Failed, None);
        return WalletMissing(id);
      }
      if input.policy.Some? && guard.Some? {
        var s := input.policy.value;
        var verdict := AssertAllowed(guard.value, input.req.wallet, s, clock);
        if verdict.Err? {
          return Refused(id, verdict.error);
        }
        if Reserves(s) {
          spending.Append(Reservation(input, s, id, clock));
        }
      }
      SetRecord(id, Executing, None);
      return Calls(id);
    }

    /** execute, up to the await. Calls(id) means executeFn has been called for id. */
    method ExecuteUntilCall(input: Input, id: Id, clock: Readings) returns (reply: Reply)
      requires id !in used && id !in journal.ops
      modifies this, journal, spending
      ensures (Now(), reply) == Begin(guard, old(Now()), input, id, clock)
    {
      used := used + {id};
      var known := ConsultIndex(input);
      if known.Some? {
        return known.value;
      }
      var denied := AdmitOperation(input, id);
      assert Admission(journal.Content(), Memory(operations, idempotencyIndex), denied)
          == Decide(old(journal.Content()), old(Memory(operations, idempotencyIndex)), input, id);
      if denied.Some? {
        return denied.value;
      }
      reply := StartWrite(input, id, clock);
    }

    /** execute, after the await. */
    method ExecuteAfterCall(id: Id, attempt: Attempt) returns (state: OpState)
      modifies this`operations, journal
      ensures Now() == Finish(old(Now()), id, attempt)
      ensures state == Classify(attempt)
    {
      state := Classify(attempt);
      journal.FinalizeOperation(id, state, AttemptTx(attempt));
      SetRecord(id, state, AttemptTx(attempt));
    }

    /** false: the operation is not in memory, which the code reports as not found. */
    method ReconcileBroadcast(id: Id, outcome: Reconciliation, tx: Option<string>) returns (found: bool)
      modifies this`operations, journal
      ensures found == (id in old(operations))
      ensures Now() == Reconcile(old(Now()), id, outcome, tx)
    {
      if id !in operations {
        return false;
      }
      if operations[id].state != Broadcast && operations[id].state != Unknown {
        return true;
      }
      journal.ReconcileOperation(id, outcome, tx);
      SetRecord(id, Reconciled(outcome), tx);
      return true;
    }

    method LinkReceipt(id: Id)
      modifies journal
      ensures Now() == StoreReceipt(old(Now()), id)
    {
      var state := if id in operations then operations[id].state else Confirmed;
      journal.FinalizeOperation(id, state, None);
    }
  }
}
