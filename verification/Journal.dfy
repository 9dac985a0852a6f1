/**
 The SQLite operation journal: operations, idempotency keys, wallet locks and job locks.

 Tables is the content of the database and the functions on it say what one transaction does;
 class OperationJournal holds the same tables as fields and its methods perform the statements one by one.
 A string that the code tests for truthiness ("" or undefined) is "" here when absent.
 */
module Journal {
  import opened Basics
  import opened OperationStates

  type Id = string

  /** A hex digest: what every caller passes as params hash. It holds no colon. */
  type Hash = h: string | ':' !in h witness ""

  /** What a write asks of the journal. */
  datatype Request = Request(key: string, params: Hash, wallet: string, job: string)

  /** One row of `operations`. The job id is not a column: it records what the operation asked to lock. */
  datatype Row = Row(key: string, params: Hash, wallet: string, job: string, state: OpState, tx: Option<string>)

  datatype Tables = Tables(
    ops: map<Id, Row>,
    keys: map<(string, Hash), Id>,
    walletLocks: map<string, Id>,
    jobLocks: map<string, Id>)

  const EMPTY_TABLES: Tables := Tables(map[], map[], map[], map[])

  // ----- transactions -----

  datatype CreateResult =
    | Inserted
    | KeyExists(existing: Id)
    | KeyConflict
    | WalletLocked(holder: Id)
    | JobLocked(holder: Id)

  function NewRow(r: Request): Row {
    Row(r.key, r.params, r.wallet, r.job, Created, None)
  }

  function Insert(t: Tables, id: Id, r: Request): Tables {
    Tables(
      t.ops[id := NewRow(r)],
      t.keys[(r.key, r.params) := id],
      if r.wallet != "" then t.walletLocks[Lower(r.wallet) := id] else t.walletLocks,
      if r.job != "" then t.jobLocks[r.job := id] else t.jobLocks)
  }

  function CreateOp(t: Tables, id: Id, r: Request): (Tables, CreateResult) {
    if (r.key, r.params) in t.keys then (t, KeyExists(t.keys[(r.key, r.params)]))
    else if exists q | q in t.keys :: q.0 == r.key then (t, KeyConflict)
    else if r.wallet != "" && Lower(r.wallet) in t.walletLocks then (t, WalletLocked(t.walletLocks[Lower(r.wallet)]))
    else if r.job != "" && r.job in t.jobLocks then (t, JobLocked(t.jobLocks[r.job]))
    else (Insert(t, id, r), Inserted)
  }

  function Without<K>(m: map<K, Id>, id: Id): map<K, Id> {
    map k | k in m && m[k] != id :: m[k]
  }

  function Release(t: Tables, id: Id): Tables {
    t.(walletLocks := Without(t.walletLocks, id), jobLocks := Without(t.jobLocks, id))
  }

  /** UPDATE operations SET state, tx_hash WHERE operation_id: no row, no effect. */
  function SetState(t: Tables, id: Id, state: OpState, tx: Option<string>): Tables {
    if id !in t.ops then t
    else t.(ops := t.ops[id := t.ops[id].(state := state, tx := if tx.Some? then tx else t.ops[id].tx)])
  }

  function FinalizeOp(t: Tables, id: Id, state: OpState, tx: Option<string>): Tables {
    var t' := SetState(t, id, state, tx);
    if Terminal(state) then Release(t', id) else t'
  }

  function DeleteOp(t: Tables, id: Id): Tables {
    Tables(t.ops - {id}, Without(t.keys, id), Without(t.walletLocks, id), Without(t.jobLocks, id))
  }

  predicate PreBroadcast(s: OpState) {
    s in {Created, Prepared, Reserved}
  }

  function RecoveredState(s: OpState): OpState {
    if PreBroadcast(s) then Failed else if s == Executing then Unknown else s
  }

  predicate OwnerPreBroadcast(t: Tables, id: Id) {
    id in t.ops && PreBroadcast(t.ops[id].state)
  }

  function RecoverOps(t: Tables): Tables {
    Tables(
      map id | id in t.ops :: t.ops[id].(state := RecoveredState(t.ops[id].state)),
      t.keys,
      map w | w in t.walletLocks && !OwnerPreBroadcast(t, t.walletLocks[w]) :: t.walletLocks[w],
      map j | j in t.jobLocks && !OwnerPreBroadcast(t, t.jobLocks[j]) :: t.jobLocks[j])
  }

  /** The first recovery loop after it has treated the rows in ids. */
  ghost function FailAll(t: Tables, ids: set<Id>): Tables {
    Tables(
      map id | id in t.ops :: if id in ids then t.ops[id].(state := Failed) else t.ops[id],
      t.keys,
      map w | w in t.walletLocks && t.walletLocks[w] !in ids :: t.walletLocks[w],
      map j | j in t.jobLocks && t.jobLocks[j] !in ids :: t.jobLocks[j])
  }

  lemma FailOneMore(t: Tables, ids: set<Id>, id: Id)
    requires id in t.ops && id !in ids
    ensures FailAll(t, ids + {id}) == FinalizeOp(FailAll(t, ids), id, Failed, None)
  {
    var a, b := FailAll(t, ids + {id}), FinalizeOp(FailAll(t, ids), id, Failed, None);
    assert a.ops == b.ops;
    assert a.walletLocks == b.walletLocks;
    assert a.jobLocks == b.jobLocks;
  }

  /** The second recovery loop after it has treated the rows in ids. */
  ghost function MarkAll(t: Tables, ids: set<Id>): Tables {
    t.(ops := map id | id in t.ops :: if id in ids then t.ops[id].(state := Unknown) else t.ops[id])
  }

  lemma MarkOneMore(t: Tables, ids: set<Id>, id: Id)
    requires id in t.ops && id !in ids
    ensures MarkAll(t, ids + {id}).ops == MarkAll(t, ids).ops[id := MarkAll(t, ids).ops[id].(state := Unknown)]
  {
  }

  lemma FailKeepsExecuting(t: Tables, failed: set<Id>)
    requires failed == set id | id in t.ops && PreBroadcast(t.ops[id].state)
    ensures (set id | id in FailAll(t, failed).ops && FailAll(t, failed).ops[id].state == Executing)
         == set id | id in t.ops && t.ops[id].state == Executing
  {
  }

  /** Failing the pre-broadcast rows and then marking the executing ones recovers every row. */
  lemma BothLoopsRecover(t: Tables, failed: set<Id>, madeUnknown: set<Id>)
    requires failed == set id | id in t.ops && PreBroadcast(t.ops[id].state)
    requires madeUnknown == set id | id in t.ops && t.ops[id].state == Executing
    ensures MarkAll(FailAll(t, failed), madeUnknown) == RecoverOps(t)
  {
    var u, r := MarkAll(FailAll(t, failed), madeUnknown), RecoverOps(t);
    assert u.ops == r.ops;
    assert u.walletLocks == r.walletLocks && u.jobLocks == r.jobLocks;
  }

  datatype Reconciliation = AsConfirmed | AsFailed | AsUnknown

  function Reconciled(o: Reconciliation): OpState {
    match o
    case AsConfirmed => Confirmed
    case AsFailed => Failed
    case AsUnknown => Unknown
  }

  function ReconcileOp(t: Tables, id: Id, outcome: Reconciliation, tx: Option<string>): Tables {
    var t' := SetState(t, id, Reconciled(outcome), if outcome == AsConfirmed then Truthy(tx) else None);
    if outcome != AsUnknown then Release(t', id) else t'
  }

  // ----- what the tables always satisfy -----

  ghost predicate Holds<K>(m: map<K, Id>, k: K, id: Id) {
    k in m && m[k] == id
  }

  ghost predicate HasKey(t: Tables, id: Id, q: (string, Hash)) {
    id in t.ops && t.ops[id].key == q.0 && t.ops[id].params == q.1
  }

  /** One idempotency row per operation, pointing both ways, and one operation per key across all params. */
  ghost predicate KeysOk(t: Tables) {
    && (forall q, id :: Holds(t.keys, q, id) <==> HasKey(t, id, q))
    && (forall i, j | i in t.ops && j in t.ops && t.ops[i].key == t.ops[j].key :: i == j)
  }

  /** id holds the lock on the lower-cased wallet w. */
  ghost predicate WantsWallet(t: Tables, id: Id, w: string) {
    id in t.ops && !Terminal(t.ops[id].state) && t.ops[id].wallet != "" && Lower(t.ops[id].wallet) == w
  }

  ghost predicate WantsJob(t: Tables, id: Id, j: string) {
    id in t.ops && !Terminal(t.ops[id].state) && t.ops[id].job != "" && t.ops[id].job == j
  }

  /** Locks are held exactly by the non-terminal operations that asked for them. */
  ghost predicate LocksOk(t: Tables) {
    && (forall w, id :: Holds(t.walletLocks, w, id) <==> WantsWallet(t, id, w))
    && (forall j, id :: Holds(t.jobLocks, j, id) <==> WantsJob(t, id, j))
  }

  ghost predicate Sound(t: Tables) {
    KeysOk(t) && LocksOk(t)
  }

  /** Each wallet, each job and each idempotency key has at most one live operation. */
  lemma LockExclusion(t: Tables, a: Id, b: Id)
    requires Sound(t)
    requires a in t.ops && b in t.ops && !Terminal(t.ops[a].state) && !Terminal(t.ops[b].state)
    requires || (t.ops[a].wallet != "" && Lower(t.ops[a].wallet) == Lower(t.ops[b].wallet))
             || (t.ops[a].job != "" && t.ops[a].job == t.ops[b].job)
             || t.ops[a].key == t.ops[b].key
    ensures a == b
  {
    if t.ops[a].wallet != "" && Lower(t.ops[a].wallet) == Lower(t.ops[b].wallet) {
      var w := Lower(t.ops[a].wallet);
      assert WantsWallet(t, a, w) && WantsWallet(t, b, w);
    } else if t.ops[a].job != "" && t.ops[a].job == t.ops[b].job {
      assert WantsJob(t, a, t.ops[a].job) && WantsJob(t, b, t.ops[a].job);
    }
  }

  lemma CreateKeepsSound(t: Tables, id: Id, r: Request)
    requires Sound(t) && id !in t.ops
    ensures Sound(CreateOp(t, id, r).0)
  {
    if CreateOp(t, id, r).1 == Inserted {
      InsertKeepsKeys(t, id, r);
      InsertKeepsLocks(t, id, r);
    }
  }

  lemma InsertKeepsKeys(t: Tables, id: Id, r: Request)
    requires KeysOk(t) && id !in t.ops && forall q | q in t.keys :: q.0 != r.key
    ensures KeysOk(Insert(t, id, r))
  {
    var t' := Insert(t, id, r);
    forall i | i in t.ops
      ensures t.ops[i].key != r.key
    {
      assert HasKey(t, i, (t.ops[i].key, t.ops[i].params));
    }
    forall q, i
      ensures Holds(t'.keys, q, i) <==> HasKey(t', i, q)
    {
      assert Holds(t.keys, q, i) <==> HasKey(t, i, q);
    }
  }

  lemma InsertKeepsLocks(t: Tables, id: Id, r: Request)
    requires LocksOk(t) && id !in t.ops
    requires r.wallet != "" ==> Lower(r.wallet) !in t.walletLocks
    requires r.job != "" ==> r.job !in t.jobLocks
    ensures LocksOk(Insert(t, id, r))
  {
    var t' := Insert(t, id, r);
    forall w, i
      ensures Holds(t'.walletLocks, w, i) <==> WantsWallet(t', i, w)
    {
      assert Holds(t.walletLocks, w, i) <==> WantsWallet(t, i, w);
    }
    forall j, i
      ensures Holds(t'.jobLocks, j, i) <==> WantsJob(t', i, j)
    {
      assert Holds(t.jobLocks, j, i) <==> WantsJob(t, i, j);
    }
  }

  /** Deleting an operation of any state leaves no trace of it. */
  lemma DeleteKeepsSound(t: Tables, id: Id)
    requires Sound(t)
    ensures Sound(DeleteOp(t, id))
    ensures id in t.ops ==> forall q | q in DeleteOp(t, id).keys :: q.0 != t.ops[id].key
  {
    var t' := DeleteOp(t, id);
    forall q | q in t'.keys && id in t.ops
      ensures q.0 != t.ops[id].key
    {
      assert HasKey(t, t.keys[q], q);
    }
    forall q, i
      ensures Holds(t'.keys, q, i) <==> HasKey(t', i, q)
    {
      assert Holds(t.keys, q, i) <==> HasKey(t, i, q);
    }
    forall w, i
      ensures Holds(t'.walletLocks, w, i) <==> WantsWallet(t', i, w)
    {
      assert Holds(t.walletLocks, w, i) <==> WantsWallet(t, i, w);
    }
    forall j, i
      ensures Holds(t'.jobLocks, j, i) <==> WantsJob(t', i, j)
    {
      assert Holds(t.jobLocks, j, i) <==> WantsJob(t, i, j);
    }
  }

  /** The rows differ at most in state and hash. */
  ghost predicate SameRequests(t: Tables, t': Tables) {
    && t'.keys == t.keys
    && t'.ops.Keys == t.ops.Keys
    && forall id | id in t.ops :: t'.ops[id].(state := t.ops[id].state, tx := t.ops[id].tx) == t.ops[id]
  }

  lemma SameRequestsKeepKeys(t: Tables, t': Tables)
    requires KeysOk(t) && SameRequests(t, t')
    ensures KeysOk(t')
  {
    forall q, i
      ensures Holds(t'.keys, q, i) <==> HasKey(t', i, q)
    {
      assert Holds(t.keys, q, i) <==> HasKey(t, i, q);
    }
  }

  /** After a finalize an operation wants a lock exactly when it did before, or is the finalized one. */
  lemma FinalizeLocks(t: Tables, id: Id, state: OpState, tx: Option<string>)
    requires LocksOk(t) && id in t.ops
    requires Terminal(t.ops[id].state) && !Terminal(state) ==> t.ops[id].wallet == "" && t.ops[id].job == ""
    ensures LocksOk(FinalizeOp(t, id, state, tx))
  {
    var t' := FinalizeOp(t, id, state, tx);
    var row := t.ops[id];
    assert t'.ops == t.ops[id := t'.ops[id]] && t'.ops[id].(state := row.state, tx := row.tx) == row;
    assert t'.ops[id].state == state;
    forall w, i
      ensures Holds(t'.walletLocks, w, i) <==> WantsWallet(t', i, w)
    {
      assert Holds(t.walletLocks, w, i) <==> WantsWallet(t, i, w);
    }
    forall j, i
      ensures Holds(t'.jobLocks, j, i) <==> WantsJob(t', i, j)
    {
      assert Holds(t.jobLocks, j, i) <==> WantsJob(t, i, j);
    }
  }

  /** A state change that releases on entering a terminal state and never leaves one keeps the locks right. */
  lemma UpdateKeepsSound(t: Tables, id: Id, state: OpState, tx: Option<string>)
    requires Sound(t) && id in t.ops
    requires Terminal(t.ops[id].state) ==> Terminal(state)
    ensures Sound(FinalizeOp(t, id, state, tx))
  {
    SameRequestsKeepKeys(t, FinalizeOp(t, id, state, tx));
    FinalizeLocks(t, id, state, tx);
  }

  /** Finalize has no state guard: it breaks Sound exactly when it takes a lock-asking row out of a terminal state. */
  lemma FinalizeKeepsSoundIff(t: Tables, id: Id, state: OpState, tx: Option<string>)
    requires Sound(t) && id in t.ops
    ensures Sound(FinalizeOp(t, id, state, tx)) <==>
            !(Terminal(t.ops[id].state) && !Terminal(state) && (t.ops[id].wallet != "" || t.ops[id].job != ""))
  {
    var row, t' := t.ops[id], FinalizeOp(t, id, state, tx);
    SameRequestsKeepKeys(t, t');
    if Terminal(row.state) && !Terminal(state) && row.wallet != "" {
      assert !WantsWallet(t, id, Lower(row.wallet)) && WantsWallet(t', id, Lower(row.wallet));
      assert !Holds(t'.walletLocks, Lower(row.wallet), id);
    } else if Terminal(row.state) && !Terminal(state) && row.job != "" {
      assert !WantsJob(t, id, row.job) && WantsJob(t', id, row.job);
      assert !Holds(t'.jobLocks, row.job, id);
    } else {
      FinalizeLocks(t, id, state, tx);
    }
  }

  lemma ReconcileIsFinalize(t: Tables, id: Id, outcome: Reconciliation, tx: Option<string>)
    ensures ReconcileOp(t, id, outcome, tx)
         == FinalizeOp(t, id, Reconciled(outcome), if outcome == AsConfirmed then Truthy(tx) else None)
  {
  }

  lemma RecoverKeepsSound(t: Tables)
    requires Sound(t)
    ensures Sound(RecoverOps(t))
  {
    var t' := RecoverOps(t);
    SameRequestsKeepKeys(t, t');
    forall w, i
      ensures Holds(t'.walletLocks, w, i) <==> WantsWallet(t', i, w)
    {
      assert Holds(t.walletLocks, w, i) <==> WantsWallet(t, i, w);
    }
    forall j, i
      ensures Holds(t'.jobLocks, j, i) <==> WantsJob(t', i, j)
    {
      assert Holds(t.jobLocks, j, i) <==> WantsJob(t, i, j);
    }
  }

  // ----- the store itself -----

  class OperationJournal {
    var ops: map<Id, Row>
    var keys: map<(string, Hash), Id>
    var walletLocks: map<string, Id>
    var jobLocks: map<string, Id>

    constructor ()
      ensures Content() == EMPTY_TABLES
    {
      ops, keys, walletLocks, jobLocks := map[], map[], map[], map[];
    }

    function Content(): Tables
      reads this
    {
      Tables(ops, keys, walletLocks, jobLocks)
    }

    method CreateOperationWithLocks(id: Id, r: Request) returns (result: CreateResult)
      requires id !in ops
      modifies this
      ensures (Content(), result) == CreateOp(old(Content()), id, r)
    {
      if (r.key, r.params) in keys {
        return KeyExists(keys[(r.key, r.params)]);
      }
      if q :| q in keys && q.0 == r.key && q.1 != r.params {
        return KeyConflict;
      }
      if r.wallet != "" && Lower(r.wallet) in walletLocks {
        return WalletLocked(walletLocks[Lower(r.wallet)]);
      }
      if r.job != "" && r.job in jobLocks {
        return JobLocked(jobLocks[r.job]);
      }
      ops := ops[id := NewRow(r)];
      keys := keys[(r.key, r.params) := id];
      if r.wallet != "" {
        walletLocks := walletLocks[Lower(r.wallet) := id];
      }
      if r.job != "" {
        jobLocks := jobLocks[r.job := id];
      }
      return Inserted;
    }

    method ReleaseLocks(id: Id)
      modifies this`walletLocks, this`jobLocks
      ensures Content() == Release(old(Content()), id)
    {
      walletLocks := map w | w in walletLocks && walletLocks[w] != id :: walletLocks[w];
      jobLocks := map j | j in jobLocks && jobLocks[j] != id :: jobLocks[j];
    }

    method FinalizeOperation(id: Id, state: OpState, tx: Option<string>)
      modifies this
      ensures Content() == FinalizeOp(old(Content()), id, state, tx)
    {
      if id in ops {
        var row := ops[id].(state := state);
        if tx.Some? {
          row := row.(tx := tx);
        }
        ops := ops[id := row];
      }
      if state == Confirmed || state == Failed || state == Cancelled {
        ReleaseLocks(id);
      }
    }

    method DeleteOperation(id: Id)
      modifies this
      ensures Content() == DeleteOp(old(Content()), id)
    {
      ReleaseLocks(id);
      keys := map q | q in keys && keys[q] != id :: keys[q];
      ops := ops - {id};
    }

    method ReconcileOperation(id: Id, outcome: Reconciliation, tx: Option<string>)
      modifies this
      ensures Content() == ReconcileOp(old(Content()), id, outcome, tx)
    {
      if id in ops {
        var row := ops[id].(state := Reconciled(outcome));
        if outcome == AsConfirmed && tx.Some? && tx.value != "" {
          row := row.(tx := tx);
        }
        ops := ops[id := row];
      }
      if outcome == AsConfirmed || outcome == AsFailed {
        ReleaseLocks(id);
      }
    }

    /** created, prepared, reserved: never reached the wallet adapter as far as the journal knows. */
    method FailPreBroadcast() returns (failed: set<Id>)
      modifies this
      ensures failed == set id | id in old(ops) && PreBroadcast(old(ops)[id].state)
      ensures Content() == FailAll(old(Content()), failed)
    {
      ghost var t := Content();
      var rows := set id | id in ops && PreBroadcast(ops[id].state);
      failed := {};
      while failed != rows
        invariant failed <= rows <= t.ops.Keys
        invariant Content() == FailAll(t, failed)
        decreases rows - failed
      {
        assert rows - failed != {};
        var id :| id in rows - failed;
        FailOneMore(t, failed, id);
        ops := ops[id := ops[id].(state := Failed)];
        ReleaseLocks(id);
        failed := failed + {id};
      }
    }

    /** executing: a transaction may have been sent. */
    method MarkExecutingUnknown() returns (madeUnknown: set<Id>)
      modifies this`ops
      ensures madeUnknown == set id | id in old(ops) && old(ops)[id].state == Executing
      ensures Content() == MarkAll(old(Content()), madeUnknown)
    {
      ghost var t := Content();
      var rows := set id | id in ops && ops[id].state == Executing;
      madeUnknown := {};
      assert MarkAll(t, {}).ops == t.ops;
      while madeUnknown != rows
        invariant madeUnknown <= rows <= t.ops.Keys
        invariant Content() == MarkAll(t, madeUnknown)
        decreases rows - madeUnknown
      {
        assert rows - madeUnknown != {};
        var id :| id in rows - madeUnknown;
        MarkOneMore(t, madeUnknown, id);
        ops := ops[id := ops[id].(state := Unknown)];
        madeUnknown := madeUnknown + {id};
      }
    }

    /** Startup recovery: fail what never reached the adapter, mark what may have reached it unknown. */
    method RecoverNonTerminalOperations() returns (failed: set<Id>, madeUnknown: set<Id>)
      modifies this
      ensures Content() == RecoverOps(old(Content()))
      ensures failed == set id | id in old(ops) && PreBroadcast(old(ops)[id].state)
      ensures madeUnknown == set id | id in old(ops) && old(ops)[id].state == Executing
    {
      failed := FailPreBroadcast();
      FailKeepsExecuting(old(Content()), failed);
      madeUnknown := MarkExecutingUnknown();
      BothLoopsRecover(old(Content()), failed, madeUnknown);
    }
  }
}
