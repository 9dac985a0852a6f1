/**
 The SQLite approval store. Write lists its UPDATE statements with their guards; class ApprovalStore performs them on
 its table. Every clock reading is a parameter: an operation reads the clock once per statement, and readings may differ.
 */
module ApprovalStore {
  import opened Basics
  import opened ApprovalStates

  type Id = string
  type Time = int

  datatype Action = CreateJob | ApproveUsdc | FundJob | ClaimRefund | RegisterAgent

  /** What matters of result_json: the retry mark and the transaction hash inside it. */
  datatype Saved = Saved(retryable: bool, txHash: Option<string>)

  datatype Row = Row(
    action: Action, role: string, wallet: string, chainId: int, requestHash: string, key: string,
    state: ApprovalState, txHash: Option<string>, result: Option<Saved>, operationId: Option<string>,
    error: Option<string>, expiresAt: Time, updatedAt: Time)

  datatype Input = Input(
    action: Action, role: string, wallet: string, chainId: int, requestHash: string, key: string, expiresAt: Time)

  type Rows = map<Id, Row>

  function NewRow(input: Input, now: Time): Row {
    Row(input.action, input.role, Lower(input.wallet), input.chainId, input.requestHash, input.key,
        Pending, None, None, None, None, input.expiresAt, now)
  }

  datatype Write =
    | Expire(now: Time)
    | Approve(now: Time)
    | BeginApproved(now: Time)
    | BeginPending(now: Time)
    | Execute(txHash: Option<string>, result: Option<Saved>, operationId: Option<string>, now: Time)
    | SaveRetry(result: Option<Saved>, now: Time)
    | Fail(message: string, now: Time)
    | FailWith(message: string, result: Option<Saved>, now: Time)
    | Reject(reason: Option<string>, now: Time)
    | Cancel(now: Time)

  /** message.slice(0, 500) */
  function Cut(message: string): string {
    if |message| <= 500 then message else message[..500]
  }

  /** The WHERE clause of a statement. */
  predicate Applies(row: Row, w: Write) {
    match w
    case Expire(now) => row.state in {Pending, Approved} && row.expiresAt <= now
    case Approve(_) => row.state == Pending
    case BeginApproved(now) => row.state == Approved && row.expiresAt > now
    case BeginPending(now) => row.state == Pending && row.expiresAt > now
    case Reject(_, _) => row.state == Pending
    case Cancel(_) => row.state == Pending
    case _ => row.state == Executing
  }

  /** The SET clause of a statement. */
  function Changed(row: Row, w: Write): Row {
    match w
    case Expire(now) => row.(state := Expired, updatedAt := now)
    case Approve(now) => row.(state := Approved, updatedAt := now)
    case BeginApproved(now) => row.(state := Executing, updatedAt := now)
    case BeginPending(now) => row.(state := Executing, updatedAt := now)
    case Execute(tx, result, op, now) =>
      row.(state := Executed, txHash := tx, result := result, operationId := op, updatedAt := now)
    case SaveRetry(result, now) => row.(result := result, updatedAt := now)
    case Fail(message, now) => row.(state := Failed, error := Some(Cut(message)), updatedAt := now)
    case FailWith(message, result, now) =>
      row.(state := Failed, error := Some(Cut(message)), result := result,
           txHash := if result.Some? then Truthy(result.value.txHash) else None, updatedAt := now)
    case Reject(reason, now) => row.(state := Rejected, error := reason, updatedAt := now)
    case Cancel(now) => row.(state := Cancelled, updatedAt := now)
  }

  function Apply(row: Row, w: Write): Row {
    if Applies(row, w) then Changed(row, w) else row
  }

  function ApplyAll(row: Row, ws: seq<Write>): Row
    decreases |ws|
  {
    if ws == [] then row else ApplyAll(Apply(row, ws[0]), ws[1..])
  }

  function Written(rows: Rows, id: Id, ws: seq<Write>): Rows {
    if id in rows then rows[id := ApplyAll(rows[id], ws)] else rows
  }

  function Fetch(rows: Rows, id: Id): Option<Row> {
    if id in rows then Some(rows[id]) else None
  }

  datatype TransitionResult = Moved(approval: Row) | InvalidState(current: Row) | NotFound

  /** What a guarded transition answers: whether its statement applied, and the record re-read afterwards. */
  function Outcome(rows: Rows, id: Id, w: Write, later: Time): TransitionResult {
    if id !in rows then NotFound
    else
      var after := ApplyAll(rows[id], [w, Expire(later)]);
      if Applies(rows[id], w) then Moved(after) else InvalidState(after)
  }

  // ----- safety over every run of statements -----

  /** One statement makes at most one move; a final row never changes again. */
  lemma OneStatement(row: Row, w: Write)
    ensures Moves(row.state, Apply(row, w).state)
    ensures Final(row.state) ==> Apply(row, w) == row
    ensures Apply(row, w).expiresAt == row.expiresAt
    ensures Apply(row, w).state == Executing && row.state != Executing ==>
              row.state in {Pending, Approved} && w.now < row.expiresAt && (w.BeginApproved? || w.BeginPending?)
    ensures Apply(row, w).state == Executed && row.state != Executed ==> row.state == Executing && w.Execute?
    ensures row.state == Executing ==> Apply(row, w).state in {Executing, Executed, Failed}
  {
  }

  lemma {:induction false} ApplyAllPrefix(row: Row, ws: seq<Write>, k: nat)
    requires k < |ws|
    ensures ApplyAll(row, ws[..k + 1]) == Apply(ApplyAll(row, ws[..k]), ws[k])
    decreases |ws|
  {
    if k == 0 {
      assert ws[..1] == [ws[0]] && ws[..0] == [];
    } else {
      ApplyAllPrefix(Apply(row, ws[0]), ws[1..], k - 1);
      assert ws[..k + 1][1..] == ws[1..][..k] && ws[..k][1..] == ws[1..][..k - 1];
    }
  }

  lemma {:induction false} ApplyAllConcat(row: Row, a: seq<Write>, b: seq<Write>)
    ensures ApplyAll(row, a + b) == ApplyAll(ApplyAll(row, a), b)
    decreases |a|
  {
    if a == [] {
      assert a + b == b;
    } else {
      assert (a + b)[1..] == a[1..] + b;
      ApplyAllConcat(Apply(row, a[0]), a[1..], b);
    }
  }

  /** The five final states are absorbing: nothing in the row changes any more. */
  lemma {:induction false} FinalIsForEver(row: Row, ws: seq<Write>)
    requires Final(row.state)
    ensures ApplyAll(row, ws) == row
    decreases |ws|
  {
    if ws != [] {
      OneStatement(row, ws[0]);
      FinalIsForEver(row, ws[1..]);
    }
  }

  lemma {:induction false} ExpiryIsFixed(row: Row, ws: seq<Write>)
    ensures ApplyAll(row, ws).expiresAt == row.expiresAt
    decreases |ws|
  {
    if ws != [] {
      OneStatement(row, ws[0]);
      ExpiryIsFixed(Apply(row, ws[0]), ws[1..]);
    }
  }

  lemma {:induction false} AfterExecuting(row: Row, ws: seq<Write>)
    requires row.state in {Executing, Executed, Failed}
    ensures ApplyAll(row, ws).state in {Executing, Executed, Failed}
    decreases |ws|
  {
    if ws != [] {
      OneStatement(row, ws[0]);
      AfterExecuting(Apply(row, ws[0]), ws[1..]);
    }
  }

  /** Statement k of the run moves the row into executing. */
  ghost predicate Enters(row: Row, ws: seq<Write>, k: nat) {
    && k < |ws|
    && ApplyAll(row, ws[..k]).state != Executing
    && ApplyAll(row, ws[..k + 1]).state == Executing
  }

  /** Executing is entered at most once in a run, and strictly before the expiry time, whatever the clock shows. */
  lemma ExecutingIsEnteredOnce(row: Row, ws: seq<Write>, i: nat, j: nat)
    requires Enters(row, ws, i) && Enters(row, ws, j)
    ensures i == j && ws[i].now < row.expiresAt
  {
    ApplyAllPrefix(row, ws, i);
    ExpiryIsFixed(row, ws[..i]);
    OneStatement(ApplyAll(row, ws[..i]), ws[i]);
    if i != j {
      var (a, b) := if i < j then (i, j) else (j, i);
      assert ws[..b] == ws[..a + 1] + ws[a + 1..b];
      ApplyAllConcat(row, ws[..a + 1], ws[a + 1..b]);
      AfterExecuting(ApplyAll(row, ws[..a + 1]), ws[a + 1..b]);
      ApplyAllPrefix(row, ws, b);
      OneStatement(ApplyAll(row, ws[..b]), ws[b]);
    }
  }

  /** A row that was not executing or executed and ends executed has passed through executing. */
  lemma {:induction false} ExecutedOnlyViaExecuting(row: Row, ws: seq<Write>)
    requires row.state !in {Executing, Executed} && ApplyAll(row, ws).state in {Executing, Executed}
    ensures exists k: nat :: Enters(row, ws, k)
    decreases |ws|
  {
    var k := |ws| - 1;
    if ws == [] {
    } else {
      var before := ApplyAll(row, ws[..k]);
      ApplyAllPrefix(row, ws, k);
      assert ws[..k + 1] == ws;
      OneStatement(before, ws[k]);
      if before.state in {Executing, Executed} {
        ExecutedOnlyViaExecuting(row, ws[..k]);
        var e: nat :| Enters(row, ws[..k], e);
        assert ws[..k][..e] == ws[..e] && ws[..k][..e + 1] == ws[..e + 1];
        assert Enters(row, ws, e);
      } else {
        assert Enters(row, ws, k);
      }
    }
  }

  // ----- the store -----

  lemma One(row: Row, w: Write)
    ensures ApplyAll(row, [w]) == Apply(row, w)
  {
    assert [w][1..] == [];
  }

  lemma WrittenTwice(rows: Rows, id: Id, w: Write, v: Write)
    ensures Written(rows, id, [w, v]) == Written(Written(rows, id, [w]), id, [v])
    ensures id in rows ==> Written(rows, id, [w])[id] == Apply(rows[id], w)
    ensures id in rows && !Applies(rows[id], w) ==> Written(rows, id, [w]) == rows
  {
    if id in rows {
      One(rows[id], w);
      ApplyAllConcat(rows[id], [w], [v]);
      assert [w] + [v] == [w, v];
      if !Applies(rows[id], w) {
        assert rows[id := rows[id]] == rows;
      }
    }
  }

  class ApprovalStore {
    var rows: Rows

    constructor ()
      ensures rows == map[]
    {
      rows := map[];
    }

    /** Inserts a pending row; the id is a fresh UUID. */
    method Create(id: Id, input: Input, now: Time)
      requires id !in rows
      modifies this
      ensures rows == old(rows)[id := NewRow(input, now)]
    {
      rows := rows[id := NewRow(input, now)];
    }

    /** get: expires the row on reading it. */
    method Get(id: Id, now: Time) returns (r: Option<Row>)
      modifies this
      ensures rows == Written(old(rows), id, [Expire(now)]) && r == Fetch(rows, id)
    {
      if id !in rows {
        return None;
      }
      CheckAndExpire(id, now);
      r := Some(rows[id]);
    }

    method CheckAndExpire(id: Id, now: Time)
      requires id in rows
      modifies this
      ensures rows == Written(old(rows), id, [Expire(now)])
    {
      var record := rows[id];
      One(record, Expire(now));
      if record.state != Pending && record.state != Approved {
        assert rows == rows[id := record];
        return;
      }
      if record.expiresAt > now {
        assert rows == rows[id := record];
        return;
      }
      rows := rows[id := record.(state := Expired, updatedAt := now)];
    }

    /** The end of every guarded transition: the record as re-read after the statement. */
    method Answer(id: Id, changed: bool, later: Time) returns (r: TransitionResult)
      modifies this
      ensures rows == Written(old(rows), id, [Expire(later)])
      ensures r == if id !in rows then NotFound else if changed then Moved(rows[id]) else InvalidState(rows[id])
    {
      var current := Get(id, later);
      if current.None? {
        return NotFound;
      }
      r := if changed then Moved(current.value) else InvalidState(current.value);
    }

    method TransitionToApproved(id: Id, now: Time, later: Time) returns (r: TransitionResult)
      modifies this
      ensures rows == Written(old(rows), id, [Approve(now), Expire(later)])
      ensures r == Outcome(old(rows), id, Approve(now), later)
    {
      var changed := id in rows && rows[id].state == Pending;
      if changed {
        rows := rows[id := rows[id].(state := Approved, updatedAt := now)];
      }
      WrittenTwice(old(rows), id, Approve(now), Expire(later));
      r := Answer(id, changed, later);
    }

    method TransitionFromApprovedToExecuting(id: Id, now: Time, later: Time) returns (r: TransitionResult)
      modifies this
      ensures rows == Written(old(rows), id, [BeginApproved(now), Expire(later)])
      ensures r == Outcome(old(rows), id, BeginApproved(now), later)
    {
      var changed := id in rows && rows[id].state == Approved && rows[id].expiresAt > now;
      if changed {
        rows := rows[id := rows[id].(state := Executing, updatedAt := now)];
      }
      WrittenTwice(old(rows), id, BeginApproved(now), Expire(later));
      r := Answer(id, changed, later);
    }

    method TransitionToExecuting(id: Id, now: Time, later: Time) returns (r: TransitionResult)
      modifies this
      ensures rows == Written(old(rows), id, [BeginPending(now), Expire(later)])
      ensures r == Outcome(old(rows), id, BeginPending(now), later)
    {
      var changed := id in rows && rows[id].state == Pending && rows[id].expiresAt > now;
      if changed {
        rows := rows[id := rows[id].(state := Executing, updatedAt := now)];
      }
      WrittenTwice(old(rows), id, BeginPending(now), Expire(later));
      r := Answer(id, changed, later);
    }

    method TransitionToRejected(id: Id, reason: Option<string>, now: Time, later: Time) returns (r: TransitionResult)
      modifies this
      ensures rows == Written(old(rows), id, [Reject(reason, now), Expire(later)])
      ensures r == Outcome(old(rows), id, Reject(reason, now), later)
    {
      var changed := id in rows && rows[id].state == Pending;
      if changed {
        rows := rows[id := rows[id].(state := Rejected, error := reason, updatedAt := now)];
      }
      WrittenTwice(old(rows), id, Reject(reason, now), Expire(later));
      r := Answer(id, changed, later);
    }

    method TransitionToCancelled(id: Id, now: Time, later: Time) returns (r: TransitionResult)
      modifies this
      ensures rows == Written(old(rows), id, [Cancel(now), Expire(later)])
      ensures r == Outcome(old(rows), id, Cancel(now), later)
    {
      var changed := id in rows && rows[id].state == Pending;
      if changed {
        rows := rows[id := rows[id].(state := Cancelled, updatedAt := now)];
      }
      WrittenTwice(old(rows), id, Cancel(now), Expire(later));
      r := Answer(id, changed, later);
    }

    method TransitionToExecuted(id: Id, tx: Option<string>, result: Option<Saved>, op: Option<string>,
                                now: Time, later: Time)
      returns (r: Option<Row>)
      modifies this
      ensures rows == Written(old(rows), id, [Execute(tx, result, op, now), Expire(later)]) && r == Fetch(rows, id)
    {
      if id in rows && rows[id].state == Executing {
        rows := rows[id := rows[id].(state := Executed, txHash := tx, result := result, operationId := op,
                                     updatedAt := now)];
      }
      WrittenTwice(old(rows), id, Execute(tx, result, op, now), Expire(later));
      r := Get(id, later);
    }

    method SaveExecutingRetryMetadata(id: Id, result: Saved, now: Time)
      modifies this
      ensures rows == Written(old(rows), id, [SaveRetry(Some(result), now)])
    {
      if id in rows {
        One(rows[id], SaveRetry(Some(result), now));
      }
      if id in rows && rows[id].state == Executing {
        rows := rows[id := rows[id].(result := Some(result), updatedAt := now)];
      } else {
        assert id in rows ==> rows == rows[id := rows[id]];
      }
    }

    method TransitionToFailed(id: Id, message: string, now: Time, later: Time) returns (r: Option<Row>)
      modifies this
      ensures rows == Written(old(rows), id, [Fail(message, now), Expire(later)]) && r == Fetch(rows, id)
    {
      if id in rows && rows[id].state == Executing {
        rows := rows[id := rows[id].(state := Failed, error := Some(Cut(message)), updatedAt := now)];
      }
      WrittenTwice(old(rows), id, Fail(message, now), Expire(later));
      r := Get(id, later);
    }

    method TransitionToFailedWithResult(id: Id, message: string, result: Option<Saved>, now: Time, later: Time)
      returns (r: Option<Row>)
      modifies this
      ensures rows == Written(old(rows), id, [FailWith(message, result, now), Expire(later)]) && r == Fetch(rows, id)
    {
      if id in rows && rows[id].state == Executing {
        rows := rows[id := rows[id].(state := Failed, error := Some(Cut(message)), result := result,
            txHash := if result.Some? then Truthy(result.value.txHash) else None, updatedAt := now)];
      }
      WrittenTwice(old(rows), id, FailWith(message, result, now), Expire(later));
      r := Get(id, later);
    }
  }
}
