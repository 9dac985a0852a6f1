/**
 The approval manager. Each asynchronous operation is cut at its await: a Begin part, which may put a service call in
 flight, and a Finish part, which handles what the call returned or threw. What a part writes is a list of store
 statements; class ApprovalManager performs it. clock(k) is the k-th reading of the clock within one part.
 */
module ApprovalManager {
  import opened Basics
  import opened ApprovalStates
  import opened ApprovalStore

  type Clock = nat -> Time

  /** A service call in flight for one approval. */
  datatype Call =
    | First
    | Retry(existing: string)
    | Generic

  /** What a service returns; visible is agentVisible, code is errorCode. */
  datatype Reply = Reply(
    ok: bool, txHash: Option<string>, operationId: Option<string>, visible: Option<bool>, retryable: bool,
    code: Option<string>, reason: Option<string>, error: Option<string>)

  datatype Caller = Caller(role: string, wallet: string, chainId: int, expectedHash: Option<string>)

  /** Statements to perform, and the call to make after them, if any. */
  datatype Plan = Plan(writes: seq<Write>, call: Option<Call>)

  const INVISIBLE: string := "On-chain registration succeeded but erc8004_agents upsert failed. Agent is not dashboard-visible."
  const STILL_INVISIBLE: string := "Retry sync failed: agent not dashboard-visible."

  function Reason(r: Reply): string {
    if r.reason.Some? then r.reason.value
    else if r.error.Some? then r.error.value
    else "Service returned ok: false"
  }

  predicate SyncPending(r: Reply) {
    r.retryable || r.code == Some("sync_pending_retryable")
  }

  /** The hash a stuck execution left for a retry; None when there is nothing to retry with. */
  function RetryHash(row: Row): Option<string> {
    if row.result.Some? && row.result.value.retryable then Truthy(row.result.value.txHash) else None
  }

  // ----- the plans -----

  function PlanApproveById(row: Row, clock: Clock): Plan {
    var seen := Apply(row, Expire(clock(0)));
    if seen.action != RegisterAgent || seen.state != Pending then Plan([Expire(clock(0))], None)
    else Plan([Expire(clock(0)), Approve(clock(1)), Expire(clock(2))], None)
  }

  function PlanRejectById(row: Row, reason: Option<string>, clock: Clock): Plan {
    var seen := Apply(row, Expire(clock(0)));
    if seen.action != RegisterAgent || seen.state != Pending then Plan([Expire(clock(0))], None)
    else Plan([Expire(clock(0)), Write.Reject(reason, clock(1)), Expire(clock(2))], None)
  }

  predicate Owns(row: Row, caller: Caller) {
    row.role == caller.role && row.wallet == Lower(caller.wallet)
  }

  function PlanReject(row: Row, caller: Caller, reason: Option<string>, clock: Clock): Plan {
    if !Owns(row, caller) then Plan([Expire(clock(0))], None)
    else Plan([Expire(clock(0)), Write.Reject(reason, clock(1)), Expire(clock(2))], None)
  }

  function PlanCancel(row: Row, caller: Caller, clock: Clock): Plan {
    if !Owns(row, caller) then Plan([Expire(clock(0))], None)
    else Plan([Expire(clock(0)), Write.Cancel(clock(1)), Expire(clock(2))], None)
  }

  predicate MayApprove(row: Row, caller: Caller, configuredChain: Option<int>) {
    && Owns(row, caller)
    && (Truthy(caller.expectedHash).None? || caller.expectedHash.value == row.requestHash)
    && caller.chainId == row.chainId
    && (configuredChain.None? || row.chainId == configuredChain.value)
  }

  /** approve, up to the service call. */
  function PlanApprove(row: Row, caller: Caller, configuredChain: Option<int>, clock: Clock): Plan {
    var seen := Apply(row, Expire(clock(0)));
    if !MayApprove(seen, caller, configuredChain) || Final(seen.state) || seen.state == Executing then
      Plan([Expire(clock(0))], None)
    else if Applies(seen, BeginPending(clock(1))) then
      Plan([Expire(clock(0)), BeginPending(clock(1)), Expire(clock(2))], Some(Generic))
    else
      Plan([Expire(clock(0)), BeginPending(clock(1)), Expire(clock(2)), Expire(clock(3))], None)
  }

  /** executeErc8004Registration, up to the service call. */
  function PlanExecute(row: Row, aborted: bool, clock: Clock): Plan {
    var seen := Apply(row, Expire(clock(0)));
    if seen.action != RegisterAgent then Plan([Expire(clock(0))], None)
    else if seen.state == Executing then
      match RetryHash(seen)
      case None => Plan([Expire(clock(0))], None)
      case Some(h) =>
        if aborted then Plan([Expire(clock(0)), Fail("Retry aborted by signal", clock(1)), Expire(clock(2))], None)
        else Plan([Expire(clock(0))], Some(Retry(h)))
    else if seen.state != Approved then Plan([Expire(clock(0))], None)
    else
      var begin := [Expire(clock(0)), BeginApproved(clock(1)), Expire(clock(2))];
      if !Applies(seen, BeginApproved(clock(1))) then Plan(begin, None)
      else if aborted then Plan(begin + [Fail("Execution aborted by signal", clock(3)), Expire(clock(4))], None)
      else Plan(begin, Some(First))
  }

  /** What becomes of the reply to a call; `now` and `later` are the clock at the statement and at the re-read. */
  function PlanFinish(call: Call, r: Reply, now: Time, later: Time): seq<Write> {
    match call
    case Generic =>
      if !r.ok then [Fail(Reason(r), now), Expire(later)]
      else [Execute(r.txHash, Some(Saved(false, r.txHash)), r.operationId, now), Expire(later)]
    case First =>
      if !r.ok || r.visible == Some(false) then
        if SyncPending(r) then [SaveRetry(Some(Saved(true, r.txHash)), now)]
        else [FailWith(if r.ok then INVISIBLE else Reason(r), Some(Saved(false, r.txHash)), now), Expire(later)]
      else [Execute(r.txHash, Some(Saved(false, r.txHash)), None, now), Expire(later)]
    case Retry(existing) =>
      var tx := if r.txHash.Some? then r.txHash else Some(existing);
      if !r.ok || r.visible == Some(false) then
        if SyncPending(r) then [SaveRetry(Some(Saved(true, tx)), now)]
        else [FailWith(if r.ok then STILL_INVISIBLE else Reason(r), Some(Saved(false, tx)), now), Expire(later)]
      else [Execute(tx, Some(Saved(false, r.txHash)), None, now), Expire(later)]
  }

  function PlanThrow(message: string, now: Time, later: Time): seq<Write> {
    [Fail(message, now), Expire(later)]
  }

  // ----- lists of statements -----

  lemma WrittenConcat(rows: Rows, id: Id, a: seq<Write>, b: seq<Write>)
    ensures Written(Written(rows, id, a), id, b) == Written(rows, id, a + b)
  {
    if id in rows {
      ApplyAllConcat(rows[id], a, b);
    }
  }

  // ----- the manager -----

  class ApprovalManager {
    const store: ApprovalStore
    const configuredChain: Option<int>

    constructor (store: ApprovalStore, configuredChain: Option<int>)
      ensures this.store == store && this.configuredChain == configuredChain
    {
      this.store, this.configuredChain := store, configuredChain;
    }

    method ApproveById(id: Id, clock: Clock) returns (ok: bool)
      modifies store
      ensures store.rows == if id in old(store.rows)
                            then Written(old(store.rows), id, PlanApproveById(old(store.rows)[id], clock).writes)
                            else old(store.rows)
      ensures ok <==> id in old(store.rows) && old(store.rows)[id].action == RegisterAgent
                      && Apply(old(store.rows)[id], Expire(clock(0))).state == Pending
    {
      ok := false;
      var approval := store.Get(id, clock(0));
      if approval.None? {
        return;
      }
      One(old(store.rows)[id], Expire(clock(0)));
      if approval.value.action != RegisterAgent {
        return;
      }
      if approval.value.state != Pending {
        return;
      }
      var result := store.TransitionToApproved(id, clock(1), clock(2));
      WrittenConcat(old(store.rows), id, [Expire(clock(0))], [Approve(clock(1)), Expire(clock(2))]);
      assert [Expire(clock(0))] + [Approve(clock(1)), Expire(clock(2))]
          == [Expire(clock(0)), Approve(clock(1)), Expire(clock(2))];
      ok := result.Moved?;
    }

    method RejectById(id: Id, reason: Option<string>, clock: Clock) returns (ok: bool)
      modifies store
      ensures store.rows == if id in old(store.rows)
                            then Written(old(store.rows), id, PlanRejectById(old(store.rows)[id], reason, clock).writes)
                            else old(store.rows)
      ensures ok <==> id in old(store.rows) && old(store.rows)[id].action == RegisterAgent
                      && Apply(old(store.rows)[id], Expire(clock(0))).state == Pending
    {
      ok := false;
      var approval := store.Get(id, clock(0));
      if approval.None? {
        return;
      }
      One(old(store.rows)[id], Expire(clock(0)));
      if approval.value.action != RegisterAgent {
        return;
      }
      if approval.value.state != Pending {
        return;
      }
      var result := store.TransitionToRejected(id, reason, clock(1), clock(2));
      WrittenConcat(old(store.rows), id, [Expire(clock(0))], [Write.Reject(reason, clock(1)), Expire(clock(2))]);
      assert [Expire(clock(0))] + [Write.Reject(reason, clock(1)), Expire(clock(2))]
          == [Expire(clock(0)), Write.Reject(reason, clock(1)), Expire(clock(2))];
      ok := result.Moved?;
    }

    method Reject(id: Id, caller: Caller, reason: Option<string>, clock: Clock) returns (ok: bool)
      modifies store
      ensures store.rows == if id in old(store.rows)
                            then Written(old(store.rows), id, PlanReject(old(store.rows)[id], caller, reason, clock).writes)
                            else old(store.rows)
      ensures ok <==> id in old(store.rows) && Owns(old(store.rows)[id], caller)
                      && Apply(old(store.rows)[id], Expire(clock(0))).state == Pending
    {
      ok := false;
      var approval := store.Get(id, clock(0));
      if approval.None? {
        return;
      }
      One(old(store.rows)[id], Expire(clock(0)));
      if approval.value.role != caller.role || approval.value.wallet != Lower(caller.wallet) {
        return;
      }
      var result := store.TransitionToRejected(id, reason, clock(1), clock(2));
      WrittenConcat(old(store.rows), id, [Expire(clock(0))], [Write.Reject(reason, clock(1)), Expire(clock(2))]);
      assert [Expire(clock(0))] + [Write.Reject(reason, clock(1)), Expire(clock(2))]
          == [Expire(clock(0)), Write.Reject(reason, clock(1)), Expire(clock(2))];
      ok := result.Moved?;
    }

    method Cancel(id: Id, caller: Caller, clock: Clock) returns (ok: bool)
      modifies store
      ensures store.rows == if id in old(store.rows)
                            then Written(old(store.rows), id, PlanCancel(old(store.rows)[id], caller, clock).writes)
                            else old(store.rows)
      ensures ok <==> id in old(store.rows) && Owns(old(store.rows)[id], caller)
                      && Apply(old(store.rows)[id], Expire(clock(0))).state == Pending
    {
      ok := false;
      var approval := store.Get(id, clock(0));
      if approval.None? {
        return;
      }
      One(old(store.rows)[id], Expire(clock(0)));
      if approval.value.role != caller.role || approval.value.wallet != Lower(caller.wallet) {
        return;
      }
      var result := store.TransitionToCancelled(id, clock(1), clock(2));
      WrittenConcat(old(store.rows), id, [Expire(clock(0))], [Write.Cancel(clock(1)), Expire(clock(2))]);
      assert [Expire(clock(0))] + [Write.Cancel(clock(1)), Expire(clock(2))]
          == [Expire(clock(0)), Write.Cancel(clock(1)), Expire(clock(2))];
      ok := result.Moved?;
    }

    method BeginApprove(id: Id, caller: Caller, clock: Clock) returns (call: Option<Call>)
      modifies store
      ensures id !in old(store.rows) ==> store.rows == old(store.rows) && call == None
      ensures id in old(store.rows) ==>
                var plan := PlanApprove(old(store.rows)[id], caller, configuredChain, clock);
                store.rows == Written(old(store.rows), id, plan.writes) && call == plan.call
    {
      var found := store.Get(id, clock(0));
      if found.None? {
        return None;
      }
      One(old(store.rows)[id], Expire(clock(0)));
      var approval := found.value;
      if approval.role != caller.role || approval.wallet != Lower(caller.wallet) {
        return None;
      }
      if Truthy(caller.expectedHash).Some? && caller.expectedHash.value != approval.requestHash {
        return None;
      }
      if caller.chainId != approval.chainId {
        return None;
      }
      if configuredChain.Some? && approval.chainId != configuredChain.value {
        return None;
      }
      if approval.state in {Executed, Executing, Failed, Rejected, Cancelled, Expired} {
        return None;
      }
      var begin := [BeginPending(clock(1)), Expire(clock(2))];
      var transition := store.TransitionToExecuting(id, clock(1), clock(2));
      WrittenConcat(old(store.rows), id, [Expire(clock(0))], begin);
      assert [Expire(clock(0))] + begin == [Expire(clock(0)), BeginPending(clock(1)), Expire(clock(2))];
      if !transition.Moved? {
        var _ := store.Get(id, clock(3));
        WrittenConcat(old(store.rows), id, [Expire(clock(0))] + begin, [Expire(clock(3))]);
        assert [Expire(clock(0))] + begin + [Expire(clock(3))]
            == [Expire(clock(0)), BeginPending(clock(1)), Expire(clock(2)), Expire(clock(3))];
        return None;
      }
      return Some(Generic);
    }

    method BeginExecute(id: Id, aborted: bool, clock: Clock) returns (call: Option<Call>)
      modifies store
      ensures id !in old(store.rows) ==> store.rows == old(store.rows) && call == None
      ensures id in old(store.rows) ==>
                var plan := PlanExecute(old(store.rows)[id], aborted, clock);
                store.rows == Written(old(store.rows), id, plan.writes) && call == plan.call
    {
      ghost var was := store.rows;
      var found := store.Get(id, clock(0));
      if found.None? {
        return None;
      }
      One(was[id], Expire(clock(0)));
      var approval := found.value;
      if approval.action != RegisterAgent || approval.state == Executed {
        return None;
      }
      if approval.state == Executing {
        var existing := approval.result;
        if existing.Some? && existing.value.retryable && Truthy(existing.value.txHash).Some? {
          if aborted {
            var _ := store.TransitionToFailed(id, "Retry aborted by signal", clock(1), clock(2));
            WrittenConcat(was, id, [Expire(clock(0))], PlanThrow("Retry aborted by signal", clock(1), clock(2)));
            assert [Expire(clock(0))] + PlanThrow("Retry aborted by signal", clock(1), clock(2))
                == [Expire(clock(0)), Fail("Retry aborted by signal", clock(1)), Expire(clock(2))];
            return None;
          }
          return Some(Retry(existing.value.txHash.value));
        }
        return None;
      }
      if approval.state != Approved {
        return None;
      }
      var transition := store.TransitionFromApprovedToExecuting(id, clock(1), clock(2));
      ghost var begin := [Expire(clock(0)), BeginApproved(clock(1)), Expire(clock(2))];
      WrittenConcat(was, id, [Expire(clock(0))], [BeginApproved(clock(1)), Expire(clock(2))]);
      assert [Expire(clock(0))] + [BeginApproved(clock(1)), Expire(clock(2))] == begin;
      if !transition.Moved? {
        return None;
      }
      if aborted {
        var _ := store.TransitionToFailed(id, "Execution aborted by signal", clock(3), clock(4));
        WrittenConcat(was, id, begin, [Fail("Execution aborted by signal", clock(3)), Expire(clock(4))]);
        return None;
      }
      return Some(First);
    }

    /** The rest of approve after the service has answered. */
    method FinishApprove(id: Id, r: Reply, now: Time, later: Time)
      modifies store
      ensures store.rows == Written(old(store.rows), id, PlanFinish(Generic, r, now, later))
    {
      if !r.ok {
        var reason := if r.reason.Some? then r.reason.value
                      else if r.error.Some? then r.error.value else "Service returned ok: false";
        var _ := store.TransitionToFailed(id, reason, now, later);
        return;
      }
      var _ := store.TransitionToExecuted(id, r.txHash, Some(Saved(false, r.txHash)), r.operationId, now, later);
    }

    /** The rest of a first execution after the service has answered. */
    method FinishFirst(id: Id, r: Reply, now: Time, later: Time)
      modifies store
      ensures store.rows == Written(old(store.rows), id, PlanFinish(First, r, now, later))
    {
      if !r.ok {
        if r.retryable || r.code == Some("sync_pending_retryable") {
          store.SaveExecutingRetryMetadata(id, Saved(true, r.txHash), now);
          return;
        }
        var _ := store.TransitionToFailedWithResult(id, Reason(r), Some(Saved(false, r.txHash)), now, later);
        return;
      }
      if r.visible == Some(false) {
        if r.retryable || r.code == Some("sync_pending_retryable") {
          store.SaveExecutingRetryMetadata(id, Saved(true, r.txHash), now);
          return;
        }
        var _ := store.TransitionToFailedWithResult(id, INVISIBLE, Some(Saved(false, r.txHash)), now, later);
        return;
      }
      var _ := store.TransitionToExecuted(id, r.txHash, Some(Saved(false, r.txHash)), None, now, later);
    }

    /** The rest of a retry with an existing hash after the service has answered. */
    method FinishRetry(id: Id, existing: string, r: Reply, now: Time, later: Time)
      modifies store
      ensures store.rows == Written(old(store.rows), id, PlanFinish(Retry(existing), r, now, later))
    {
      var tx := if r.txHash.Some? then r.txHash.value else existing;
      if !r.ok {
        if r.retryable || r.code == Some("sync_pending_retryable") {
          store.SaveExecutingRetryMetadata(id, Saved(true, Some(tx)), now);
          return;
        }
        var _ := store.TransitionToFailedWithResult(id, Reason(r), Some(Saved(false, Some(tx))), now, later);
        return;
      }
      if r.visible == Some(false) {
        if r.retryable || r.code == Some("sync_pending_retryable") {
          store.SaveExecutingRetryMetadata(id, Saved(true, Some(tx)), now);
          return;
        }
        var _ := store.TransitionToFailedWithResult(id, STILL_INVISIBLE, Some(Saved(false, Some(tx))), now, later);
        return;
      }
      var _ := store.TransitionToExecuted(id, Some(tx), Some(Saved(false, r.txHash)), None, now, later);
    }

    /** The catch block of all three. */
    method FinishWithError(id: Id, message: string, now: Time, later: Time)
      modifies store
      ensures store.rows == Written(old(store.rows), id, PlanThrow(message, now, later))
    {
      var _ := store.TransitionToFailed(id, message, now, later);
    }
  }
}
