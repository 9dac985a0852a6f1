/** Where each operation of the approval manager leaves an approval, in terms of its row and of the service's reply. */
module ApprovalOutcomes {
  import opened Basics
  import opened ApprovalStates
  import opened ApprovalStore
  import opened ApprovalManager
  import opened ApprovalRuns

  // ----- what a reply leads to -----

  /** The service says that the agent is registered, and does not say that it is invisible. */
  predicate Registered(r: Reply) {
    r.ok && r.visible != Some(false)
  }

  /** The chain has the transaction, the console does not show the agent yet. */
  predicate Pends(r: Reply) {
    !Registered(r) && (r.retryable || r.code == Some("sync_pending_retryable"))
  }

  function FirstOf(text: string, n: nat): string {
    if |text| <= n then text else text[..n]
  }

  /** The reason a refused reply gives. */
  predicate Gives(r: Reply, why: string) {
    || r.reason == Some(why)
    || (r.reason == None && r.error == Some(why))
    || (r.reason == None && r.error == None && why == "Service returned ok: false")
  }

  /** The row after a reply: executed with the hash, failed with the reason and the hash, or executing with the hash kept. */
  ghost predicate RightEnd(before: Row, r: Reply, tx: Option<string>, resultTx: Option<string>, invisible: string, after: Row) {
    && (Registered(r) ==>
          && after.state == Executed && after.txHash == tx && after.result == Some(Saved(false, resultTx))
          && after.error == before.error)
    && (!Registered(r) && !Pends(r) ==>
          && after.state == Failed && after.result == Some(Saved(false, tx))
          && after.txHash == (if tx == Some("") then None else tx)
          && (r.ok ==> after.error == Some(FirstOf(invisible, 500)))
          && (!r.ok ==> exists why :: Gives(r, why) && after.error == Some(FirstOf(why, 500))))
    && (Pends(r) ==>
          && after.state == Executing && after.result == Some(Saved(true, tx))
          && after.txHash == before.txHash && after.error == before.error)
    && after.expiresAt == before.expiresAt && after.action == before.action
    && after.requestHash == before.requestHash && after.wallet == before.wallet
  }

  lemma ReasonIsGiven(r: Reply)
    ensures Gives(r, Reason(r))
  {
  }

  /** An executing row is not touched by the expiry of the re-read. */
  lemma LastWrite(row: Row, w: Write, later: Time)
    requires Apply(row, w).state in {Executing, Executed, Failed}
    ensures ApplyAll(row, [w, Expire(later)]) == Apply(row, w)
  {
    Two(row, w, Expire(later));
    ExpireAfter(Apply(row, w), later);
  }

  lemma FirstEnds(row: Row, r: Reply, now: Time, later: Time)
    requires row.state == Executing
    ensures RightEnd(row, r, r.txHash, r.txHash, INVISIBLE, ApplyAll(row, PlanFinish(First, r, now, later)))
  {
    var w := PlanFinish(First, r, now, later)[0];
    ReasonIsGiven(r);
    LastWrite(row, w, later);
    One(row, w);
  }

  lemma RetryEnds(row: Row, existing: string, r: Reply, now: Time, later: Time)
    requires row.state == Executing
    ensures RightEnd(row, r, if r.txHash.Some? then r.txHash else Some(existing), r.txHash, STILL_INVISIBLE,
                     ApplyAll(row, PlanFinish(Retry(existing), r, now, later)))
  {
    var w := PlanFinish(Retry(existing), r, now, later)[0];
    ReasonIsGiven(r);
    LastWrite(row, w, later);
    One(row, w);
  }

  /** The generic path knows no pending state: executed when the service is content, failed otherwise. */
  lemma GenericEnds(row: Row, r: Reply, now: Time, later: Time)
    requires row.state == Executing
    ensures var after := ApplyAll(row, PlanFinish(Generic, r, now, later));
            && (r.ok ==> after.state == Executed && after.txHash == r.txHash && after.operationId == r.operationId
                         && after.result == Some(Saved(false, r.txHash)))
            && (!r.ok ==> after.state == Failed && after.result == row.result && after.txHash == row.txHash
                          && exists why :: Gives(r, why) && after.error == Some(FirstOf(why, 500)))
  {
    ReasonIsGiven(r);
    LastWrite(row, PlanFinish(Generic, r, now, later)[0], later);
  }

  /** An exception fails an executing approval with its message, and keeps what it knew. */
  lemma ThrowEnds(row: Row, message: string, now: Time, later: Time)
    requires row.state == Executing
    ensures var after := ApplyAll(row, PlanThrow(message, now, later));
            after.state == Failed && after.error == Some(FirstOf(message, 500))
            && after.txHash == row.txHash && after.result == row.result
  {
    LastWrite(row, Fail(message, now), later);
  }

  lemma ElsewhereEnds(row: Row, call: Call, r: Reply, now: Time, later: Time)
    requires Final(row.state)
    ensures ApplyAll(row, PlanFinish(call, r, now, later)) == row
  {
    FinalIsUntouched(row, PlanFinish(call, r, now, later));
  }

  lemma {:induction false} FinalIsUntouched(row: Row, ws: seq<Write>)
    requires Final(row.state)
    ensures ApplyAll(row, ws) == row
    decreases |ws|
  {
    if ws != [] {
      OneStatement(row, ws[0]);
      FinalIsUntouched(row, ws[1..]);
    }
  }

  // ----- over runs -----

  /** In every run, the reply to the first call decides where the approval goes. */
  lemma FirstReplyDecides(input: Input, now: Time, steps: seq<Step>, k: nat, r: Reply, t: Time, later: Time)
    requires input.action == RegisterAgent && PossibleRun(Fresh(input, now), steps)
    requires var w := Run(Fresh(input, now), steps); k < |w.calls| && w.calls[k] == First && Answers(First, r)
    ensures var w := Run(Fresh(input, now), steps);
            var after := Next(w, Return(k, r, t, later));
            && w.row.state == Executing && w.calls == [First] && after.calls == []
            && RightEnd(w.row, r, r.txHash, r.txHash, INVISIBLE, after.row)
  {
    var w := Run(Fresh(input, now), steps);
    RunKeepsInv(Fresh(input, now), steps);
    FirstIsAlone(w, k);
    FirstEnds(w.row, r, t, later);
  }

  lemma FirstIsAlone(w: World, k: nat)
    requires Inv(w) && k < |w.calls| && w.calls[k] == First
    ensures w.row.state == Executing && w.calls == [First] && Without(w.calls, k) == []
  {
    assert Plainly(w.calls[k]);
    WithoutKeeps(w.calls, k);
    assert w.calls == [w.calls[0]];
  }

  /** While a retry is in flight the approval is executing, or has ended. */
  lemma RetryInFlight(w: World, k: nat)
    requires Inv(w) && k < |w.calls| && w.calls[k].Retry?
    ensures w.row.state == Executing || Final(w.row.state)
  {
    assert w.calls != [];
  }

  /** In every run, the reply to a retry decides it in the same way, unless the approval has ended meanwhile. */
  lemma RetryReplyDecides(input: Input, now: Time, steps: seq<Step>, k: nat, r: Reply, t: Time, later: Time)
    requires input.action == RegisterAgent && PossibleRun(Fresh(input, now), steps)
    requires var w := Run(Fresh(input, now), steps); k < |w.calls| && w.calls[k].Retry? && Answers(w.calls[k], r)
    ensures var w := Run(Fresh(input, now), steps);
            var after := Next(w, Return(k, r, t, later)).row;
            if w.row.state == Executing then RightEnd(w.row, r, Some(w.calls[k].existing), r.txHash, STILL_INVISIBLE, after)
            else Final(w.row.state) && after == w.row
  {
    var w := Run(Fresh(input, now), steps);
    RunKeepsInv(Fresh(input, now), steps);
    RetryInFlight(w, k);
    if w.row.state == Executing {
      var existing := w.calls[k].existing;
      assert w.calls[k] == Retry(existing);
      RetryEnds(w.row, existing, r, t, later);
    } else {
      ElsewhereEnds(w.row, w.calls[k], r, t, later);
    }
  }

  /**
   After a pending reply that named a hash, the next execution that is not aborted retries with that very hash, and
   writes nothing; after one without a hash, it does nothing at all.
   */
  lemma PendingIsRetried(input: Input, now: Time, steps: seq<Step>, k: nat, r: Reply, t: Time, later: Time, clock: Clock)
    requires input.action == RegisterAgent && PossibleRun(Fresh(input, now), steps)
    requires var w := Run(Fresh(input, now), steps); k < |w.calls| && w.calls[k] == First && Answers(First, r)
    requires Pends(r)
    ensures var after := Next(Run(Fresh(input, now), steps), Return(k, r, t, later));
            Next(after, ExecuteIt(false, clock)) ==
              if r.txHash.Some? then World(after.row, [Retry(r.txHash.value)], after.plain) else after
  {
    FirstReplyDecides(input, now, steps, k, r, t, later);
    RunKeepsInv(Fresh(input, now), steps);
    ExecuteOfPending(Next(Run(Fresh(input, now), steps), Return(k, r, t, later)), r.txHash, clock);
  }

  lemma ExecuteOfPending(w: World, tx: Option<string>, clock: Clock)
    requires w.row.action == RegisterAgent && w.row.state == Executing && w.row.result == Some(Saved(true, tx))
    requires w.calls == [] && tx != Some("")
    ensures Next(w, ExecuteIt(false, clock)) == if tx.Some? then World(w.row, [Retry(tx.value)], w.plain) else w
  {
    One(w.row, Expire(clock(0)));
    ExpireAfter(w.row, clock(0));
  }

  // ----- when a call is made -----

  predicate Expired(row: Row, at: Time) {
    row.expiresAt <= at
  }

  /** The row an operation sees: a pending or approved one that has expired is expired on reading. */
  predicate StandsAt(row: Row, state: ApprovalState, at: Time) {
    row.state == state && (state in {Pending, Approved} ==> !Expired(row, at))
  }

  lemma SeenState(row: Row, at: Time)
    ensures var seen := Apply(row, Expire(at));
            && (row.state in {Pending, Approved} && Expired(row, at) ==> seen == row.(state := ApprovalState.Expired, updatedAt := at))
            && (!(row.state in {Pending, Approved} && Expired(row, at)) ==> seen == row)
  {
  }

  /** The wallet is asked exactly for an approved registration that has not expired, unless the caller has aborted. */
  lemma FirstCallIff(row: Row, aborted: bool, clock: Clock)
    ensures PlanExecute(row, aborted, clock).call == Some(First) <==>
              && row.action == RegisterAgent && !aborted && row.state == Approved
              && !Expired(row, clock(0)) && !Expired(row, clock(1))
  {
    SeenState(row, clock(0));
  }

  /** A retry is made exactly for an executing registration that was saved as pending with a hash. */
  lemma RetryIff(row: Row, aborted: bool, clock: Clock, h: string)
    ensures PlanExecute(row, aborted, clock).call == Some(Retry(h)) <==>
              && row.action == RegisterAgent && !aborted && row.state == Executing
              && row.result == Some(Saved(true, Some(h))) && h != ""
  {
    SeenState(row, clock(0));
  }

  /** A first execution leaves the row executing; an aborted one failed; otherwise at most expired. */
  lemma ExecuteLeaves(row: Row, aborted: bool, clock: Clock)
    requires row.action == RegisterAgent && row.state == Approved
    ensures var after := ApplyAll(row, PlanExecute(row, aborted, clock).writes);
            if Expired(row, clock(0)) || Expired(row, clock(1)) then
              after.state in {Approved, ApprovalState.Expired} && after.result == row.result && after.txHash == row.txHash
            else
              && after.state == (if aborted then Failed else Executing)
              && after.result == row.result && after.txHash == row.txHash
  {
    var begin := BeginApproved(clock(1));
    SeenState(row, clock(0));
    if Expired(row, clock(0)) {
      One(row, Expire(clock(0)));
    } else {
      Three(row, Expire(clock(0)), begin, Expire(clock(2)));
      if !Expired(row, clock(1)) {
        ExpireAfter(Apply(row, begin), clock(2));
        if aborted {
          var abort := Fail("Execution aborted by signal", clock(3));
          ApplyAllConcat(row, [Expire(clock(0)), begin, Expire(clock(2))], [abort, Expire(clock(4))]);
          LastWrite(Apply(row, begin), abort, clock(4));
        }
      }
    }
  }

  /** approve calls the service exactly for its owner, with the right hash and chain, on a pending row that has not expired. */
  lemma GenericCallIff(row: Row, caller: Caller, chain: Option<int>, clock: Clock)
    ensures PlanApprove(row, caller, chain, clock).call == Some(Generic) <==>
              && row.state == Pending && !Expired(row, clock(0)) && !Expired(row, clock(1))
              && row.role == caller.role && row.wallet == Lower(caller.wallet)
              && (caller.expectedHash in {None, Some(""), Some(row.requestHash)})
              && row.chainId == caller.chainId && (chain.Some? ==> chain.value == row.chainId)
    ensures PlanApprove(row, caller, chain, clock).call in {None, Some(Generic)}
  {
    SeenState(row, clock(0));
  }

  // ----- where the decisions of people leave it -----

  /** Where a decision on a pending row leaves it: moved, and then perhaps expired by the re-read; or where it was. */
  lemma ApproveByIdLeaves(row: Row, clock: Clock)
    ensures var after := ApplyAll(row, PlanApproveById(row, clock).writes);
            if row.action == RegisterAgent && StandsAt(row, Pending, clock(0)) then
              after.state == (if Expired(row, clock(2)) then ApprovalState.Expired else Approved)
            else
              after.state == (if row.state in {Pending, Approved} && Expired(row, clock(0)) then ApprovalState.Expired else row.state)
  {
    SeenState(row, clock(0));
    One(row, Expire(clock(0)));
    Three(row, Expire(clock(0)), Approve(clock(1)), Expire(clock(2)));
  }

  lemma RejectByIdLeaves(row: Row, reason: Option<string>, clock: Clock)
    ensures var after := ApplyAll(row, PlanRejectById(row, reason, clock).writes);
            if row.action == RegisterAgent && StandsAt(row, Pending, clock(0)) then
              after.state == Rejected && after.error == reason
            else
              after.state == (if row.state in {Pending, Approved} && Expired(row, clock(0)) then ApprovalState.Expired else row.state)
  {
    SeenState(row, clock(0));
    One(row, Expire(clock(0)));
    Three(row, Expire(clock(0)), Write.Reject(reason, clock(1)), Expire(clock(2)));
  }

  predicate IsOwner(row: Row, caller: Caller) {
    row.role == caller.role && row.wallet == Lower(caller.wallet)
  }

  lemma RejectLeaves(row: Row, caller: Caller, reason: Option<string>, clock: Clock)
    ensures var after := ApplyAll(row, PlanReject(row, caller, reason, clock).writes);
            && (IsOwner(row, caller) && StandsAt(row, Pending, clock(0)) ==> after.state == Rejected && after.error == reason)
            && (!IsOwner(row, caller) || row.state != Pending ==> after.state in {row.state, ApprovalState.Expired})
            && (after.state == Rejected && row.state != Rejected ==> IsOwner(row, caller) && StandsAt(row, Pending, clock(0)))
  {
    SeenState(row, clock(0));
    One(row, Expire(clock(0)));
    Three(row, Expire(clock(0)), Write.Reject(reason, clock(1)), Expire(clock(2)));
  }

  lemma CancelLeaves(row: Row, caller: Caller, clock: Clock)
    ensures var after := ApplyAll(row, PlanCancel(row, caller, clock).writes);
            && (IsOwner(row, caller) && StandsAt(row, Pending, clock(0)) ==> after.state == Cancelled)
            && (!IsOwner(row, caller) || row.state != Pending ==> after.state in {row.state, ApprovalState.Expired})
            && (after.state == Cancelled && row.state != Cancelled ==> IsOwner(row, caller) && StandsAt(row, Pending, clock(0)))
  {
    SeenState(row, clock(0));
    One(row, Expire(clock(0)));
    Three(row, Expire(clock(0)), Write.Cancel(clock(1)), Expire(clock(2)));
  }

  // ----- what a guarded transition answers -----

  /** The states from which a statement moves a row, and whether it must not have expired. */
  predicate MovesFrom(w: Write, state: ApprovalState) {
    match w
    case Expire(_) => state == Pending || state == Approved
    case Approve(_) => state == Pending
    case BeginApproved(_) => state == Approved
    case BeginPending(_) => state == Pending
    case Reject(_, _) => state == Pending
    case Cancel(_) => state == Pending
    case _ => state == Executing
  }

  /** A transition says that it moved the row exactly when the row stood in its state, and was alive where that matters. */
  lemma TransitionAnswers(rows: Rows, id: Id, w: Write, later: Time)
    ensures Outcome(rows, id, w, later) == NotFound <==> id !in rows
    ensures id in rows && !w.Expire? ==>
              (Outcome(rows, id, w, later).Moved? <==>
                 MovesFrom(w, rows[id].state) && (w.BeginApproved? || w.BeginPending? ==> rows[id].expiresAt > w.now))
    ensures id in rows && !Outcome(rows, id, w, later).Moved? ==> Outcome(rows, id, w, later).InvalidState?
  {
  }

  /** And hands out the row as it then stands. */
  lemma TransitionHandsOut(rows: Rows, id: Id, w: Write, later: Time)
    requires id in rows && !w.Expire?
    ensures var o := Outcome(rows, id, w, later);
            var row := if o.Moved? then o.approval else o.current;
            row == ApplyAll(rows[id], [w, Expire(later)])
  {
  }
}
