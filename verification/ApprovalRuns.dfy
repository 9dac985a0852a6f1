/**
 Runs of one ERC-8004 registration approval: any interleaving of approve, reject, cancel, execute, retry, service
 replies and exceptions, aborts, reads and process crashes. A plain call is a call of the registration service
 without skipOnChainTxHash: the only kind that asks the wallet for a transaction.
 */
module ApprovalRuns {
  import opened Basics
  import opened ApprovalStates
  import opened ApprovalStore
  import opened ApprovalManager

  datatype World = World(row: Row, calls: seq<Call>, plain: nat)

  datatype Step =
    | Look(now: Time)
    | ApproveIt(clock: Clock)
    | RejectById(reason: Option<string>, clock: Clock)
    | RejectIt(caller: Caller, reason: Option<string>, clock: Clock)
    | CancelIt(caller: Caller, clock: Clock)
    | ApproveGeneric(caller: Caller, configuredChain: Option<int>, clock: Clock)
    | ExecuteIt(aborted: bool, clock: Clock)
    | Return(k: nat, reply: Reply, now: Time, later: Time)
    | Throw(k: nat, message: string, now: Time, later: Time)
    | Crash

  function Begin(w: World, plan: Plan): World {
    World(ApplyAll(w.row, plan.writes), if plan.call.Some? then w.calls + [plan.call.value] else w.calls,
          if plan.call == Some(First) then w.plain + 1 else w.plain)
  }

  function Without(calls: seq<Call>, k: nat): seq<Call>
    requires k < |calls|
  {
    calls[..k] + calls[k + 1..]
  }

  function Next(w: World, s: Step): World {
    match s
    case Look(now) => Begin(w, Plan([Expire(now)], None))
    case ApproveIt(clock) => Begin(w, PlanApproveById(w.row, clock))
    case RejectById(reason, clock) => Begin(w, PlanRejectById(w.row, reason, clock))
    case RejectIt(caller, reason, clock) => Begin(w, PlanReject(w.row, caller, reason, clock))
    case CancelIt(caller, clock) => Begin(w, PlanCancel(w.row, caller, clock))
    case ApproveGeneric(caller, chain, clock) => Begin(w, PlanApprove(w.row, caller, chain, clock))
    case ExecuteIt(aborted, clock) => Begin(w, PlanExecute(w.row, aborted, clock))
    case Return(k, reply, now, later) =>
      if k < |w.calls|
      then World(ApplyAll(w.row, PlanFinish(w.calls[k], reply, now, later)), Without(w.calls, k), w.plain)
      else w
    case Throw(k, message, now, later) =>
      if k < |w.calls| then World(ApplyAll(w.row, PlanThrow(message, now, later)), Without(w.calls, k), w.plain)
      else w
    case Crash => World(w.row, [], w.plain)
  }

  /**
   What the service can answer: no hash or a real one; to a retry, none but the hash it was given. The generic path
   throws for this action, so it never answers.
   */
  predicate Answers(call: Call, r: Reply) {
    match call
    case First => r.txHash != Some("")
    case Retry(existing) => r.txHash in {None, Some(existing)}
    case Generic => false
  }

  predicate Possible(w: World, s: Step) {
    s.Return? && s.k < |w.calls| ==> Answers(w.calls[s.k], s.reply)
  }

  function Run(w: World, steps: seq<Step>): World
    decreases |steps|
  {
    if steps == [] then w else Run(Next(w, steps[0]), steps[1..])
  }

  ghost predicate PossibleRun(w: World, steps: seq<Step>)
    decreases |steps|
  {
    steps == [] || (Possible(w, steps[0]) && PossibleRun(Next(w, steps[0]), steps[1..]))
  }

  /** The transaction hash the approval carries, in tx_hash or inside result_json. */
  function Recorded(row: Row): Option<string> {
    if Truthy(row.txHash).Some? then row.txHash
    else if row.result.Some? then Truthy(row.result.value.txHash)
    else None
  }

  /** tx_hash and result_json never disagree. */
  predicate Consistent(row: Row) {
    Truthy(row.txHash).Some? && row.result.Some? && Truthy(row.result.value.txHash).Some? ==>
      row.txHash == row.result.value.txHash
  }

  predicate Plainly(c: Call) {
    c == First || c == Generic
  }

  ghost predicate Inv(w: World) {
    && w.plain <= 1
    && w.row.action == RegisterAgent
    && Consistent(w.row)
    // Before executing nothing was called and nothing recorded.
    && (w.row.state in {Pending, Approved} ==>
          w.plain == 0 && w.calls == [] && w.row.result == None && w.row.txHash == None)
    && (w.row.state in {Rejected, Cancelled, Expired} ==> w.calls == [])
    && (w.row.state == Executing ==> w.row.txHash == None)
    // A plain call is alone, and nothing is recorded while it runs.
    && (forall k | 0 <= k < |w.calls| && Plainly(w.calls[k]) ::
          |w.calls| == 1 && w.row.state == Executing && w.row.result == None)
    // A retry runs with the recorded hash.
    && (forall k | 0 <= k < |w.calls| && w.calls[k].Retry? ::
          w.calls[k].existing != "" && Recorded(w.row) == Some(w.calls[k].existing))
  }

  function Fresh(input: Input, now: Time): World {
    World(NewRow(input, now), [], 0)
  }

  lemma Two(row: Row, a: Write, b: Write)
    ensures ApplyAll(row, [a, b]) == Apply(Apply(row, a), b)
  {
    assert [a, b][1..] == [b];
    One(Apply(row, a), b);
  }

  lemma Three(row: Row, a: Write, b: Write, c: Write)
    ensures ApplyAll(row, [a, b, c]) == Apply(Apply(Apply(row, a), b), c)
  {
    assert [a, b, c][1..] == [b, c];
    Two(Apply(row, a), b, c);
  }

  // ----- the invariant, statement by statement -----

  /** Once a hash is recorded it stays the recorded one. */
  ghost predicate Keeps(before: Row, after: Row) {
    Recorded(before).Some? ==> Recorded(after) == Recorded(before)
  }

  lemma QuietStatement(w: World, a: Write)
    requires Inv(w) && (a.Expire? || a.Approve? || a.Reject? || a.Cancel?)
    ensures Inv(w.(row := Apply(w.row, a))) && Keeps(w.row, Apply(w.row, a))
  {
  }

  lemma QuietStatements(w: World, ws: seq<Write>)
    requires Inv(w) && forall k | 0 <= k < |ws| :: ws[k].Expire? || ws[k].Approve? || ws[k].Reject? || ws[k].Cancel?
    ensures Inv(w.(row := ApplyAll(w.row, ws))) && Keeps(w.row, ApplyAll(w.row, ws))
    decreases |ws|
  {
    if ws != [] {
      QuietStatement(w, ws[0]);
      QuietStatements(w.(row := Apply(w.row, ws[0])), ws[1..]);
    }
  }

  lemma FailStatement(w: World, message: string, now: Time)
    requires Inv(w) && forall k | 0 <= k < |w.calls| :: w.calls[k].Retry?
    ensures Inv(w.(row := Apply(w.row, Fail(message, now)))) && Keeps(w.row, Apply(w.row, Fail(message, now)))
  {
  }

  /** The only way into executing: nothing was called before, and one call starts. */
  lemma BeginStatement(w: World, a: Write, call: Call)
    requires Inv(w) && (a.BeginApproved? || a.BeginPending?) && Applies(w.row, a) && Plainly(call)
    ensures Inv(World(Apply(w.row, a), [call], if call == First then 1 else 0)) && w.calls == []
    ensures Keeps(w.row, Apply(w.row, a))
  {
  }

  lemma ExpireAfter(row: Row, now: Time)
    requires row.state in {Executing, Executed, Failed}
    ensures Apply(row, Expire(now)) == row
  {
  }

  // ----- the invariant, step by step -----

  lemma ExecuteKeepsInv(w: World, aborted: bool, clock: Clock)
    requires Inv(w)
    ensures Inv(Begin(w, PlanExecute(w.row, aborted, clock)))
    ensures Keeps(w.row, Begin(w, PlanExecute(w.row, aborted, clock)).row)
  {
    var seen := w.(row := Apply(w.row, Expire(clock(0))));
    One(w.row, Expire(clock(0)));
    QuietStatement(w, Expire(clock(0)));
    if seen.row.state == Executing && RetryHash(seen.row).Some? {
      RetryKeepsInv(w, aborted, clock);
    } else if seen.row.state == Approved {
      FirstKeepsInv(w, aborted, clock);
    }
  }

  lemma RetryKeepsInv(w: World, aborted: bool, clock: Clock)
    requires Inv(w) && w.row.state == Executing && RetryHash(w.row).Some?
    ensures Inv(Begin(w, PlanExecute(w.row, aborted, clock)))
    ensures Keeps(w.row, Begin(w, PlanExecute(w.row, aborted, clock)).row)
  {
    ExpireAfter(w.row, clock(0));
    if aborted {
      var abort := Fail("Retry aborted by signal", clock(1));
      Three(w.row, Expire(clock(0)), abort, Expire(clock(2)));
      FailStatement(w, "Retry aborted by signal", clock(1));
      ExpireAfter(Apply(w.row, abort), clock(2));
    } else {
      One(w.row, Expire(clock(0)));
      RetryBegins(w);
    }
  }

  lemma RetryBegins(w: World)
    requires Inv(w) && w.row.state == Executing && RetryHash(w.row).Some?
    ensures Inv(w.(calls := w.calls + [Retry(RetryHash(w.row).value)]))
  {
    var h := RetryHash(w.row).value;
    var calls := w.calls + [Retry(h)];
    forall k | 0 <= k < |calls|
      ensures !Plainly(calls[k]) && calls[k].Retry? && calls[k].existing == h
    {
      if k < |w.calls| {
        assert calls[k] == w.calls[k];
      }
    }
  }

  lemma FirstKeepsInv(w: World, aborted: bool, clock: Clock)
    requires Inv(w) && Apply(w.row, Expire(clock(0))).state == Approved && w.row.action == RegisterAgent
    ensures Inv(Begin(w, PlanExecute(w.row, aborted, clock)))
    ensures Keeps(w.row, Begin(w, PlanExecute(w.row, aborted, clock)).row)
  {
    var begin := BeginApproved(clock(1));
    assert Apply(w.row, Expire(clock(0))) == w.row;
    Three(w.row, Expire(clock(0)), begin, Expire(clock(2)));
    if !Applies(w.row, begin) {
      QuietStatement(w, Expire(clock(2)));
    } else {
      BeginStatement(w, begin, First);
      var begun := World(Apply(w.row, begin), [First], 1);
      ExpireAfter(begun.row, clock(2));
      if aborted {
        AbortedBeforeCall(w, clock);
      } else {
        assert w.calls + [First] == [First];
      }
    }
  }

  lemma AbortedBeforeCall(w: World, clock: Clock)
    requires Inv(w) && Apply(w.row, Expire(clock(0))) == w.row && Applies(w.row, BeginApproved(clock(1)))
    ensures var plan := PlanExecute(w.row, true, clock);
            plan.call == None && Inv(World(ApplyAll(w.row, plan.writes), w.calls, w.plain))
    ensures Keeps(w.row, ApplyAll(w.row, PlanExecute(w.row, true, clock).writes))
  {
    var begin, abort := BeginApproved(clock(1)), Fail("Execution aborted by signal", clock(3));
    var begun := Apply(w.row, begin);
    ApplyAllConcat(w.row, [Expire(clock(0)), begin, Expire(clock(2))], [abort, Expire(clock(4))]);
    Three(w.row, Expire(clock(0)), begin, Expire(clock(2)));
    ExpireAfter(begun, clock(2));
    Two(begun, abort, Expire(clock(4)));
    ExpireAfter(Apply(begun, abort), clock(4));
  }

  lemma GenericKeepsInv(w: World, caller: Caller, chain: Option<int>, clock: Clock)
    requires Inv(w)
    ensures Inv(Begin(w, PlanApprove(w.row, caller, chain, clock)))
    ensures Keeps(w.row, Begin(w, PlanApprove(w.row, caller, chain, clock)).row)
  {
    var plan := PlanApprove(w.row, caller, chain, clock);
    var begin := BeginPending(clock(1));
    var seen := w.(row := Apply(w.row, Expire(clock(0))));
    QuietStatement(w, Expire(clock(0)));
    One(w.row, Expire(clock(0)));
    Three(w.row, Expire(clock(0)), begin, Expire(clock(2)));
    if plan.call.Some? {
      BeginStatement(seen, begin, Generic);
      ExpireAfter(Apply(seen.row, begin), clock(2));
      assert w.calls + [Generic] == [Generic];
    } else if |plan.writes| > 1 {
      ApplyAllConcat(w.row, [Expire(clock(0)), begin, Expire(clock(2))], [Expire(clock(3))]);
      assert plan.writes == [Expire(clock(0)), begin, Expire(clock(2))] + [Expire(clock(3))];
      QuietStatements(seen, [Expire(clock(2)), Expire(clock(3))]);
      Two(seen.row, Expire(clock(2)), Expire(clock(3)));
      One(Apply(seen.row, Expire(clock(2))), Expire(clock(3)));
    }
  }

  lemma WithoutKeeps(calls: seq<Call>, k: nat)
    requires k < |calls|
    ensures forall c :: c in Without(calls, k) ==> c in calls
    ensures |calls| == 1 ==> Without(calls, k) == []
  {
  }

  lemma InvWithout(w: World, k: nat)
    requires Inv(w) && k < |w.calls|
    ensures Inv(w.(calls := Without(w.calls, k)))
  {
    WithoutKeeps(w.calls, k);
    var calls := Without(w.calls, k);
    forall i | 0 <= i < |calls|
      ensures exists j :: 0 <= j < |w.calls| && w.calls[j] == calls[i]
    {
      assert calls[i] in w.calls;
    }
  }

  /** After the reply, the row carries what it carried before, or what a first execution has just learnt. */
  lemma FinishRow(w: World, k: nat, r: Reply, now: Time, later: Time)
    requires Inv(w) && k < |w.calls| && Answers(w.calls[k], r)
    ensures var row := ApplyAll(w.row, PlanFinish(w.calls[k], r, now, later));
            && Recorded(row) == (if w.calls[k] == First then r.txHash else Recorded(w.row))
            && Consistent(row) && row.action == w.row.action
            && (if w.row.state == Executing then row.state in {Executing, Executed, Failed} else row == w.row)
            && (row.state == Executing ==> row.txHash == None)
  {
    var ws := PlanFinish(w.calls[k], r, now, later);
    var first := ws[0];
    assert Plainly(w.calls[k]) ==> w.row.state == Executing;
    OneStatement(w.row, first);
    if |ws| == 1 {
      One(w.row, first);
    } else {
      Two(w.row, first, Expire(later));
      ExpireAfter(Apply(w.row, first), later);
    }
  }

  lemma FinishKeepsInv(w: World, k: nat, r: Reply, now: Time, later: Time)
    requires Inv(w) && k < |w.calls| && Answers(w.calls[k], r)
    ensures Inv(Next(w, Return(k, r, now, later))) && Keeps(w.row, Next(w, Return(k, r, now, later)).row)
  {
    FinishRow(w, k, r, now, later);
    InvWithout(w, k);
    WithoutKeeps(w.calls, k);
    if Plainly(w.calls[k]) {
      assert |w.calls| == 1 && w.row.result == None && w.row.txHash == None;
    } else {
      assert w.calls[k].Retry?;
      OnlyRetries(w, k);
    }
  }

  lemma OnlyRetries(w: World, k: nat)
    requires Inv(w) && k < |w.calls| && w.calls[k].Retry?
    ensures forall i | 0 <= i < |w.calls| :: w.calls[i].Retry?
    ensures forall i | 0 <= i < |Without(w.calls, k)| :: Without(w.calls, k)[i].Retry?
  {
    assert forall i | 0 <= i < |w.calls| :: !Plainly(w.calls[i]);
  }

  lemma ThrowKeepsInv(w: World, k: nat, message: string, now: Time, later: Time)
    requires Inv(w) && k < |w.calls|
    ensures Inv(Next(w, Throw(k, message, now, later))) && Keeps(w.row, Next(w, Throw(k, message, now, later)).row)
  {
    Two(w.row, Fail(message, now), Expire(later));
    var rest := w.(calls := Without(w.calls, k));
    InvWithout(w, k);
    WithoutKeeps(w.calls, k);
    var failed := rest.(row := Apply(w.row, Fail(message, now)));
    FailStatement(rest, message, now);
    QuietStatement(failed, Expire(later));
  }

  lemma QuietPlan(w: World, plan: Plan)
    requires Inv(w) && plan.call == None
    requires forall k | 0 <= k < |plan.writes| ::
               plan.writes[k].Expire? || plan.writes[k].Approve? || plan.writes[k].Reject? || plan.writes[k].Cancel?
    ensures Inv(Begin(w, plan)) && Keeps(w.row, Begin(w, plan).row)
  {
    QuietStatements(w, plan.writes);
  }

  lemma StepKeepsInv(w: World, s: Step)
    requires Inv(w) && Possible(w, s)
    ensures Inv(Next(w, s)) && Keeps(w.row, Next(w, s).row)
  {
    match s {
      case ExecuteIt(aborted, clock) => ExecuteKeepsInv(w, aborted, clock);
      case ApproveGeneric(caller, chain, clock) => GenericKeepsInv(w, caller, chain, clock);
      case Return(k, r, now, later) =>
        if k < |w.calls| {
          FinishKeepsInv(w, k, r, now, later);
        }
      case Throw(k, message, now, later) =>
        if k < |w.calls| {
          ThrowKeepsInv(w, k, message, now, later);
        }
      case Crash => CrashKeepsInv(w);
      case Look(now) => QuietPlan(w, Plan([Expire(now)], None));
      case ApproveIt(clock) => QuietPlan(w, PlanApproveById(w.row, clock));
      case RejectById(reason, clock) => QuietPlan(w, PlanRejectById(w.row, reason, clock));
      case RejectIt(caller, reason, clock) => QuietPlan(w, PlanReject(w.row, caller, reason, clock));
      case CancelIt(caller, clock) => QuietPlan(w, PlanCancel(w.row, caller, clock));
    }
  }

  lemma CrashKeepsInv(w: World)
    requires Inv(w)
    ensures Inv(Next(w, Crash)) && Keeps(w.row, Next(w, Crash).row)
  {
  }

  lemma {:induction false} RunKeepsInv(w: World, steps: seq<Step>)
    requires Inv(w) && PossibleRun(w, steps)
    ensures Inv(Run(w, steps)) && Keeps(w.row, Run(w, steps).row)
    decreases |steps|
  {
    if steps != [] {
      StepKeepsInv(w, steps[0]);
      RunKeepsInv(Next(w, steps[0]), steps[1..]);
    }
  }

  // ----- main results -----

  /** Over any run from creation the wallet is asked for a registration at most once. */
  lemma RegisteredAtMostOnce(input: Input, now: Time, steps: seq<Step>)
    requires input.action == RegisterAgent && PossibleRun(Fresh(input, now), steps)
    ensures Run(Fresh(input, now), steps).plain <= 1
  {
    RunKeepsInv(Fresh(input, now), steps);
  }

  /** Once a hash is recorded, every later state of the approval carries the same one, whatever happens. */
  lemma HashIsPermanent(input: Input, now: Time, before: seq<Step>, after: seq<Step>)
    requires input.action == RegisterAgent && PossibleRun(Fresh(input, now), before)
    requires PossibleRun(Run(Fresh(input, now), before), after)
    requires Recorded(Run(Fresh(input, now), before).row).Some?
    ensures var w := Run(Fresh(input, now), before);
            Recorded(Run(w, after).row) == Recorded(w.row) && Consistent(Run(w, after).row)
  {
    RunKeepsInv(Fresh(input, now), before);
    RunKeepsInv(Run(Fresh(input, now), before), after);
  }

  /** The hash a first execution returns is recorded, whatever else the reply says. */
  lemma ReturnedHashIsRecorded(input: Input, now: Time, steps: seq<Step>, k: nat, r: Reply, t: Time, later: Time)
    requires input.action == RegisterAgent && PossibleRun(Fresh(input, now), steps)
    requires var w := Run(Fresh(input, now), steps);
             k < |w.calls| && w.calls[k] == First && Answers(First, r) && r.txHash.Some?
    ensures Recorded(Next(Run(Fresh(input, now), steps), Return(k, r, t, later)).row) == r.txHash
  {
    var w := Run(Fresh(input, now), steps);
    RunKeepsInv(Fresh(input, now), steps);
    FinishRow(w, k, r, t, later);
  }

  /** Every retry passes the recorded hash on, so it never sends a transaction of its own. */
  lemma RetriesCarryTheHash(input: Input, now: Time, steps: seq<Step>, k: nat)
    requires input.action == RegisterAgent && PossibleRun(Fresh(input, now), steps)
    requires var w := Run(Fresh(input, now), steps); k < |w.calls| && w.calls[k].Retry?
    ensures var w := Run(Fresh(input, now), steps); Recorded(w.row) == Some(w.calls[k].existing)
  {
    RunKeepsInv(Fresh(input, now), steps);
  }
}
