/** Which answer execute gives, and what each step leaves in the rows, said in terms of the rows alone. */
module GatewayAnswers {
  import opened Basics
  import opened OperationStates
  import opened Journal
  import opened Spend
  import opened SpendRules
  import opened WriteResults
  import opened Gateway
  import opened GatewayRuns
  import opened GatewayTheorems

  // ----- the situations a request can meet -----

  /** The operation of this very request: its key and its params. */
  ghost predicate SameCall(t: Tables, i: Id, input: Input) {
    i in t.ops && t.ops[i].key == input.req.key && t.ops[i].params == input.req.params
  }

  /** Another request has used the key. */
  ghost predicate KeyTaken(t: Tables, input: Input) {
    exists i | i in t.ops :: t.ops[i].key == input.req.key && t.ops[i].params != input.req.params
  }

  ghost predicate Over(s: OpState) {
    s in {Confirmed, Failed, Cancelled}
  }

  /** An operation that is not over holds what the request needs: its wallet, in any case of letters, or its job. */
  ghost predicate InTheWay(t: Tables, i: Id, input: Input) {
    && i in t.ops && !Over(t.ops[i].state)
    && ((input.req.wallet != "" && Lower(t.ops[i].wallet) == Lower(input.req.wallet))
        || (input.req.job != "" && t.ops[i].job == input.req.job))
  }

  ghost predicate Blocked(t: Tables, input: Input) {
    exists i | i in t.ops :: InTheWay(t, i, input)
  }

  /** No operation of the key stands, but perhaps a failed or cancelled one of this very request. */
  ghost predicate KeyFree(t: Tables, input: Input) {
    forall i | i in t.ops && t.ops[i].key == input.req.key ::
      t.ops[i].params == input.req.params && t.ops[i].state in {Failed, Cancelled}
  }

  // ----- the decision -----

  /** What the idempotency part answers; None admits. The hash of a replay is left open. */
  ghost predicate RightDecision(t: Tables, input: Input, reply: Option<Reply>) {
    && (forall i | SameCall(t, i, input) && t.ops[i].state == Confirmed ::
          reply.Some? && reply.value.Replay? && reply.value.id == i)
    && (forall i | SameCall(t, i, input) && t.ops[i].state == Unknown :: reply == Some(NeedsReconciliation))
    && (forall i | SameCall(t, i, input) && !Over(t.ops[i].state) && t.ops[i].state != Unknown :: reply == Some(InProgress))
    && (KeyTaken(t, input) ==> reply == Some(KeyReused))
    && (KeyFree(t, input) && Blocked(t, input) ==> reply == Some(LockConflict))
    && (KeyFree(t, input) && !Blocked(t, input) ==> reply == None)
  }

  /** The locks are taken exactly when an operation is in the way. */
  lemma LocksShowBlocked(t: Tables, input: Input)
    requires Sound(t)
    ensures Blocked(t, input) <==>
              || (input.req.wallet != "" && Lower(input.req.wallet) in t.walletLocks)
              || (input.req.job != "" && input.req.job in t.jobLocks)
  {
    var w, j := Lower(input.req.wallet), input.req.job;
    if Blocked(t, input) {
      var i :| i in t.ops && InTheWay(t, i, input);
      if input.req.wallet != "" && Lower(t.ops[i].wallet) == w {
        assert WantsWallet(t, i, w);
        assert Holds(t.walletLocks, w, i);
      } else {
        assert WantsJob(t, i, j);
        assert Holds(t.jobLocks, j, i);
      }
    }
    if input.req.wallet != "" && w in t.walletLocks {
      var i := t.walletLocks[w];
      assert Holds(t.walletLocks, w, i);
      assert WantsWallet(t, i, w);
      assert InTheWay(t, i, input);
    } else if j != "" && j in t.jobLocks {
      var i := t.jobLocks[j];
      assert Holds(t.jobLocks, j, i);
      assert WantsJob(t, i, j);
      assert InTheWay(t, i, input);
    }
  }

  /** The keys table shows the rows. */
  lemma KeysShowRows(t: Tables, input: Input)
    requires Sound(t)
    ensures forall i :: SameCall(t, i, input) <==> Holds(t.keys, (input.req.key, input.req.params), i)
    ensures (exists q | q in t.keys :: q.0 == input.req.key) <==> exists i | i in t.ops :: t.ops[i].key == input.req.key
  {
    forall i
      ensures SameCall(t, i, input) <==> Holds(t.keys, (input.req.key, input.req.params), i)
    {
      assert HasKey(t, i, (input.req.key, input.req.params)) <==> SameCall(t, i, input);
    }
    if q :| q in t.keys && q.0 == input.req.key {
      assert Holds(t.keys, q, t.keys[q]);
      assert HasKey(t, t.keys[q], q);
    }
    if i :| i in t.ops && t.ops[i].key == input.req.key {
      var q := (t.ops[i].key, t.ops[i].params);
      assert HasKey(t, i, q);
      assert Holds(t.keys, q, i);
    }
  }

  lemma NoCallNoKey(t: Tables, input: Input)
    requires Sound(t) && forall i :: !SameCall(t, i, input)
    ensures (input.req.key, input.req.params) !in t.keys
  {
    var q := (input.req.key, input.req.params);
    var holder := if q in t.keys then t.keys[q] else "";
    assert Holds(t.keys, q, holder) <==> HasKey(t, holder, q);
    assert HasKey(t, holder, q) <==> SameCall(t, holder, input);
  }

  /** A fresh request: it is admitted exactly when nothing is in the way. */
  lemma FreshDecision(t: Tables, input: Input, id: Id)
    requires Sound(t) && Supported(input) && id !in t.ops
    requires forall i | i in t.ops :: t.ops[i].key != input.req.key
    ensures RightDecision(t, input, Admit(t, NO_MEMORY, input, id).reply)
  {
    KeysShowRows(t, input);
    LocksShowBlocked(t, input);
    NoCallNoKey(t, input);
  }

  lemma TakenDecision(t: Tables, input: Input, id: Id)
    requires Sound(t) && Supported(input) && id !in t.ops && KeyTaken(t, input)
    ensures RightDecision(t, input, Admit(t, NO_MEMORY, input, id).reply)
  {
    var i :| i in t.ops && t.ops[i].key == input.req.key && t.ops[i].params != input.req.params;
    assert forall j | j in t.ops && t.ops[j].key == input.req.key :: j == i;
    KeysShowRows(t, input);
    NoCallNoKey(t, input);
  }

  /** Purging a dead row takes nothing out of the way. */
  lemma PurgeKeepsBlocked(t: Tables, input: Input, stale: Id)
    requires stale in t.ops && t.ops[stale].state in {Failed, Cancelled}
    ensures Blocked(DeleteOp(t, stale), input) <==> Blocked(t, input)
  {
    var t' := DeleteOp(t, stale);
    if i :| i in t.ops && InTheWay(t, i, input) {
      assert InTheWay(t', i, input);
    }
    if i :| i in t'.ops && InTheWay(t', i, input) {
      assert InTheWay(t, i, input);
    }
  }

  /** A request whose own operation is known. */
  lemma KnownDecision(t: Tables, input: Input, id: Id, known: Id)
    requires Sound(t) && Supported(input) && id !in t.ops && SameCall(t, known, input)
    ensures RightDecision(t, input, Admit(t, NO_MEMORY, input, id).reply)
  {
    assert HasKey(t, known, (input.req.key, input.req.params));
    assert Holds(t.keys, (input.req.key, input.req.params), known);
    assert forall i | i in t.ops && t.ops[i].key == input.req.key :: i == known;
    if t.ops[known].state in {Failed, Cancelled} {
      RetryDecision(t, input, id, known);
    }
  }

  lemma RetryDecision(t: Tables, input: Input, id: Id, known: Id)
    requires Sound(t) && Supported(input) && id !in t.ops && SameCall(t, known, input)
    requires t.ops[known].state in {Failed, Cancelled} && Holds(t.keys, (input.req.key, input.req.params), known)
    ensures Admit(t, NO_MEMORY, input, id).reply == if Blocked(t, input) then Some(LockConflict) else None
  {
    var purged := DeleteOp(t, known);
    DeleteKeepsSound(t, known);
    PurgeKeepsBlocked(t, input, known);
    LocksShowBlocked(purged, input);
  }

  lemma ColdDecisionIsRight(t: Tables, input: Input, id: Id)
    requires Sound(t) && Supported(input) && id !in t.ops
    ensures RightDecision(t, input, Admit(t, NO_MEMORY, input, id).reply)
  {
    if KeyTaken(t, input) {
      TakenDecision(t, input, id);
    } else if known :| SameCall(t, known, input) {
      KnownDecision(t, input, id, known);
    } else {
      forall i | i in t.ops
        ensures t.ops[i].key != input.req.key
      {
        assert !SameCall(t, i, input);
      }
      FreshDecision(t, input, id);
    }
  }

  /** With any memory that agrees with the rows. */
  lemma DecisionIsRight(t: Tables, m: Memory, input: Input, id: Id)
    requires Sound(t) && MemOk(t, m) && Supported(input) && id !in t.ops
    ensures RightDecision(t, input, Decide(t, m, input, id).reply)
  {
    DecideLikeCold(t, m, input, id);
    ColdDecision(t, input, id);
    ColdDecisionIsRight(t, input, id);
  }

  // ----- the answer -----

  /** The write goes on when a policy is not asked for, or not configured, or every rule of it is kept. */
  ghost predicate PolicyAllows(guard: Option<Policy>, ledger: seq<Entry>, input: Input, clock: Readings) {
    input.policy.Some? && guard.Some? ==>
      forall rule :: Kept(rule, guard.value, ledger, input.req.wallet, input.policy.value, clock)
  }

  /** What execute answers, up to the hash of a replay, once the idempotency part has decided. */
  ghost predicate RightAnswer(guard: Option<Policy>, w: World, input: Input, id: Id, clock: Readings, reply: Reply) {
    && (!(KeyFree(w.t, input) && !Blocked(w.t, input)) ==> RightDecision(w.t, input, Some(reply)))
    && (KeyFree(w.t, input) && !Blocked(w.t, input) ==>
          && (reply == WalletMissing(id) <==> input.req.wallet == "")
          && (reply == Calls(id) <==> input.req.wallet != "" && PolicyAllows(guard, w.ledger, input, clock))
          && (input.req.wallet != "" && !PolicyAllows(guard, w.ledger, input, clock) ==>
                reply.Refused? && reply.id == id
                && Err(reply.error) == FirstError(Keeping(guard.value, w.ledger, input.req.wallet, input.policy.value, clock), ORDER)))
  }

  lemma ContinueIsRight(guard: Option<Policy>, w: World, used: set<Id>, a: Admission, input: Input, id: Id, clock: Readings)
    requires RightDecision(w.t, input, a.reply)
    ensures RightAnswer(guard, w, input, id, clock, Continue(guard, w.ledger, used, a, input, id, clock).1)
  {
    if input.policy.Some? && guard.Some? {
      GuardAcceptsIff(guard.value, w.ledger, input.req.wallet, input.policy.value, clock);
      GuardNamesFirst(guard.value, w.ledger, input.req.wallet, input.policy.value, clock);
    }
  }

  /**
   In every reachable world the answer of execute follows from the rows, the ledger and the policy alone. A confirmed
   operation of the request is replayed, an unknown one must be reconciled, any other standing one is in progress; a key
   used by another request is refused; so is a request in whose way an operation stands. Otherwise the request is admitted
   and calls executeFn exactly when it names a wallet and keeps every rule of the policy.
   */
  lemma ExecuteAnswers(guard: Option<Policy>, ws: seq<World>, steps: seq<Step>, i: nat,
                       input: Input, id: Id, clock: Readings)
    requires Run(guard, ws, steps) && i < |ws| && Supported(input) && id !in ws[i].used
    ensures RightAnswer(guard, ws[i], input, id, clock, Begin(guard, ws[i], input, id, clock).1)
  {
    RunKeepsInv(guard, ws, steps, i);
    DecisionIsRight(ws[i].t, ws[i].m, input, id);
    ContinueIsRight(guard, ws[i], ws[i].used + {id}, Decide(ws[i].t, ws[i].m, input, id), input, id, clock);
  }

  /** On another chain it is answered from memory, or refused. */
  lemma UnsupportedAnswer(guard: Option<Policy>, w: World, input: Input, id: Id, clock: Readings)
    requires !Supported(input) && !ConsultMemory(w.m, InputKey(input)).Answer?
    ensures Begin(guard, w, input, id, clock).1 == UnsupportedChain
    ensures Begin(guard, w, input, id, clock).0.ledger == w.ledger
  {
  }

  /** A chain is supported when its id is given, or its name is one of four in any case of letters. */
  lemma SupportedMeaning(input: Input)
    ensures Supported(input) <==>
              input.chainId.Some? || SaysOneOf(Some(input.chain), {"ARC-TESTNET", "ARC", "ARCTESTNET", "5042002"})
  {
    ChainNamesAreLower();
    LowerSpells(input.chain, "ARC-TESTNET");
    LowerSpells(input.chain, "ARC");
    LowerSpells(input.chain, "ARCTESTNET");
    LowerSpells(input.chain, "5042002");
  }

  lemma ChainNamesAreLower()
    ensures Lower("ARC-TESTNET") == "arc-testnet" && Lower("ARC") == "arc"
    ensures Lower("ARCTESTNET") == "arctestnet" && Lower("5042002") == "5042002"
    ensures NoLower("ARC-TESTNET") && NoLower("ARC") && NoLower("ARCTESTNET") && NoLower("5042002")
  {
  }
}
