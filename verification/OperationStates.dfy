/** The declared state machine of write operations. */
module OperationStates {

  datatype OpState =
    | Created | Prepared | Reserved | Executing | Broadcast
    | Confirmed | Failed | Unknown | Cancelled

  predicate Terminal(s: OpState) {
    s in {Confirmed, Failed, Cancelled}
  }

  function Targets(from: OpState): set<OpState> {
    match from
    case Created => {Prepared, Failed, Cancelled}
    case Prepared => {Reserved, Failed}
    case Reserved => {Executing, Failed}
    case Executing => {Broadcast, Unknown, Failed, Cancelled}
    case Broadcast => {Confirmed, Unknown, Failed}
    case Unknown => {Confirmed, Failed}
    case Confirmed => {}
    case Failed => {}
    case Cancelled => {}
  }

  predicate CanTransition(from: OpState, to: OpState) {
    to in Targets(from)
  }

  /** A chain of declared transitions. */
  ghost predicate Chain(states: seq<OpState>) {
    && states != []
    && forall i | 0 <= i < |states| - 1 :: CanTransition(states[i], states[i + 1])
  }

  /** The reflexive-transitive closure of the declared transitions. */
  ghost predicate Reaches(from: OpState, to: OpState) {
    exists states :: Chain(states) && states[0] == from && states[|states| - 1] == to
  }

  function Rank(s: OpState): nat {
    match s
    case Created => 6
    case Prepared => 5
    case Reserved => 4
    case Executing => 3
    case Broadcast => 2
    case Unknown => 1
    case Confirmed => 0
    case Failed => 0
    case Cancelled => 0
  }

  lemma RankDrops(from: OpState, to: OpState)
    requires CanTransition(from, to)
    ensures Rank(to) < Rank(from)
  {
  }

  /** Every chain of declared transitions has at most six steps, and one has exactly six. */
  lemma {:induction false} ChainsAreShort(states: seq<OpState>)
    requires Chain(states)
    ensures |states| - 1 <= Rank(states[0]) <= 6
    decreases |states|
  {
    if |states| > 1 {
      var rest := states[1..];
      forall i | 0 <= i < |rest| - 1
        ensures CanTransition(rest[i], rest[i + 1])
      {
        assert CanTransition(states[i + 1], states[i + 2]);
      }
      ChainsAreShort(rest);
      assert CanTransition(states[0], states[1]);
    }
  }

  lemma LongestChain()
    ensures Chain([Created, Prepared, Reserved, Executing, Broadcast, Unknown, Confirmed])
  {
  }

  lemma Reflexive(s: OpState)
    ensures Reaches(s, s)
  {
    assert Chain([s]);
  }

  lemma Transitive(a: OpState, b: OpState, c: OpState)
    requires Reaches(a, b) && Reaches(b, c)
    ensures Reaches(a, c)
  {
    var p :| Chain(p) && p[0] == a && p[|p| - 1] == b;
    var q :| Chain(q) && q[0] == b && q[|q| - 1] == c;
    var r := p + q[1..];
    forall i | 0 <= i < |r| - 1
      ensures CanTransition(r[i], r[i + 1])
    {
      if i < |p| - 1 {
        assert CanTransition(p[i], p[i + 1]);
      } else {
        assert CanTransition(q[i - |p| + 1], q[i - |p| + 2]);
      }
    }
    assert Chain(r);
  }

  /** The closure, tabulated. */
  function Later(s: OpState): set<OpState> {
    match s
    case Created => {Created, Prepared, Reserved, Executing, Broadcast, Confirmed, Failed, Unknown, Cancelled}
    case Prepared => {Prepared, Reserved, Executing, Broadcast, Confirmed, Failed, Unknown, Cancelled}
    case Reserved => {Reserved, Executing, Broadcast, Confirmed, Failed, Unknown, Cancelled}
    case Executing => {Executing, Broadcast, Confirmed, Failed, Unknown, Cancelled}
    case Broadcast => {Broadcast, Confirmed, Failed, Unknown}
    case Unknown => {Unknown, Confirmed, Failed}
    case Confirmed => {Confirmed}
    case Failed => {Failed}
    case Cancelled => {Cancelled}
  }

  /** The table is the closure, in both directions. */
  lemma LaterIsReaches(a: OpState, b: OpState)
    ensures Reaches(a, b) <==> b in Later(a)
  {
    if b in Later(a) {
      LaterHasChain(a, b);
    } else if Reaches(a, b) {
      var p :| Chain(p) && p[0] == a && p[|p| - 1] == b;
      ChainIsLater(p);
    }
  }

  lemma {:induction false} LaterHasChain(a: OpState, b: OpState)
    requires b in Later(a)
    ensures Reaches(a, b)
    decreases Rank(a)
  {
    Reflexive(a);
    if a != b {
      var c :| CanTransition(a, c) && b in Later(c);
      RankDrops(a, c);
      LaterHasChain(c, b);
      assert Chain([a, c]);
      assert Reaches(a, c);
      Transitive(a, c, b);
    }
  }

  lemma {:induction false} ChainIsLater(p: seq<OpState>)
    requires Chain(p)
    ensures p[|p| - 1] in Later(p[0])
    decreases |p|
  {
    if |p| > 1 {
      var rest := p[1..];
      forall i | 0 <= i < |rest| - 1
        ensures CanTransition(rest[i], rest[i + 1])
      {
        assert CanTransition(p[i + 1], p[i + 2]);
      }
      ChainIsLater(rest);
      assert CanTransition(p[0], p[1]);
    }
  }

  /** The terminal states are exactly the ones nothing leaves. */
  lemma TerminalIsFinal(s: OpState, t: OpState)
    ensures Terminal(s) <==> Targets(s) == {}
    ensures Terminal(s) && Reaches(s, t) ==> s == t
  {
    if !Terminal(s) {
      assert Failed in Targets(s);
    } else if Reaches(s, t) {
      var p :| Chain(p) && p[0] == s && p[|p| - 1] == t;
      if |p| > 1 {
        assert CanTransition(p[0], p[1]);
      }
    }
  }
}
