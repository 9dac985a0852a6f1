/**
 The indexer's SQLite projection of reputation feedback: event rows keyed by transaction and log index, and one
 aggregate row per agent, recomputed only for the agents a batch of events names.
 Scores are integers (the code stores their decimal text).
 */
module ProjectionStore {
  import opened SortedEntries
  import opened Ingest

  // ----- event rows -----

  predicate SameKey<F, U>(a: Event<F, U>, b: Event<F, U>) {
    a.tx == b.tx && a.index == b.index
  }

  /** INSERT ... ON CONFLICT(event_key) DO UPDATE: a conflict keeps the `kept` columns of the old row. */
  function Upsert<F, U>(rows: seq<Event<F, U>>, e: Event<F, U>): seq<Event<F, U>> {
    if rows == [] then [e]
    else if SameKey(rows[0], e) then [e.(kept := rows[0].kept)] + rows[1..]
    else [rows[0]] + Upsert(rows[1..], e)
  }

  function UpsertAll<F, U>(rows: seq<Event<F, U>>, es: seq<Event<F, U>>): seq<Event<F, U>>
    decreases |es|
  {
    if es == [] then rows else UpsertAll(Upsert(rows, es[0]), es[1..])
  }

  ghost predicate OneRowPerKey<F, U>(rows: seq<Event<F, U>>) {
    forall i, j | 0 <= i < j < |rows| :: !SameKey(rows[i], rows[j])
  }

  lemma {:induction false} UpsertKeys<F, U>(rows: seq<Event<F, U>>, e: Event<F, U>)
    requires OneRowPerKey(rows)
    ensures OneRowPerKey(Upsert(rows, e))
    ensures forall i | 0 <= i < |Upsert(rows, e)| ::
              SameKey(Upsert(rows, e)[i], e) || exists j | 0 <= j < |rows| :: SameKey(Upsert(rows, e)[i], rows[j])
  {
    var out := Upsert(rows, e);
    if rows != [] && !SameKey(rows[0], e) {
      var rest := Upsert(rows[1..], e);
      UpsertKeys(rows[1..], e);
      assert out == [rows[0]] + rest;
      forall i | 0 <= i < |out|
        ensures SameKey(out[i], e) || exists j | 0 <= j < |rows| :: SameKey(out[i], rows[j])
        ensures i > 0 ==> !SameKey(rows[0], out[i])
      {
        if i > 0 && !SameKey(out[i], e) {
          var j :| 0 <= j < |rows[1..]| && SameKey(rest[i - 1], rows[1..][j]);
          assert SameKey(out[i], rows[j + 1]) && !SameKey(rows[0], rows[j + 1]);
        }
      }
    } else if rows != [] {
      forall i | 0 <= i < |out|
        ensures SameKey(out[i], e) || SameKey(out[i], rows[i])
      {
        assert i > 0 ==> out[i] == rows[i];
      }
    }
  }

  lemma {:induction false} UpsertAllKeys<F, U>(rows: seq<Event<F, U>>, es: seq<Event<F, U>>)
    requires OneRowPerKey(rows)
    ensures OneRowPerKey(UpsertAll(rows, es))
    decreases |es|
  {
    if es != [] {
      UpsertKeys(rows, es[0]);
      UpsertAllKeys(Upsert(rows, es[0]), es[1..]);
    }
  }

  /** Where a key determines its event, upserting adds exactly the event. */
  lemma {:induction false} UpsertAdds<F, U>(rows: seq<Event<F, U>>, e: Event<F, U>)
    requires forall r | r in rows && SameKey(r, e) :: r == e
    ensures forall x :: x in Upsert(rows, e) <==> x == e || x in rows
  {
    if rows != [] {
      assert rows == [rows[0]] + rows[1..];
      if SameKey(rows[0], e) {
        assert rows[0] == e;
      } else {
        UpsertAdds(rows[1..], e);
      }
    }
  }

  lemma {:induction false} UpsertAllAdds<F, U>(rows: seq<Event<F, U>>, es: seq<Event<F, U>>)
    requires forall a, b | (a in rows || a in es) && b in es && SameKey(a, b) :: a == b
    ensures forall x :: x in UpsertAll(rows, es) <==> x in rows || x in es
    decreases |es|
  {
    if es != [] {
      UpsertAdds(rows, es[0]);
      assert es == [es[0]] + es[1..];
      UpsertAllAdds(Upsert(rows, es[0]), es[1..]);
    }
  }

  // ----- reputation -----

  datatype Kept = Kept(agent: Text, reviewer: Text, ref: Text)

  datatype Loose = Loose(score: int, category: Text, comment: Text)

  type Feedback = Event<Kept, Loose>

  datatype Aggregate = Aggregate(
    count: nat, sum: int, average: int,
    latestScore: int, latestCategory: Text, latestComment: Text, latestReviewer: Text, latestTx: Text, latestBlock: int)

  /** BigInt division: towards zero. */
  function TruncDiv(a: int, b: nat): int
    requires b > 0
  {
    if a >= 0 then a / b else -(-a / b)
  }

  /** SELECT ... WHERE agent_token_id = ? */
  function OfAgent(rows: seq<Feedback>, agent: Text): seq<Feedback> {
    if rows == [] then [] else (if rows[0].kept.agent == agent then [rows[0]] else []) + OfAgent(rows[1..], agent)
  }

  /** ORDER BY block_number, log_index, tx_hash */
  predicate Before(a: Feedback, b: Feedback) {
    || a.block < b.block
    || (a.block == b.block && (a.index < b.index || (a.index == b.index && Less(a.tx, b.tx))))
  }

  function InsertRow(r: Feedback, rows: seq<Feedback>): seq<Feedback> {
    if rows == [] || Before(r, rows[0]) then [r] + rows else [rows[0]] + InsertRow(r, rows[1..])
  }

  function Ordered(rows: seq<Feedback>): (s: seq<Feedback>)
    ensures rows != [] ==> s != []
  {
    if rows == [] then [] else InsertRow(rows[0], Ordered(rows[1..]))
  }

  function Sum(rows: seq<Feedback>): int {
    if rows == [] then 0 else Sum(rows[..|rows| - 1]) + rows[|rows| - 1].loose.score
  }

  function Summary(rows: seq<Feedback>): Aggregate
    requires rows != []
  {
    var last := rows[|rows| - 1];
    Aggregate(|rows|, Sum(rows), TruncDiv(Sum(rows), |rows|),
              last.loose.score, last.loose.category, last.loose.comment, last.kept.reviewer, last.tx, last.block)
  }

  /** The row comes before the other: by block, then by place in the block, then by hash. */
  ghost predicate Earlier(a: Feedback, b: Feedback) {
    || a.block < b.block
    || (a.block == b.block && a.index < b.index)
    || (a.block == b.block && a.index == b.index && Precedes(a.tx, b.tx))
  }

  /** The average of a sum over a count, cut towards zero. */
  predicate CutAverage(average: int, sum: int, count: nat) {
    if sum >= 0 then average >= 0 && 0 <= sum - average * count < count
    else average <= 0 && 0 <= average * count - sum < count
  }

  /** What the aggregate of an agent should be, said without an order: count, sum, average and the latest row. */
  ghost predicate Describes(a: Aggregate, rows: seq<Feedback>) {
    && rows != []
    && a.count == |rows|
    && a.sum == Sum(rows)
    && CutAverage(a.average, a.sum, a.count)
    && exists last | last in rows ::
         && (forall r | r in rows :: r == last || Earlier(r, last))
         && a.latestScore == last.loose.score && a.latestCategory == last.loose.category
         && a.latestComment == last.loose.comment && a.latestReviewer == last.kept.reviewer
         && a.latestTx == last.tx && a.latestBlock == last.block
  }

  lemma BeforeIsEarlier(a: Feedback, b: Feedback)
    ensures Before(a, b) <==> Earlier(a, b)
  {
    LessIsPrecedes(a.tx, b.tx);
  }

  lemma QuotientCuts(n: nat, b: nat)
    requires b > 0
    ensures n / b >= 0 && 0 <= n - n / b * b < b
  {
    assert n == b * (n / b) + n % b;
  }

  lemma TruncDivCuts(a: int, b: nat)
    requires b > 0
    ensures CutAverage(TruncDiv(a, b), a, b)
  {
    var q := if a >= 0 then a / b else -a / b;
    QuotientCuts(if a >= 0 then a else -a, b);
    Negated(q, b);
    assert TruncDiv(a, b) == if a >= 0 then q else -q;
  }

  lemma Negated(q: int, b: nat)
    ensures -q * b == -(q * b)
  {
  }

  lemma BeforeIsTotal(a: Feedback, b: Feedback, c: Feedback)
    ensures SameKey(a, b) || Before(a, b) || Before(b, a)
    ensures Before(a, b) && Before(b, c) ==> Before(a, c)
  {
    LessIsStrictOrder(a.tx, b.tx, c.tx);
  }

  lemma {:induction false} SumOfParts(a: seq<Feedback>, b: seq<Feedback>)
    ensures Sum(a + b) == Sum(a) + Sum(b)
  {
    if b == [] {
      assert a + b == a;
    } else {
      assert (a + b)[..|a + b| - 1] == a + b[..|b| - 1];
      SumOfParts(a, b[..|b| - 1]);
    }
  }

  lemma {:induction false} InsertRowSpec(r: Feedback, rows: seq<Feedback>)
    ensures |InsertRow(r, rows)| == |rows| + 1
    ensures Sum(InsertRow(r, rows)) == r.loose.score + Sum(rows)
    ensures forall x :: x in InsertRow(r, rows) <==> x == r || x in rows
  {
    assert Sum([r]) == r.loose.score by {
      assert [r][..0] == [];
    }
    if rows == [] || Before(r, rows[0]) {
      SumOfParts([r], rows);
    } else {
      InsertRowSpec(r, rows[1..]);
      SumOfParts([rows[0]], InsertRow(r, rows[1..]));
      SumOfParts([rows[0]], rows[1..]);
      assert rows == [rows[0]] + rows[1..];
    }
  }

  /** The last row comes after all others. */
  ghost predicate LastIsLatest(rows: seq<Feedback>) {
    rows != [] ==> forall x | x in rows :: x == rows[|rows| - 1] || Before(x, rows[|rows| - 1])
  }

  lemma TailIsLatest(rows: seq<Feedback>)
    requires rows != [] && LastIsLatest(rows)
    ensures LastIsLatest(rows[1..])
  {
    forall x | x in rows[1..]
      ensures x == rows[|rows| - 1] || Before(x, rows[|rows| - 1])
    {
      assert x in rows;
    }
  }

  lemma PrependIsLatest(first: Feedback, rest: seq<Feedback>)
    requires LastIsLatest(rest) && (rest != [] ==> Before(first, rest[|rest| - 1]))
    ensures LastIsLatest([first] + rest)
  {
    assert rest != [] ==> ([first] + rest)[|rest|] == rest[|rest| - 1];
  }

  lemma {:induction false} InsertRowLast(r: Feedback, rows: seq<Feedback>)
    requires LastIsLatest(rows) && forall x | x in rows :: !SameKey(x, r)
    ensures LastIsLatest(InsertRow(r, rows))
  {
    if rows != [] {
      assert rows[0] in rows;
      if Before(r, rows[0]) {
        BeforeIsTotal(r, rows[0], rows[|rows| - 1]);
        PrependIsLatest(r, rows);
      } else {
        TailIsLatest(rows);
        InsertRowLast(r, rows[1..]);
        BeforeIsTotal(rows[0], r, r);
        FirstBeforeEnd(r, rows);
        PrependIsLatest(rows[0], InsertRow(r, rows[1..]));
      }
    }
  }

  lemma FirstBeforeEnd(r: Feedback, rows: seq<Feedback>)
    requires rows != [] && LastIsLatest(rows) && Before(rows[0], r)
    requires LastIsLatest(InsertRow(r, rows[1..]))
    ensures var out := InsertRow(r, rows[1..]);
            out != [] && Before(rows[0], out[|out| - 1])
  {
    var out := InsertRow(r, rows[1..]);
    InsertRowSpec(r, rows[1..]);
    assert r in out;
    BeforeIsTotal(rows[0], r, out[|out| - 1]);
  }

  lemma {:induction false} OrderedSpec(rows: seq<Feedback>)
    requires OneRowPerKey(rows)
    ensures |Ordered(rows)| == |rows| && Sum(Ordered(rows)) == Sum(rows)
    ensures forall x :: x in Ordered(rows) <==> x in rows
    ensures LastIsLatest(Ordered(rows))
  {
    if rows != [] {
      OrderedSpec(rows[1..]);
      assert rows == [rows[0]] + rows[1..];
      InsertRowSpec(rows[0], Ordered(rows[1..]));
      forall x | x in Ordered(rows[1..])
        ensures !SameKey(x, rows[0])
      {
        assert x in rows[1..];
        var k :| 0 <= k < |rows[1..]| && rows[1..][k] == x;
        assert !SameKey(rows[0], rows[k + 1]);
      }
      InsertRowLast(rows[0], Ordered(rows[1..]));
      SumOfParts([rows[0]], rows[1..]);
      assert [rows[0]][..0] == [];
    }
  }

  /** Recomputation yields the count, sum, truncated average and latest row of the agent's events. */
  lemma RecomputedIsRight(rows: seq<Feedback>)
    requires OneRowPerKey(rows) && rows != []
    ensures Describes(Summary(Ordered(rows)), rows)
  {
    OrderedSpec(rows);
    var s := Ordered(rows);
    var last := s[|s| - 1];
    assert last in s;
    TruncDivCuts(Sum(s), |s|);
    forall r | r in rows
      ensures r == last || Earlier(r, last)
    {
      assert r in s;
      BeforeIsEarlier(r, last);
    }
  }

  // ----- a batch of feedback -----

  datatype Book = Book(rows: seq<Feedback>, aggregates: map<Text, Aggregate>)

  /** The agents a batch names, each once, in order of appearance. */
  function Affected(es: seq<Feedback>): seq<Text> {
    if es == [] then []
    else
      var before := Affected(es[..|es| - 1]);
      if es[|es| - 1].kept.agent in before then before else before + [es[|es| - 1].kept.agent]
  }

  function Recompute(b: Book, agent: Text): Book {
    var rows := Ordered(OfAgent(b.rows, agent));
    if rows == [] then b else b.(aggregates := b.aggregates[agent := Summary(rows)])
  }

  function RecomputeAll(b: Book, agents: seq<Text>): Book {
    if agents == [] then b else Recompute(RecomputeAll(b, agents[..|agents| - 1]), agents[|agents| - 1])
  }

  /** The reputation part of syncProjectionStore. */
  function SyncFeedback(b: Book, es: seq<Feedback>): Book {
    RecomputeAll(b.(rows := UpsertAll(b.rows, es)), Affected(es))
  }

  /** Every agent's row is right, and only agents with events have one. */
  ghost predicate AggregatesRight(b: Book) {
    OneRowPerKey(b.rows) && forall agent: Text :: AgentRight(b, agent)
  }

  /** The agent's row describes its events; without events it has no row. */
  ghost predicate AgentRight(b: Book, agent: Text) {
    if OfAgent(b.rows, agent) == [] then agent !in b.aggregates
    else agent in b.aggregates && Describes(b.aggregates[agent], OfAgent(b.rows, agent))
  }

  ghost predicate KeyGivesAgent(rows: seq<Feedback>, es: seq<Feedback>) {
    && (forall r, e | r in rows && e in es && SameKey(r, e) :: r.kept.agent == e.kept.agent)
    && (forall d, e | d in es && e in es && SameKey(d, e) :: d.kept.agent == e.kept.agent)
  }

  lemma {:induction false} OfAgentSpec(rows: seq<Feedback>, agent: Text)
    ensures forall x :: x in OfAgent(rows, agent) <==> x in rows && x.kept.agent == agent
    ensures OneRowPerKey(rows) ==> OneRowPerKey(OfAgent(rows, agent))
  {
    if rows != [] {
      OfAgentSpec(rows[1..], agent);
      assert rows == [rows[0]] + rows[1..];
      var rest := OfAgent(rows[1..], agent);
      if OneRowPerKey(rows) {
        assert OneRowPerKey(rows[1..]);
        forall i | 0 <= i < |rest|
          ensures !SameKey(rows[0], rest[i])
        {
          assert rest[i] in OfAgent(rows[1..], agent);
          var k :| 0 <= k < |rows[1..]| && rows[1..][k] == rest[i];
          assert !SameKey(rows[0], rows[k + 1]);
        }
      }
    }
  }

  /** Rows keep their agent through an upsert. */
  lemma {:induction false} UpsertAgents(rows: seq<Feedback>, e: Feedback, x: Feedback)
    requires (forall r | r in rows && SameKey(r, e) :: r.kept.agent == e.kept.agent) && x in Upsert(rows, e)
    ensures exists y | y == e || y in rows :: SameKey(x, y) && x.kept.agent == y.kept.agent
  {
    if rows != [] && !SameKey(rows[0], e) && x != rows[0] {
      UpsertAgents(rows[1..], e, x);
      var y :| (y == e || y in rows[1..]) && SameKey(x, y) && x.kept.agent == y.kept.agent;
      assert y == e || y in rows;
    } else if rows != [] && x == e.(kept := rows[0].kept) && SameKey(rows[0], e) {
      assert SameKey(x, e);
      assert rows[0] in rows;
    } else {
      assert SameKey(x, x);
      assert rows != [] ==> rows[0] in rows;
      assert x == e || x in rows;
    }
  }

  lemma KeyGivesAgentStep(rows: seq<Feedback>, es: seq<Feedback>)
    requires es != [] && KeyGivesAgent(rows, es)
    ensures KeyGivesAgent(Upsert(rows, es[0]), es[1..])
  {
    forall x, e | x in Upsert(rows, es[0]) && e in es[1..] && SameKey(x, e)
      ensures x.kept.agent == e.kept.agent
    {
      UpsertAgents(rows, es[0], x);
      var y :| (y == es[0] || y in rows) && SameKey(x, y) && x.kept.agent == y.kept.agent;
      assert e in es && SameKey(y, e);
    }
  }

  /** The events of an agent that an upsert does not name stay as they were. */
  lemma {:induction false} UpsertOther(rows: seq<Feedback>, e: Feedback, agent: Text)
    requires (forall r | r in rows && SameKey(r, e) :: r.kept.agent == e.kept.agent) && e.kept.agent != agent
    ensures OfAgent(Upsert(rows, e), agent) == OfAgent(rows, agent)
  {
    if rows != [] {
      assert rows[0] in rows;
      if !SameKey(rows[0], e) {
        UpsertOther(rows[1..], e, agent);
      }
    }
  }

  lemma {:induction false} UpsertAllOther(rows: seq<Feedback>, es: seq<Feedback>, agent: Text)
    requires KeyGivesAgent(rows, es) && forall e | e in es :: e.kept.agent != agent
    ensures OfAgent(UpsertAll(rows, es), agent) == OfAgent(rows, agent)
    decreases |es|
  {
    if es != [] {
      assert es[0] in es;
      UpsertOther(rows, es[0], agent);
      KeyGivesAgentStep(rows, es);
      UpsertAllOther(Upsert(rows, es[0]), es[1..], agent);
    }
  }

  lemma {:induction false} AffectedSpec(es: seq<Feedback>, agent: Text)
    ensures agent in Affected(es) <==> exists e | e in es :: e.kept.agent == agent
  {
    if es != [] {
      var last := es[|es| - 1];
      AffectedSpec(es[..|es| - 1], agent);
      assert es == es[..|es| - 1] + [last];
      if last.kept.agent == agent {
        assert last in es;
      }
    }
  }

  lemma {:induction false} RecomputeAllSpec(b: Book, agents: seq<Text>, agent: Text)
    ensures var c := RecomputeAll(b, agents);
            && c.rows == b.rows
            && (agent !in agents || OfAgent(b.rows, agent) == [] ==>
                  ((agent in c.aggregates) == (agent in b.aggregates))
                  && (agent in b.aggregates ==> c.aggregates[agent] == b.aggregates[agent]))
            && (agent in agents && OfAgent(b.rows, agent) != [] ==>
                  agent in c.aggregates && c.aggregates[agent] == Summary(Ordered(OfAgent(b.rows, agent))))
  {
    if agents != [] {
      var init, last := agents[..|agents| - 1], agents[|agents| - 1];
      RecomputeAllSpec(b, init, agent);
      assert agents == init + [last];
    }
  }

  /** A batch leaves every aggregate right, though only the agents it names are recomputed. */
  lemma SyncKeepsAggregates(b: Book, es: seq<Feedback>)
    requires AggregatesRight(b) && KeyGivesAgent(b.rows, es)
    ensures AggregatesRight(SyncFeedback(b, es))
  {
    var rows := UpsertAll(b.rows, es);
    UpsertAllKeys(b.rows, es);
    RecomputeAllSpec(b.(rows := rows), Affected(es), []);
    forall agent: Text
      ensures AgentRight(SyncFeedback(b, es), agent)
    {
      AgentIsRight(b, es, agent);
    }
  }

  lemma AgentIsRight(b: Book, es: seq<Feedback>, agent: Text)
    requires AggregatesRight(b) && KeyGivesAgent(b.rows, es)
    ensures AgentRight(SyncFeedback(b, es), agent)
  {
    assert AgentRight(b, agent);
    var rows := UpsertAll(b.rows, es);
    UpsertAllKeys(b.rows, es);
    OfAgentSpec(rows, agent);
    AffectedSpec(es, agent);
    RecomputeAllSpec(b.(rows := rows), Affected(es), agent);
    if agent in Affected(es) {
      if OfAgent(rows, agent) != [] {
        RecomputedIsRight(OfAgent(rows, agent));
      } else {
        NamedAgentHasRows(b.rows, es, agent);
      }
    } else {
      UpsertAllOther(b.rows, es, agent);
    }
  }

  /** An agent that a batch names has a row afterwards. */
  lemma {:induction false} NamedAgentHasRows(rows: seq<Feedback>, es: seq<Feedback>, agent: Text)
    requires KeyGivesAgent(rows, es)
    requires (exists e | e in es :: e.kept.agent == agent) || OfAgent(rows, agent) != []
    ensures OfAgent(UpsertAll(rows, es), agent) != []
    decreases |es|
  {
    if es != [] {
      KeyGivesAgentStep(rows, es);
      UpsertHasRow(rows, es[0], agent);
      assert es == [es[0]] + es[1..];
      NamedAgentHasRows(Upsert(rows, es[0]), es[1..], agent);
    }
  }

  lemma {:induction false} UpsertHasRow(rows: seq<Feedback>, e: Feedback, agent: Text)
    requires forall r | r in rows && SameKey(r, e) :: r.kept.agent == e.kept.agent
    ensures e.kept.agent == agent || OfAgent(rows, agent) != [] ==> OfAgent(Upsert(rows, e), agent) != []
  {
    if rows != [] {
      assert rows[0] in rows;
      if !SameKey(rows[0], e) {
        UpsertHasRow(rows[1..], e, agent);
      }
    }
  }

  lemma BatchOfOne(b: Book, e: Feedback)
    ensures Affected([e]) == [e.kept.agent] && UpsertAll(b.rows, [e]) == Upsert(b.rows, e)
  {
    assert [e][1..] == [] && [e][..0] == [];
  }

  lemma OfAgentStep(rows: seq<Feedback>, agent: Text)
    requires rows != []
    ensures Sum(OfAgent(rows, agent))
         == (if rows[0].kept.agent == agent then rows[0].loose.score else 0) + Sum(OfAgent(rows[1..], agent))
  {
    var rest := OfAgent(rows[1..], agent);
    if rows[0].kept.agent == agent {
      SumOfParts([rows[0]], rest);
      assert [rows[0]][..0] == [];
      assert Sum([rows[0]]) == rows[0].loose.score;
    } else {
      assert [] + rest == rest;
    }
  }

  /** Overwriting a row shifts the sum of the agent that owns the row by the difference of the scores. */
  lemma {:induction false} OwnerSumShifts(rows: seq<Feedback>, r: Feedback, e: Feedback)
    requires OneRowPerKey(rows) && r in rows && SameKey(r, e)
    ensures OfAgent(Upsert(rows, e), r.kept.agent) != []
    ensures Sum(OfAgent(Upsert(rows, e), r.kept.agent))
         == Sum(OfAgent(rows, r.kept.agent)) - r.loose.score + e.loose.score
  {
    var owner := r.kept.agent;
    OfAgentStep(rows, owner);
    OfAgentStep(Upsert(rows, e), owner);
    if SameKey(rows[0], e) {
      var k :| 0 <= k < |rows| && rows[k] == r;
      assert k > 0 ==> !SameKey(rows[0], rows[k]);
      assert rows[0] == r && Upsert(rows, e)[1..] == rows[1..];
    } else {
      assert r in rows[1..] by {
        assert rows == [rows[0]] + rows[1..];
      }
      OwnerSumShifts(rows[1..], r, e);
      assert Upsert(rows, e)[1..] == Upsert(rows[1..], e);
    }
  }

  lemma DescribesSum(a: Aggregate, rows: seq<Feedback>)
    requires Describes(a, rows)
    ensures a.sum == Sum(rows)
  {
  }

  lemma StaleIsWrong(c: Book, agent: Text)
    requires agent in c.aggregates && c.aggregates[agent].sum != Sum(OfAgent(c.rows, agent))
    ensures !AggregatesRight(c)
  {
    assert !AgentRight(c, agent);
  }

  lemma OwnerKeepsAggregate(b: Book, e: Feedback, owner: Text)
    requires owner in b.aggregates && owner != e.kept.agent
    ensures var c := SyncFeedback(b, [e]);
            c.rows == Upsert(b.rows, e) && owner in c.aggregates && c.aggregates[owner] == b.aggregates[owner]
  {
    BatchOfOne(b, e);
    RecomputeAllSpec(b.(rows := Upsert(b.rows, e)), [e.kept.agent], owner);
  }

  /**
   Without that assumption aggregates go stale: whenever an event arrives under the key of a stored row of another agent
   with another score, the aggregate of the row's owner no longer describes its rows.
   */
  lemma ForeignKeyLeavesAggregateStale(b: Book, r: Feedback, e: Feedback)
    requires AggregatesRight(b) && r in b.rows && SameKey(r, e)
    requires r.kept.agent != e.kept.agent && r.loose.score != e.loose.score
    ensures !AggregatesRight(SyncFeedback(b, [e]))
  {
    var owner := r.kept.agent;
    OfAgentSpec(b.rows, owner);
    assert r in OfAgent(b.rows, owner);
    assert AgentRight(b, owner);
    OwnerSumShifts(b.rows, r, e);
    OwnerKeepsAggregate(b, e, owner);
    DescribesSum(b.aggregates[owner], OfAgent(b.rows, owner));
    StaleIsWrong(SyncFeedback(b, [e]), owner);
  }
}
