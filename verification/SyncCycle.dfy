/**
 The indexer's sync cycle: two event streams (jobs and reputation), each with its own cursor, committed in one
 transaction, with cursors written after the commit. A cycle may fail while fetching, or the process may die at any
 point; class Indexer performs the cycle on its tables.
 */
module SyncCycle {
  import opened Basics
  import opened SortedEntries
  import opened Ingest
  import opened ProjectionStore

  datatype JobKept = JobKept(jobId: Text, agentId: Text, kind: Text)

  type JobEvent = Event<JobKept, Text>

  /** What stays fixed: the two contracts' logs, which of them are wanted, and the configuration. */
  datatype Setup = Setup(
    jobChain: int -> seq<JobEvent>, jobWanted: JobEvent -> bool, jobStart: int, indexJobs: bool,
    feedbackChain: int -> seq<Feedback>, feedbackWanted: Feedback -> bool, feedbackStart: int, indexFeedback: bool,
    maxRange: int)

  datatype Db = Db(jobs: seq<JobEvent>, book: Book, jobCursor: Option<int>, feedbackCursor: Option<int>)

  const EMPTY_DB: Db := Db([], Book([], map[]), None, None)

  /** Where the process dies, if it does. */
  datatype Stop = Nowhere | BeforeCommit | AfterCommit | BetweenCursors

  /** One cycle: the chain tip it sees, which RPC ranges fail, whether anything else throws before the commit. */
  datatype Cycle = Cycle(tip: int, jobFails: Range -> bool, feedbackFails: Range -> bool, otherError: bool, stop: Stop)

  function NextBlock(cursor: Option<int>, start: int): int {
    if cursor.Some? then cursor.value + 1 else start
  }

  function Advanced(cursor: Option<int>, active: bool, from: int, until: int): Option<int> {
    if active && until >= from then Some(until) else cursor
  }

  function JobRange(s: Setup, db: Db, tip: int): Range {
    var from := NextBlock(db.jobCursor, s.jobStart);
    (from, CalculateToBlock(from, tip, s.maxRange))
  }

  function FeedbackRange(s: Setup, db: Db, tip: int): Range {
    var from := NextBlock(db.feedbackCursor, s.feedbackStart);
    (from, CalculateToBlock(from, tip, s.maxRange))
  }

  function FetchJobs(s: Setup, db: Db, c: Cycle): Result<seq<JobEvent>, Range> {
    var (from, until) := JobRange(s, db, c.tip);
    if s.indexJobs then FetchEvents(s.jobChain, s.jobWanted, c.jobFails, from, until) else Ok([])
  }

  function FetchFeedback(s: Setup, db: Db, c: Cycle): Result<seq<Feedback>, Range> {
    var (from, until) := FeedbackRange(s, db, c.tip);
    if s.indexFeedback then FetchEvents(s.feedbackChain, s.feedbackWanted, c.feedbackFails, from, until) else Ok([])
  }

  /** runSyncCycle, as a change of the database. */
  function RunCycle(s: Setup, db: Db, c: Cycle): Db {
    match (FetchJobs(s, db, c), FetchFeedback(s, db, c))
    case (Ok(jobs), Ok(feedback)) =>
      if c.otherError || c.stop == BeforeCommit then db
      else
        var stored := db.(jobs := UpsertAll(db.jobs, jobs), book := SyncFeedback(db.book, feedback));
        if c.stop == AfterCommit then stored
        else
          var (from, until) := JobRange(s, db, c.tip);
          var moved := stored.(jobCursor := Advanced(db.jobCursor, s.indexJobs, from, until));
          if c.stop == BetweenCursors then moved
          else
            var (from', until') := FeedbackRange(s, db, c.tip);
            moved.(feedbackCursor := Advanced(db.feedbackCursor, s.indexFeedback, from', until'))
    case _ => db
  }

  function RunCycles(s: Setup, db: Db, cs: seq<Cycle>): Db
    decreases |cs|
  {
    if cs == [] then db else RunCycles(s, RunCycle(s, db, cs[0]), cs[1..])
  }

  // ----- coverage -----

  /** On a chain, transaction hash and log index determine the event. */
  ghost predicate KeyDetermines<F(!new), U(!new)>(chain: int -> seq<Event<F, U>>) {
    forall b, c, x, y | x in chain(b) && y in chain(c) && x.tx == y.tx && x.index == y.index :: x == y
  }

  ghost predicate Is<E(!new)>(x: E, es: seq<E>) {
    x in es
  }

  /** A sequence lists exactly the wanted events of some blocks. */
  ghost predicate Exactly<E(!new)>(es: seq<E>, chain: int -> seq<E>, wanted: E -> bool, from: int, until: int) {
    forall x :: Is(x, es) <==> wanted(x) && InBlocks(chain, from, until, x)
  }

  /** The rows are exactly the wanted events of blocks start..k, one row per key. */
  ghost predicate Holds<F(!new), U(!new)>(
    rows: seq<Event<F, U>>, chain: int -> seq<Event<F, U>>, wanted: Event<F, U> -> bool, start: int, k: int)
  {
    OneRowPerKey(rows) && Exactly(rows, chain, wanted, start, k)
  }

  ghost predicate InBlocks<E(!new)>(chain: int -> seq<E>, from: int, until: int, x: E) {
    exists b: int | from <= b <= until :: x in chain(b)
  }

  /** No gap and no duplicate: everything from the start block to some block at or past the cursor, and nothing else. */
  ghost predicate Covered<F(!new), U(!new)>(
    rows: seq<Event<F, U>>, chain: int -> seq<Event<F, U>>, wanted: Event<F, U> -> bool, start: int, cursor: Option<int>)
  {
    exists k: int | start - 1 <= k && (cursor.Some? ==> start - 1 <= cursor.value <= k) ::
      Holds(rows, chain, wanted, start, k)
  }

  lemma {:induction false} EventsInSpec<E(!new)>(chain: int -> seq<E>, from: int, until: int, x: E)
    ensures x in EventsIn(chain, from, until) <==> InBlocks(chain, from, until, x)
    decreases until - from
  {
    if from <= until {
      EventsInSpec(chain, from + 1, until, x);
      if InBlocks(chain, from, until, x) && x !in chain(from) {
        var b :| from <= b <= until && x in chain(b);
        assert InBlocks(chain, from + 1, until, x);
      }
    }
  }

  lemma WantedInRange<F(!new), U(!new)>(
    chain: int -> seq<Event<F, U>>, wanted: Event<F, U> -> bool, fails: Range -> bool, from: int, until: int)
    requires NodeOrder(chain) && FetchEvents(chain, wanted, fails, from, until).Ok?
    ensures Exactly(FetchEvents(chain, wanted, fails, from, until).value, chain, wanted, from, until)
  {
    var es, all := FetchEvents(chain, wanted, fails, from, until).value, EventsIn(chain, from, until);
    FetchedEvents(chain, wanted, fails, from, until);
    FilterSpec(wanted, all);
    forall x
      ensures Is(x, es) <==> wanted(x) && InBlocks(chain, from, until, x)
    {
      EventsInSpec(chain, from, until, x);
      assert x in Filter(wanted, all) <==> x in all && wanted(x);
    }
  }

  function Max(a: int, b: int): int {
    if a < b then b else a
  }

  /** Upserting the events of from..until extends what is held, even when part of the range was held already. */
  lemma Extend<F(!new), U(!new)>(
    rows: seq<Event<F, U>>, es: seq<Event<F, U>>, chain: int -> seq<Event<F, U>>, wanted: Event<F, U> -> bool,
    start: int, k: int, from: int, until: int)
    requires KeyDetermines(chain) && Holds(rows, chain, wanted, start, k)
    requires start <= from <= k + 1
    requires Exactly(es, chain, wanted, from, until)
    ensures Holds(UpsertAll(rows, es), chain, wanted, start, Max(k, until))
  {
    UpsertAllKeys(rows, es);
    forall a, b | (a in rows || a in es) && b in es && SameKey(a, b)
      ensures a == b
    {
      assert (Is(a, rows) || Is(a, es)) && Is(b, es);
      KnownEvent(chain, start, k, from, until, a);
      KnownEvent(chain, start, k, from, until, b);
      var i, j :| a in chain(i) && b in chain(j);
    }
    UpsertAllAdds(rows, es);
    forall x
      ensures Is(x, UpsertAll(rows, es)) <==> wanted(x) && InBlocks(chain, start, Max(k, until), x)
    {
      JoinBlocks(chain, start, k, from, until, x);
      assert Is(x, UpsertAll(rows, es)) <==> Is(x, rows) || Is(x, es);
    }
  }

  lemma KnownEvent<E(!new)>(chain: int -> seq<E>, start: int, k: int, from: int, until: int, x: E)
    requires InBlocks(chain, start, k, x) || InBlocks(chain, from, until, x)
    ensures exists b :: x in chain(b)
  {
  }

  lemma JoinBlocks<E(!new)>(chain: int -> seq<E>, start: int, k: int, from: int, until: int, x: E)
    requires start <= from <= k + 1
    ensures InBlocks(chain, start, Max(k, until), x) <==> InBlocks(chain, start, k, x) || InBlocks(chain, from, until, x)
  {
    if InBlocks(chain, start, Max(k, until), x) {
      var b :| start <= b <= Max(k, until) && x in chain(b);
      assert b <= k || from <= b <= until;
    }
  }

  /** One fetched range, stored: coverage holds with the cursor as it was and with the cursor advanced. */
  lemma StreamStep<F(!new), U(!new)>(
    rows: seq<Event<F, U>>, chain: int -> seq<Event<F, U>>, wanted: Event<F, U> -> bool, start: int,
    cursor: Option<int>, until: int, fails: Range -> bool)
    requires NodeOrder(chain) && KeyDetermines(chain) && Covered(rows, chain, wanted, start, cursor)
    requires FetchEvents(chain, wanted, fails, NextBlock(cursor, start), until).Ok?
    ensures var from := NextBlock(cursor, start);
            var rows' := UpsertAll(rows, FetchEvents(chain, wanted, fails, from, until).value);
            && Covered(rows', chain, wanted, start, cursor)
            && Covered(rows', chain, wanted, start, Advanced(cursor, true, from, until))
  {
    var from := NextBlock(cursor, start);
    var es := FetchEvents(chain, wanted, fails, from, until).value;
    var k: int :| start - 1 <= k && (cursor.Some? ==> start - 1 <= cursor.value <= k)
                  && Holds(rows, chain, wanted, start, k);
    WantedInRange(chain, wanted, fails, from, until);
    Extend(rows, es, chain, wanted, start, k, from, until);
    assert Holds(UpsertAll(rows, es), chain, wanted, start, Max(k, until));
  }

  lemma KeysGiveAgents(
    rows: seq<Feedback>, es: seq<Feedback>, chain: int -> seq<Feedback>, wanted: Feedback -> bool, start: int,
    cursor: Option<int>, from: int, until: int)
    requires KeyDetermines(chain) && Covered(rows, chain, wanted, start, cursor)
    requires Exactly(es, chain, wanted, from, until)
    ensures KeyGivesAgent(rows, es)
  {
    var k: int :| start - 1 <= k && Holds(rows, chain, wanted, start, k);
    forall a, b | (a in rows || a in es) && b in es && SameKey(a, b)
      ensures a == b
    {
      assert (Is(a, rows) || Is(a, es)) && Is(b, es);
      KnownEvent(chain, start, k, from, until, a);
      KnownEvent(chain, start, k, from, until, b);
      var i, j :| a in chain(i) && b in chain(j);
    }
  }

  ghost predicate SetupOk(s: Setup) {
    && NodeOrder(s.jobChain) && KeyDetermines(s.jobChain)
    && NodeOrder(s.feedbackChain) && KeyDetermines(s.feedbackChain)
  }

  ghost predicate JobsCovered(s: Setup, db: Db) {
    Covered(db.jobs, s.jobChain, s.jobWanted, s.jobStart, db.jobCursor)
  }

  ghost predicate FeedbackCovered(s: Setup, db: Db) {
    Covered(db.book.rows, s.feedbackChain, s.feedbackWanted, s.feedbackStart, db.feedbackCursor)
  }

  ghost predicate Inv(s: Setup, db: Db) {
    JobsCovered(s, db) && FeedbackCovered(s, db) && AggregatesRight(db.book)
  }

  lemma JobsStep(s: Setup, db: Db, c: Cycle)
    requires SetupOk(s) && JobsCovered(s, db)
    ensures JobsCovered(s, RunCycle(s, db, c))
  {
    var (from, until) := JobRange(s, db, c.tip);
    if s.indexJobs && FetchJobs(s, db, c).Ok? {
      StreamStep(db.jobs, s.jobChain, s.jobWanted, s.jobStart, db.jobCursor, until, c.jobFails);
    }
  }

  lemma FeedbackRows(s: Setup, db: Db, c: Cycle)
    requires FetchFeedback(s, db, c).Ok?
    ensures SyncFeedback(db.book, FetchFeedback(s, db, c).value).rows
         == UpsertAll(db.book.rows, FetchFeedback(s, db, c).value)
  {
    var es := FetchFeedback(s, db, c).value;
    RecomputeAllSpec(db.book.(rows := UpsertAll(db.book.rows, es)), Affected(es), []);
  }

  lemma FeedbackStep(s: Setup, db: Db, c: Cycle)
    requires SetupOk(s) && FeedbackCovered(s, db)
    ensures FeedbackCovered(s, RunCycle(s, db, c))
  {
    var (from, until) := FeedbackRange(s, db, c.tip);
    if FetchFeedback(s, db, c).Ok? {
      FeedbackRows(s, db, c);
      if s.indexFeedback {
        StreamStep(db.book.rows, s.feedbackChain, s.feedbackWanted, s.feedbackStart, db.feedbackCursor, until,
                   c.feedbackFails);
      }
    }
  }

  lemma AggregatesStep(s: Setup, db: Db, c: Cycle)
    requires SetupOk(s) && FeedbackCovered(s, db) && AggregatesRight(db.book)
    ensures AggregatesRight(RunCycle(s, db, c).book)
  {
    var (from, until) := FeedbackRange(s, db, c.tip);
    if FetchFeedback(s, db, c).Ok? {
      var es := FetchFeedback(s, db, c).value;
      if s.indexFeedback {
        WantedInRange(s.feedbackChain, s.feedbackWanted, c.feedbackFails, from, until);
        KeysGiveAgents(db.book.rows, es, s.feedbackChain, s.feedbackWanted, s.feedbackStart, db.feedbackCursor, from, until);
      }
      SyncKeepsAggregates(db.book, es);
    }
  }

  lemma {:induction false} CyclesKeepInv(s: Setup, db: Db, cs: seq<Cycle>)
    requires SetupOk(s) && Inv(s, db)
    ensures Inv(s, RunCycles(s, db, cs))
    decreases |cs|
  {
    if cs != [] {
      JobsStep(s, db, cs[0]);
      FeedbackStep(s, db, cs[0]);
      AggregatesStep(s, db, cs[0]);
      CyclesKeepInv(s, RunCycle(s, db, cs[0]), cs[1..]);
    }
  }

  lemma EmptyCovers<F(!new), U(!new)>(chain: int -> seq<Event<F, U>>, wanted: Event<F, U> -> bool, start: int)
    ensures Covered([], chain, wanted, start, None)
  {
    assert Holds([], chain, wanted, start, start - 1);
  }

  // ----- main results -----

  /**
   Over every run of cycles on one chain, whatever tips are seen, whatever fails and wherever the process dies: the
   stored events of both streams are exactly the wanted ones of all blocks from the start to some block at or past the
   cursor, each once, and every agent's aggregate is that of all its stored feedback.
   */
  lemma SyncCoversWithCrashes(s: Setup, cs: seq<Cycle>)
    requires SetupOk(s)
    ensures var db := RunCycles(s, EMPTY_DB, cs); JobsCovered(s, db) && FeedbackCovered(s, db) && AggregatesRight(db.book)
  {
    EmptyCovers(s.jobChain, s.jobWanted, s.jobStart);
    EmptyCovers(s.feedbackChain, s.feedbackWanted, s.feedbackStart);
    CyclesKeepInv(s, EMPTY_DB, cs);
  }

  /** No cycle moves a cursor backwards, or past the tip it saw. */
  lemma CursorsAdvance(s: Setup, db: Db, c: Cycle)
    ensures var db' := RunCycle(s, db, c);
            && (db'.jobCursor != db.jobCursor ==>
                  db'.jobCursor.Some? && NextBlock(db.jobCursor, s.jobStart) <= db'.jobCursor.value <= c.tip)
            && (db'.feedbackCursor != db.feedbackCursor ==>
                  db'.feedbackCursor.Some?
                  && NextBlock(db.feedbackCursor, s.feedbackStart) <= db'.feedbackCursor.value <= c.tip)
  {
  }

  // ----- the indexer -----

  class Indexer {
    const setup: Setup
    var jobs: seq<JobEvent>
    var feedback: seq<Feedback>
    var aggregates: map<Text, Aggregate>
    var jobCursor: Option<int>
    var feedbackCursor: Option<int>
    var syncInProgress: bool
    var syncSkipCount: nat

    constructor (setup: Setup)
      ensures this.setup == setup && Now() == EMPTY_DB && !syncInProgress && syncSkipCount == 0
    {
      this.setup := setup;
      jobs, feedback, aggregates, jobCursor, feedbackCursor := [], [], map[], None, None;
      syncInProgress, syncSkipCount := false, 0;
    }

    ghost function Now(): Db
      reads this
    {
      Db(jobs, Book(feedback, aggregates), jobCursor, feedbackCursor)
    }

    method RecomputeReputationAggregate(agent: Text)
      modifies this`aggregates
      ensures Now().book == Recompute(old(Now().book), agent)
    {
      var rows := Ordered(OfAgent(feedback, agent));
      if |rows| == 0 {
        return;
      }
      var scoreSum := 0;
      for i := 0 to |rows|
        invariant scoreSum == Sum(rows[..i])
      {
        assert rows[..i + 1][..i] == rows[..i];
        scoreSum := scoreSum + rows[i].loose.score;
      }
      assert rows[..|rows|] == rows;
      var latest := rows[|rows| - 1];
      aggregates := aggregates[agent := Aggregate(
        |rows|, scoreSum, TruncDiv(scoreSum, |rows|), latest.loose.score, latest.loose.category, latest.loose.comment,
        latest.kept.reviewer, latest.tx, latest.block)];
    }

    /** The transaction: both batches of events, then the aggregates of the agents named. */
    method SyncProjectionStore(events: seq<JobEvent>, reputation: seq<Feedback>)
      modifies this`jobs, this`feedback, this`aggregates
      ensures jobs == UpsertAll(old(jobs), events)
      ensures Now().book == SyncFeedback(old(Now().book), reputation)
    {
      for i := 0 to |events|
        invariant UpsertAll(jobs, events[i..]) == UpsertAll(old(jobs), events)
        invariant feedback == old(feedback) && aggregates == old(aggregates)
      {
        assert events[i..][1..] == events[i + 1..];
        jobs := Upsert(jobs, events[i]);
      }
      var affected := UpsertReputation(reputation);
      RecomputeAffected(affected);
    }

    /** Stores the batch and names the agents it touches. */
    method UpsertReputation(reputation: seq<Feedback>) returns (affected: seq<Text>)
      modifies this`feedback
      ensures feedback == UpsertAll(old(feedback), reputation) && affected == Affected(reputation)
    {
      affected := [];
      for i := 0 to |reputation|
        invariant affected == Affected(reputation[..i])
        invariant UpsertAll(feedback, reputation[i..]) == UpsertAll(old(feedback), reputation)
      {
        var event := reputation[i];
        assert reputation[..i + 1][..i] == reputation[..i];
        assert reputation[i..][1..] == reputation[i + 1..];
        if event.kept.agent !in affected {
          affected := affected + [event.kept.agent];
        }
        feedback := Upsert(feedback, event);
      }
      assert reputation[..|reputation|] == reputation;
    }

    method RecomputeAffected(affected: seq<Text>)
      modifies this`aggregates
      ensures Now().book == RecomputeAll(old(Now().book), affected)
    {
      ghost var stored := Book(feedback, aggregates);
      for i := 0 to |affected|
        invariant Now().book == RecomputeAll(stored, affected[..i])
      {
        assert affected[..i + 1][..i] == affected[..i];
        RecomputeReputationAggregate(affected[i]);
      }
      assert affected[..|affected|] == affected;
    }

    /** The process ends; the next one starts with fresh variables. */
    method Die()
      modifies this`syncInProgress, this`syncSkipCount
      ensures !syncInProgress && syncSkipCount == 0
    {
      syncInProgress, syncSkipCount := false, 0;
    }

    /** A cycle while another is running is skipped; a crash ends the process, and with it syncInProgress. */
    method RunSyncCycle(c: Cycle)
      modifies this
      ensures old(syncInProgress) ==>
                Now() == old(Now()) && syncInProgress && syncSkipCount == old(syncSkipCount) + 1
      ensures !old(syncInProgress) ==> Now() == RunCycle(setup, old(Now()), c) && !syncInProgress
      ensures !old(syncInProgress) && c.stop == Nowhere ==> syncSkipCount == old(syncSkipCount)
    {
      if syncInProgress {
        syncSkipCount := syncSkipCount + 1;
        return;
      }
      syncInProgress := true;
      var fromBlock := NextBlock(jobCursor, setup.jobStart);
      var toBlock := CalculateToBlock(fromBlock, c.tip, setup.maxRange);
      var reputationFromBlock := NextBlock(feedbackCursor, setup.feedbackStart);
      var reputationToBlock := CalculateToBlock(reputationFromBlock, c.tip, setup.maxRange);
      var events: seq<JobEvent>, reputation: seq<Feedback> := [], [];
      if setup.indexJobs {
        var fetched := FetchEvents(setup.jobChain, setup.jobWanted, c.jobFails, fromBlock, toBlock);
        if fetched.Err? {
          syncInProgress := false;
          return;
        }
        events := fetched.value;
      }
      if setup.indexFeedback {
        var fetched := FetchEvents(setup.feedbackChain, setup.feedbackWanted, c.feedbackFails,
                                   reputationFromBlock, reputationToBlock);
        if fetched.Err? {
          syncInProgress := false;
          return;
        }
        reputation := fetched.value;
      }
      if c.otherError {
        syncInProgress := false;
        return;
      }
      if c.stop == BeforeCommit {
        Die();
        return;
      }
      SyncProjectionStore(events, reputation);
      if c.stop == AfterCommit {
        Die();
        return;
      }
      if setup.indexJobs && toBlock >= fromBlock {
        jobCursor := Some(toBlock);
      }
      if c.stop == BetweenCursors {
        Die();
        return;
      }
      if setup.indexFeedback && reputationToBlock >= reputationFromBlock {
        feedbackCursor := Some(reputationToBlock);
      }
      syncInProgress := false;
    }
  }
}
