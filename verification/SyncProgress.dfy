/** Sync catches up: where both cursors stand after some good cycles, and what is stored by then. */
module SyncProgress {
  import opened Basics
  import opened Ingest
  import opened ProjectionStore
  import opened SyncCycle

  /** A cycle without failures, and a run of n of them with the tip standing still. */
  function Quiet(tip: int): Cycle {
    Cycle(tip, (r: Range) => false, (r: Range) => false, false, Nowhere)
  }

  function Repeated(step: Db -> Db, db: Db, n: nat): Db {
    if n == 0 then db else step(Repeated(step, db, n - 1))
  }

  function Steady(s: Setup, db: Db, tip: int, n: nat): Db {
    Repeated(d => GoodCycle(s, tip, d), db, n)
  }

  function GoodCycle(s: Setup, tip: int, db: Db): Db {
    RunCycle(s, db, Quiet(tip))
  }

  lemma {:induction false} RepeatedKeeps(step: Db -> Db, holds: Db -> bool, db: Db, n: nat)
    requires holds(db) && forall d | holds(d) :: holds(step(d))
    ensures holds(Repeated(step, db, n))
  {
    if n > 0 {
      RepeatedKeeps(step, holds, db, n - 1);
    }
  }

  /** From `next`, at most k blocks on, and never past the block after the tip; nowhere when the tip lies behind. */
  function Onward(next: int, k: int, tip: int): int {
    if next > tip then next else if next + k <= tip + 1 then next + k else tip + 1
  }

  function NextJobBlock(s: Setup, db: Db): int {
    if db.jobCursor == None then s.jobStart else db.jobCursor.value + 1
  }

  function NextFeedbackBlock(s: Setup, db: Db): int {
    if db.feedbackCursor == None then s.feedbackStart else db.feedbackCursor.value + 1
  }

  lemma QuietFetches(s: Setup, db: Db, tip: int)
    ensures FetchJobs(s, db, Quiet(tip)).Ok? && FetchFeedback(s, db, Quiet(tip)).Ok?
  {
  }

  lemma QuietJobs(s: Setup, db: Db, tip: int)
    requires s.indexJobs && s.maxRange >= 1
    ensures NextJobBlock(s, RunCycle(s, db, Quiet(tip))) == Onward(NextJobBlock(s, db), s.maxRange, tip)
    ensures RunCycle(s, db, Quiet(tip)).jobs == UpsertAll(db.jobs, FetchJobs(s, db, Quiet(tip)).value)
  {
    QuietFetches(s, db, tip);
  }

  lemma QuietFeedback(s: Setup, db: Db, tip: int)
    requires s.indexFeedback && s.maxRange >= 1
    ensures NextFeedbackBlock(s, RunCycle(s, db, Quiet(tip))) == Onward(NextFeedbackBlock(s, db), s.maxRange, tip)
    ensures RunCycle(s, db, Quiet(tip)).book.rows == UpsertAll(db.book.rows, FetchFeedback(s, db, Quiet(tip)).value)
  {
    QuietFetches(s, db, tip);
    FeedbackRows(s, db, Quiet(tip));
  }

  lemma OneMoreRange(n: nat, range: int)
    requires n > 0
    ensures n * range == (n - 1) * range + range
  {
  }

  lemma FurtherOnward(next: int, a: int, b: int, tip: int)
    requires a >= 0 && b >= 1
    ensures Onward(Onward(next, a, tip), b, tip) == Onward(next, a + b, tip)
  {
  }

  lemma RangesGrow(n: nat, range: int)
    requires range >= 1
    ensures n * range >= 0
  {
  }

  // ----- where the cursors stand -----

  /** After n good cycles the next job block is n ranges further on, or just past the tip. */
  lemma {:induction false} JobsCatchUp(s: Setup, db: Db, tip: int, n: nat)
    requires s.indexJobs && s.maxRange >= 1
    ensures NextJobBlock(s, Steady(s, db, tip, n)) == Onward(NextJobBlock(s, db), n * s.maxRange, tip)
  {
    if n > 0 {
      JobsCatchUp(s, db, tip, n - 1);
      QuietJobs(s, Steady(s, db, tip, n - 1), tip);
      OneMoreRange(n, s.maxRange);
      RangesGrow(n - 1, s.maxRange);
      FurtherOnward(NextJobBlock(s, db), (n - 1) * s.maxRange, s.maxRange, tip);
    }
  }

  /** And so is the next block of the reputation stream. */
  lemma {:induction false} FeedbackCatchesUp(s: Setup, db: Db, tip: int, n: nat)
    requires s.indexFeedback && s.maxRange >= 1
    ensures NextFeedbackBlock(s, Steady(s, db, tip, n)) == Onward(NextFeedbackBlock(s, db), n * s.maxRange, tip)
  {
    if n > 0 {
      FeedbackCatchesUp(s, db, tip, n - 1);
      QuietFeedback(s, Steady(s, db, tip, n - 1), tip);
      OneMoreRange(n, s.maxRange);
      RangesGrow(n - 1, s.maxRange);
      FurtherOnward(NextFeedbackBlock(s, db), (n - 1) * s.maxRange, s.maxRange, tip);
    }
  }

  // ----- what is stored by then -----

  /** The blocks up to k are held, none after it; k lies at or past the block before the next. */
  ghost predicate JobsHeld(s: Setup, db: Db, k: int) {
    && s.jobStart <= NextJobBlock(s, db) <= k + 1
    && Holds(db.jobs, s.jobChain, s.jobWanted, s.jobStart, k)
  }

  ghost predicate FeedbackHeld(s: Setup, db: Db, k: int) {
    && s.feedbackStart <= NextFeedbackBlock(s, db) <= k + 1
    && Holds(db.book.rows, s.feedbackChain, s.feedbackWanted, s.feedbackStart, k)
  }

  lemma QuietJobsHeld(s: Setup, db: Db, tip: int, k: int)
    requires SetupOk(s) && s.indexJobs && s.maxRange >= 1 && JobsHeld(s, db, k)
    ensures var db' := RunCycle(s, db, Quiet(tip)); JobsHeld(s, db', Max(k, NextJobBlock(s, db') - 1))
  {
    var from, until := NextJobBlock(s, db), JobRange(s, db, tip).1;
    var db' := RunCycle(s, db, Quiet(tip));
    QuietJobs(s, db, tip);
    WantedInRange(s.jobChain, s.jobWanted, Quiet(tip).jobFails, from, until);
    Extend(db.jobs, FetchJobs(s, db, Quiet(tip)).value, s.jobChain, s.jobWanted, s.jobStart, k, from, until);
    assert Max(k, until) == Max(k, NextJobBlock(s, db') - 1);
  }

  lemma QuietFeedbackHeld(s: Setup, db: Db, tip: int, k: int)
    requires SetupOk(s) && s.indexFeedback && s.maxRange >= 1 && FeedbackHeld(s, db, k)
    ensures var db' := RunCycle(s, db, Quiet(tip)); FeedbackHeld(s, db', Max(k, NextFeedbackBlock(s, db') - 1))
  {
    var from, until := NextFeedbackBlock(s, db), FeedbackRange(s, db, tip).1;
    var db' := RunCycle(s, db, Quiet(tip));
    QuietFeedback(s, db, tip);
    WantedInRange(s.feedbackChain, s.feedbackWanted, Quiet(tip).feedbackFails, from, until);
    Extend(db.book.rows, FetchFeedback(s, db, Quiet(tip)).value, s.feedbackChain, s.feedbackWanted, s.feedbackStart, k,
           from, until);
    assert Max(k, until) == Max(k, NextFeedbackBlock(s, db') - 1);
  }

  lemma LaterWins(k: int, next: int, next': int, range: int, tip: int)
    requires range >= 0 && next' == Onward(next, range, tip)
    ensures Max(Max(k, next - 1), next' - 1) == Max(k, next' - 1)
  {
  }

  ghost predicate JobsSoFar(s: Setup, k: int, db: Db) {
    JobsHeld(s, db, Max(k, NextJobBlock(s, db) - 1))
  }

  lemma OneMoreJobsHeld(s: Setup, db: Db, tip: int, k: int)
    requires SetupOk(s) && s.indexJobs && s.maxRange >= 1 && JobsSoFar(s, k, db)
    ensures JobsSoFar(s, k, GoodCycle(s, tip, db))
  {
    QuietJobsHeld(s, db, tip, Max(k, NextJobBlock(s, db) - 1));
    QuietJobs(s, db, tip);
    LaterWins(k, NextJobBlock(s, db), NextJobBlock(s, RunCycle(s, db, Quiet(tip))), s.maxRange, tip);
  }

  /** After n good cycles the job rows are the wanted events up to the block before the next one, or up to k if that was later. */
  lemma JobsAreStored(s: Setup, db: Db, tip: int, n: nat, k: int)
    requires SetupOk(s) && s.indexJobs && s.maxRange >= 1 && JobsHeld(s, db, k)
    ensures JobsSoFar(s, k, Steady(s, db, tip, n))
  {
    ghost var stored: Db -> bool := d => JobsSoFar(s, k, d);
    var step := d => GoodCycle(s, tip, d);
    assert Max(k, NextJobBlock(s, db) - 1) == k;
    forall d | stored(d)
      ensures stored(step(d))
    {
      OneMoreJobsHeld(s, d, tip, k);
    }
    RepeatedKeeps(step, stored, db, n);
    assert stored(Repeated(step, db, n));
  }

  ghost predicate FeedbackSoFar(s: Setup, k: int, db: Db) {
    FeedbackHeld(s, db, Max(k, NextFeedbackBlock(s, db) - 1))
  }

  lemma OneMoreFeedbackHeld(s: Setup, db: Db, tip: int, k: int)
    requires SetupOk(s) && s.indexFeedback && s.maxRange >= 1 && FeedbackSoFar(s, k, db)
    ensures FeedbackSoFar(s, k, GoodCycle(s, tip, db))
  {
    QuietFeedbackHeld(s, db, tip, Max(k, NextFeedbackBlock(s, db) - 1));
    QuietFeedback(s, db, tip);
    LaterWins(k, NextFeedbackBlock(s, db), NextFeedbackBlock(s, RunCycle(s, db, Quiet(tip))), s.maxRange, tip);
  }

  /** And so are the feedback rows. */
  lemma FeedbackIsStored(s: Setup, db: Db, tip: int, n: nat, k: int)
    requires SetupOk(s) && s.indexFeedback && s.maxRange >= 1 && FeedbackHeld(s, db, k)
    ensures FeedbackSoFar(s, k, Steady(s, db, tip, n))
  {
    ghost var stored: Db -> bool := d => FeedbackSoFar(s, k, d);
    var step := d => GoodCycle(s, tip, d);
    assert Max(k, NextFeedbackBlock(s, db) - 1) == k;
    forall d | stored(d)
      ensures stored(step(d))
    {
      OneMoreFeedbackHeld(s, d, tip, k);
    }
    RepeatedKeeps(step, stored, db, n);
    assert stored(Repeated(step, db, n));
  }

  /**
   From any database that a run with failures and crashes has left: enough good cycles bring both streams just past the
   tip, and then exactly the wanted events of all blocks up to the tip are stored, or up to a later block that was
   stored before.
   */
  lemma SyncCatchesUp(s: Setup, cs: seq<Cycle>, tip: int, n: nat)
    requires SetupOk(s) && s.indexJobs && s.indexFeedback && s.maxRange >= 1
    requires var db := RunCycles(s, EMPTY_DB, cs);
             && NextJobBlock(s, db) <= tip && NextFeedbackBlock(s, db) <= tip
             && NextJobBlock(s, db) + n * s.maxRange > tip && NextFeedbackBlock(s, db) + n * s.maxRange > tip
    ensures var db' := Steady(s, RunCycles(s, EMPTY_DB, cs), tip, n);
            && NextJobBlock(s, db') == tip + 1 && NextFeedbackBlock(s, db') == tip + 1
            && (exists k: int | k >= tip :: Holds(db'.jobs, s.jobChain, s.jobWanted, s.jobStart, k))
            && exists k: int | k >= tip :: Holds(db'.book.rows, s.feedbackChain, s.feedbackWanted, s.feedbackStart, k)
  {
    var db := RunCycles(s, EMPTY_DB, cs);
    SyncCoversWithCrashes(s, cs);
    var j: int :| s.jobStart - 1 <= j && (db.jobCursor.Some? ==> s.jobStart - 1 <= db.jobCursor.value <= j)
                  && Holds(db.jobs, s.jobChain, s.jobWanted, s.jobStart, j);
    var f: int :| s.feedbackStart - 1 <= f && (db.feedbackCursor.Some? ==> s.feedbackStart - 1 <= db.feedbackCursor.value <= f)
                  && Holds(db.book.rows, s.feedbackChain, s.feedbackWanted, s.feedbackStart, f);
    JobsCatchUp(s, db, tip, n);
    FeedbackCatchesUp(s, db, tip, n);
    JobsAreStored(s, db, tip, n, j);
    FeedbackIsStored(s, db, tip, n, f);
  }

  // ----- cycles that fail, and streams that are off -----

  /** A cycle in which a fetch fails, or anything else before the commit, changes nothing at all. */
  lemma FailedCycleChangesNothing(s: Setup, db: Db, c: Cycle)
    requires FetchJobs(s, db, c).Err? || FetchFeedback(s, db, c).Err? || c.otherError || c.stop == BeforeCommit
    ensures RunCycle(s, db, c) == db
  {
  }

  /** Dying after the commit leaves what was fetched stored, and the cursors of the steps not yet taken where they were. */
  lemma DyingLeavesCursors(s: Setup, db: Db, c: Cycle)
    requires FetchJobs(s, db, c).Ok? && FetchFeedback(s, db, c).Ok? && !c.otherError && c.stop != BeforeCommit
    ensures var db' := RunCycle(s, db, c);
            && db'.jobs == UpsertAll(db.jobs, FetchJobs(s, db, c).value)
            && db'.book.rows == UpsertAll(db.book.rows, FetchFeedback(s, db, c).value)
            && (c.stop == AfterCommit ==> db'.jobCursor == db.jobCursor)
            && (c.stop in {AfterCommit, BetweenCursors} ==> db'.feedbackCursor == db.feedbackCursor)
  {
    FeedbackRows(s, db, c);
  }

  /** A stream that is not indexed keeps its rows and its cursor. */
  lemma OffStreamsStay(s: Setup, db: Db, c: Cycle)
    ensures !s.indexJobs ==> RunCycle(s, db, c).jobs == db.jobs && RunCycle(s, db, c).jobCursor == db.jobCursor
    ensures !s.indexFeedback ==>
              RunCycle(s, db, c).book.rows == db.book.rows && RunCycle(s, db, c).feedbackCursor == db.feedbackCursor
  {
    if FetchFeedback(s, db, c).Ok? {
      FeedbackRows(s, db, c);
    }
  }
}
