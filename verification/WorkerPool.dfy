/**
 The bounded worker pool of the indexer's RPC reads. Workers share a cursor and write into one results array. The
 scheduler is arbitrary: at each turn any worker that has not returned may take its next step, which is either to take
 an index and start its call, or to have its call finish.
 */
module WorkerPool {
  import opened Basics

  datatype Worker = Ready | InFlight(i: nat) | Returned

  function Max(a: int, b: int): int {
    if a < b then b else a
  }

  function Min(a: int, b: int): int {
    if a < b then a else b
  }

  function WorkerCount(limit: int, n: nat): (k: nat)
    ensures if limit <= 1 || n <= 1 then k == 1 else if limit <= n then k == limit else k == n
  {
    Max(1, Min(limit, n))
  }

  ghost function One(v: Worker): nat {
    if v.InFlight? then 1 else 0
  }

  /** The steps a worker can still take without a new index. */
  ghost function Weight(v: Worker): nat {
    match v
    case Returned => 0
    case Ready => 1
    case InFlight(_) => 2
  }

  /** Calls in flight. */
  ghost function Busy(ws: seq<Worker>): (k: nat)
    ensures k <= |ws|
  {
    if ws == [] then 0 else Busy(ws[..|ws| - 1]) + One(ws[|ws| - 1])
  }

  ghost function Pending(ws: seq<Worker>): nat {
    if ws == [] then 0 else Pending(ws[..|ws| - 1]) + Weight(ws[|ws| - 1])
  }

  lemma {:induction false} WorkerChanges(ws: seq<Worker>, w: nat, v: Worker)
    requires w < |ws|
    ensures Busy(ws[w := v]) == Busy(ws) - One(ws[w]) + One(v)
    ensures Pending(ws[w := v]) == Pending(ws) - Weight(ws[w]) + Weight(v)
  {
    var k := |ws| - 1;
    if w < k {
      assert ws[w := v][..k] == ws[..k][w := v];
      WorkerChanges(ws[..k], w, v);
    } else {
      assert ws[w := v][..k] == ws[..k];
    }
  }

  lemma {:induction false} NoneBusy(ws: seq<Worker>)
    requires forall w | 0 <= w < |ws| :: ws[w] == Ready
    ensures Busy(ws) == 0
  {
    if ws != [] {
      NoneBusy(ws[..|ws| - 1]);
    }
  }

  /** Every index taken is either in flight, at one worker, or has its result; the others are untouched. */
  ghost predicate Shared<In, Out>(
    items: seq<In>, fn: (In, nat) -> Option<Out>, results: seq<Option<Out>>, ws: seq<Worker>, cursor: nat)
  {
    && |results| == |items|
    && (forall w | 0 <= w < |ws| && ws[w].InFlight? :: ws[w].i < cursor && ws[w].i < |items|)
    && (forall v, w | 0 <= v < w < |ws| && ws[v].InFlight? && ws[w].InFlight? :: ws[v].i != ws[w].i)
    && (forall i | 0 <= i < |items| && i < cursor :: results[i] == fn(items[i], i) || Carried(ws, i))
    && (forall w | 0 <= w < |ws| && ws[w] == Returned :: cursor >= |items|)
  }

  ghost predicate Carried(ws: seq<Worker>, i: nat) {
    exists w | 0 <= w < |ws| :: ws[w] == InFlight(i)
  }

  lemma Takes<In, Out>(
    items: seq<In>, fn: (In, nat) -> Option<Out>, results: seq<Option<Out>>, ws: seq<Worker>, cursor: nat, w: nat)
    requires Shared(items, fn, results, ws, cursor) && w < |ws| && ws[w] == Ready && cursor < |items|
    ensures Shared(items, fn, results, ws[w := InFlight(cursor)], cursor + 1)
  {
    var next := ws[w := InFlight(cursor)];
    forall i | 0 <= i < |items| && i < cursor + 1
      ensures results[i] == fn(items[i], i) || Carried(next, i)
    {
      if i == cursor {
        assert next[w] == InFlight(i);
      } else if Carried(ws, i) {
        var v :| 0 <= v < |ws| && ws[v] == InFlight(i);
        assert next[v] == InFlight(i);
      }
    }
  }

  lemma Stops<In, Out>(
    items: seq<In>, fn: (In, nat) -> Option<Out>, results: seq<Option<Out>>, ws: seq<Worker>, cursor: nat, w: nat)
    requires Shared(items, fn, results, ws, cursor) && w < |ws| && ws[w] == Ready && cursor >= |items|
    ensures Shared(items, fn, results, ws[w := Returned], cursor + 1)
  {
    var next := ws[w := Returned];
    forall i | 0 <= i < |items|
      ensures results[i] == fn(items[i], i) || Carried(next, i)
    {
      if Carried(ws, i) {
        var v :| 0 <= v < |ws| && ws[v] == InFlight(i);
        assert next[v] == InFlight(i);
      }
    }
  }

  lemma Finishes<In, Out>(
    items: seq<In>, fn: (In, nat) -> Option<Out>, results: seq<Option<Out>>, ws: seq<Worker>, cursor: nat, w: nat)
    requires Shared(items, fn, results, ws, cursor) && w < |ws| && ws[w].InFlight?
    ensures ws[w].i < |items|
    ensures Shared(items, fn, results[ws[w].i := fn(items[ws[w].i], ws[w].i)], ws[w := Ready], cursor)
  {
    var k := ws[w].i;
    var next, results' := ws[w := Ready], results[k := fn(items[k], k)];
    forall i | 0 <= i < |items| && i < cursor
      ensures results'[i] == fn(items[i], i) || Carried(next, i)
    {
      if i != k && Carried(ws, i) {
        var v :| 0 <= v < |ws| && ws[v] == InFlight(i);
        assert next[v] == InFlight(i);
      }
    }
  }

  lemma AllReturned<In, Out>(
    items: seq<In>, fn: (In, nat) -> Option<Out>, results: seq<Option<Out>>, ws: seq<Worker>, cursor: nat)
    requires Shared(items, fn, results, ws, cursor) && ws != [] && forall w | 0 <= w < |ws| :: ws[w] == Returned
    ensures cursor >= |items| && forall i | 0 <= i < |items| :: results[i] == fn(items[i], i)
  {
    assert ws[0] == Returned;
    forall i | 0 <= i < |items|
      ensures results[i] == fn(items[i], i)
    {
      assert !Carried(ws, i);
    }
  }

  // ----- the pool -----

  /** The indexes called so far: each one taken, once, in order. */
  ghost predicate InTurn(calls: seq<nat>, cursor: nat, n: nat) {
    |calls| == Min(cursor, n) && forall i | 0 <= i < |calls| :: calls[i] == i
  }

  lemma OneMoreCall(calls: seq<nat>, cursor: nat, n: nat)
    requires InTurn(calls, cursor, n) && cursor < n
    ensures InTurn(calls + [cursor], cursor + 1, n)
  {
  }

  /** What the workers of one mapWithLimit share. */
  class Pool<In, Out> {
    const items: seq<In>
    const fn: (In, nat) -> Option<Out>
    const results: array<Option<Out>>
    var cursor: nat
    var workers: seq<Worker>
    ghost var calls: seq<nat>
    ghost var peak: nat

    ghost predicate Valid()
      reads this, results
    {
      && Shared(items, fn, results[..], workers, cursor)
      && InTurn(calls, cursor, |items|)
      && Busy(workers) <= peak <= |workers|
      && (calls != [] ==> peak >= 1)
    }

    ghost function Measure(): nat
      reads this
    {
      3 * Max(|items| - cursor, 0) + Pending(workers)
    }

    constructor (items: seq<In>, fn: (In, nat) -> Option<Out>, limit: int)
      ensures Valid() && fresh(results) && this.items == items && this.fn == fn
      ensures if limit <= 1 || |items| <= 1 then |workers| == 1
              else if limit <= |items| then |workers| == limit else |workers| == |items|
      ensures |workers| == WorkerCount(limit, |items|)
    {
      this.items, this.fn := items, fn;
      results := new Option<Out>[|items|](_ => None);
      cursor, calls, peak := 0, [], 0;
      workers := seq(WorkerCount(limit, |items|), _ => Ready);
      new;
      NoneBusy(workers);
    }

    /** A worker takes the next index and starts its call, or returns when there is none. */
    method Take(w: nat)
      requires Valid() && w < |workers| && workers[w] == Ready
      modifies this
      ensures Valid() && |workers| == old(|workers|) && Measure() < old(Measure())
    {
      if cursor >= |items| {
        Leave(w);
      } else {
        Start(w);
      }
    }

    method Leave(w: nat)
      requires Valid() && w < |workers| && workers[w] == Ready && cursor >= |items|
      modifies this`cursor, this`workers
      ensures Valid() && |workers| == old(|workers|) && Measure() < old(Measure())
    {
      WorkerChanges(workers, w, Returned);
      Stops(items, fn, results[..], workers, cursor, w);
      cursor := cursor + 1;
      workers := workers[w := Returned];
    }

    method Start(w: nat)
      requires Valid() && w < |workers| && workers[w] == Ready && cursor < |items|
      modifies this
      ensures Valid() && |workers| == old(|workers|) && Measure() < old(Measure())
    {
      ghost var next := workers[w := InFlight(cursor)];
      WorkerChanges(workers, w, InFlight(cursor));
      Takes(items, fn, results[..], workers, cursor, w);
      OneMoreCall(calls, cursor, |items|);
      calls := calls + [cursor];
      peak := Max(peak, Busy(next));
      workers := workers[w := InFlight(cursor)];
      cursor := cursor + 1;
    }

    /** A call finishes; its result, or null for its failure, is written in place. */
    method Settle(w: nat)
      requires Valid() && w < |workers| && workers[w].InFlight?
      modifies this, results
      ensures Valid() && |workers| == old(|workers|) && Measure() < old(Measure())
    {
      var i := workers[w].i;
      WorkerChanges(workers, w, Ready);
      Finishes(items, fn, results[..], workers, cursor, w);
      results[i] := fn(items[i], i);
      workers := workers[w := Ready];
      assert results[..] == old(results[..])[i := fn(items[i], i)];
    }
  }

  /**
   mapWithLimit: under every schedule the pool ends, each index is called exactly once and in order, every result is
   that of its call (None when it failed), and no more than max(1, min(limit, n)) calls are ever in flight.
   */
  method MapWithLimit<In, Out>(items: seq<In>, limit: int, fn: (In, nat) -> Option<Out>)
    returns (results: array<Option<Out>>, ghost calls: seq<nat>, ghost peak: nat)
    ensures results.Length == |items| && forall i | 0 <= i < |items| :: results[i] == fn(items[i], i)
    ensures |calls| == |items| && forall i | 0 <= i < |items| :: calls[i] == i
    ensures items != [] ==> peak >= 1
    ensures peak <= 1 || (peak <= limit && peak <= |items|)
  {
    var pool := new Pool(items, fn, limit);
    while exists w | 0 <= w < |pool.workers| :: pool.workers[w] != Returned
      invariant pool.Valid() && |pool.workers| == WorkerCount(limit, |items|) && fresh(pool) && fresh(pool.results)
      decreases pool.Measure()
    {
      var w: nat :| w < |pool.workers| && pool.workers[w] != Returned;
      if pool.workers[w] == Ready {
        pool.Take(w);
      } else {
        pool.Settle(w);
      }
    }
    results, calls, peak := pool.results, pool.calls, pool.peak;
    AllReturned(items, fn, results[..], pool.workers, pool.cursor);
    assert forall i | 0 <= i < |items| :: results[i] == results[..][i];
  }
}
