/**
 Event ingestion: range splitting under RPC failure, filtering and ordering.

 A chain gives the logs of each block in the order the node returns them. One RPC call either fails or returns the logs
 of its whole range; `fails` says which, and may be any predicate on ranges.
 */
module Ingest {
  import opened Basics
  import opened SortedEntries

  const MIN_CHUNK_BLOCKS := 500

  /** An event as ingested and stored: its place, the columns a conflict keeps, and the columns it overwrites. */
  datatype Event<F, U> = Event(block: int, index: nat, tx: Text, kept: F, loose: U)

  type Range = (int, int)

  /** The logs of blocks from..to, in block order. */
  function EventsIn<E>(chain: int -> seq<E>, from: int, last: int): seq<E>
    decreases last - from
  {
    if from > last then [] else chain(from) + EventsIn(chain, from + 1, last)
  }

  lemma {:induction false} EventsSplit<E>(chain: int -> seq<E>, from: int, mid: int, last: int)
    requires from <= mid + 1 && mid <= last
    ensures EventsIn(chain, from, last) == EventsIn(chain, from, mid) + EventsIn(chain, mid + 1, last)
    decreases last - from
  {
    if from <= mid {
      EventsSplit(chain, from + 1, mid, last);
      assert chain(from) + (EventsIn(chain, from + 1, mid) + EventsIn(chain, mid + 1, last))
          == chain(from) + EventsIn(chain, from + 1, mid) + EventsIn(chain, mid + 1, last);
    }
  }

  /** fetchEventsInRange: on failure halve the range and fetch both halves; the error names the range that failed. */
  function FetchRange<E>(chain: int -> seq<E>, fails: Range -> bool, from: int, last: int): Result<seq<E>, Range>
    decreases last - from
  {
    if !fails((from, last)) then Ok(EventsIn(chain, from, last))
    else
      var range := last - from;
      if range <= MIN_CHUNK_BLOCKS then Err((from, last))
      else
        var mid := from + range / 2;
        match (FetchRange(chain, fails, from, mid), FetchRange(chain, fails, mid + 1, last))
        case (Ok(left), Ok(right)) => Ok(left + right)
        case (Err(r), _) => Err(r)
        case (_, Err(r)) => Err(r)
  }

  /** Whatever fails on the way, a fetch that returns has the events of the whole range, as one good call would. */
  lemma {:induction false} FetchIsWhole<E>(chain: int -> seq<E>, fails: Range -> bool, from: int, last: int)
    requires FetchRange(chain, fails, from, last).Ok?
    ensures FetchRange(chain, fails, from, last).value == EventsIn(chain, from, last)
    decreases last - from
  {
    if fails((from, last)) {
      var mid := from + (last - from) / 2;
      FetchIsWhole(chain, fails, from, mid);
      FetchIsWhole(chain, fails, mid + 1, last);
      EventsSplit(chain, from, mid, last);
    }
  }

  /** A fetch fails only on a range of at most MIN_CHUNK_BLOCKS inside its own that failed by itself. */
  lemma {:induction false} FetchFailsAtMinimum<E>(chain: int -> seq<E>, fails: Range -> bool, from: int, last: int)
    requires from <= last && FetchRange(chain, fails, from, last).Err?
    ensures
      var (f, t) := FetchRange(chain, fails, from, last).error;
      from <= f <= t <= last && t - f <= MIN_CHUNK_BLOCKS && fails((f, t))
    decreases last - from
  {
    var mid := from + (last - from) / 2;
    if last - from > MIN_CHUNK_BLOCKS {
      if FetchRange(chain, fails, from, mid).Err? {
        FetchFailsAtMinimum(chain, fails, from, mid);
      } else {
        FetchFailsAtMinimum(chain, fails, mid + 1, last);
      }
    }
  }

  /** A failing range of at most 501 blocks is final; a larger one comes to its two halves, the left one's error first. */
  lemma FailingRange<E>(chain: int -> seq<E>, fails: Range -> bool, from: int, last: int)
    requires fails((from, last))
    ensures last - from <= 500 ==> FetchRange(chain, fails, from, last) == Err((from, last))
    ensures last - from > 500 ==>
              var mid := from + (last - from) / 2;
              var (left, right) := (FetchRange(chain, fails, from, mid), FetchRange(chain, fails, mid + 1, last));
              FetchRange(chain, fails, from, last) ==
                if left.Err? then left else if right.Err? then right else Ok(left.value + right.value)
  {
  }

  // ----- filtering and ordering -----

  function Filter<E>(wanted: E -> bool, es: seq<E>): seq<E> {
    if es == [] then [] else (if wanted(es[0]) then [es[0]] else []) + Filter(wanted, es[1..])
  }

  lemma {:induction false} FilterSpec<E>(wanted: E -> bool, es: seq<E>)
    ensures forall e :: e in Filter(wanted, es) <==> e in es && wanted(e)
    ensures forall i | 0 <= i < |Filter(wanted, es)| :: Filter(wanted, es)[i] in es
  {
    if es != [] {
      FilterSpec(wanted, es[1..]);
      assert es == [es[0]] + es[1..];
      forall i | 0 <= i < |Filter(wanted, es)|
        ensures Filter(wanted, es)[i] in es
      {
        assert Filter(wanted, es)[i] in Filter(wanted, es);
      }
    }
  }

  /** The comparator of the sorts: by block, then by log index. */
  predicate NotAfter<F, U>(a: Event<F, U>, b: Event<F, U>) {
    a.block < b.block || (a.block == b.block && a.index <= b.index)
  }

  function InsertEvent<F, U>(e: Event<F, U>, es: seq<Event<F, U>>): seq<Event<F, U>> {
    if es == [] || !NotAfter(es[0], e) then [e] + es else [es[0]] + InsertEvent(e, es[1..])
  }

  /** A stable sort. */
  function SortEvents<F, U>(es: seq<Event<F, U>>): seq<Event<F, U>> {
    if es == [] then [] else InsertEvent(es[|es| - 1], SortEvents(es[..|es| - 1]))
  }

  ghost predicate InOrder<F, U>(es: seq<Event<F, U>>) {
    forall i, j | 0 <= i < j < |es| :: NotAfter(es[i], es[j])
  }

  /** By block, and within a block by log index. */
  ghost predicate ByPlace<F, U>(es: seq<Event<F, U>>) {
    forall i, j | 0 <= i < j < |es| ::
      es[i].block <= es[j].block && (es[i].block == es[j].block ==> es[i].index <= es[j].index)
  }

  lemma InOrderIsByPlace<F, U>(es: seq<Event<F, U>>)
    ensures InOrder(es) <==> ByPlace(es)
  {
    forall i, j | 0 <= i < j < |es|
      ensures NotAfter(es[i], es[j]) <==>
                es[i].block <= es[j].block && (es[i].block == es[j].block ==> es[i].index <= es[j].index)
    {
    }
  }

  lemma {:induction false} InsertEventKeeps<F, U>(e: Event<F, U>, es: seq<Event<F, U>>)
    ensures multiset(InsertEvent(e, es)) == multiset{e} + multiset(es)
  {
    if es != [] && NotAfter(es[0], e) {
      InsertEventKeeps(e, es[1..]);
      assert es == [es[0]] + es[1..];
    }
  }

  lemma {:induction false} InsertEventInOrder<F, U>(e: Event<F, U>, es: seq<Event<F, U>>)
    requires InOrder(es)
    ensures InOrder(InsertEvent(e, es))
  {
    if es != [] && NotAfter(es[0], e) {
      InsertEventInOrder(e, es[1..]);
      InsertEventKeeps(e, es[1..]);
      FirstStaysFirst(es[0], e, es[1..], InsertEvent(e, es[1..]));
    } else if es != [] {
      assert forall i | 0 < i < |es| :: NotAfter(es[0], es[i]);
    }
  }

  lemma FirstStaysFirst<F, U>(first: Event<F, U>, e: Event<F, U>, es: seq<Event<F, U>>, rest: seq<Event<F, U>>)
    requires NotAfter(first, e) && forall i | 0 <= i < |es| :: NotAfter(first, es[i])
    requires multiset(rest) == multiset{e} + multiset(es)
    ensures forall i | 0 <= i < |rest| :: NotAfter(first, rest[i])
  {
    forall i | 0 <= i < |rest|
      ensures NotAfter(first, rest[i])
    {
      assert rest[i] in multiset(rest);
      if rest[i] != e {
        assert rest[i] in es;
      }
    }
  }

  /** The sort orders the events and neither loses nor adds any. */
  lemma {:induction false} SortEventsSpec<F, U>(es: seq<Event<F, U>>)
    ensures InOrder(SortEvents(es)) && multiset(SortEvents(es)) == multiset(es)
  {
    if es != [] {
      var init, last := es[..|es| - 1], es[|es| - 1];
      SortEventsSpec(init);
      InsertEventKeeps(last, SortEvents(init));
      InsertEventInOrder(last, SortEvents(init));
      assert es == init + [last];
    }
  }

  lemma {:induction false} InsertLast<F, U>(es: seq<Event<F, U>>, e: Event<F, U>)
    requires forall i | 0 <= i < |es| :: NotAfter(es[i], e)
    ensures InsertEvent(e, es) == es + [e]
  {
    if es != [] {
      InsertLast(es[1..], e);
    }
  }

  lemma {:induction false} SortInOrder<F, U>(es: seq<Event<F, U>>)
    requires InOrder(es)
    ensures SortEvents(es) == es
  {
    if es != [] {
      SortInOrder(es[..|es| - 1]);
      InsertLast(es[..|es| - 1], es[|es| - 1]);
    }
  }

  /** fetchJobEvents and fetchReputationEvents, apart from the shape of the event. */
  function FetchEvents<F, U>(
    chain: int -> seq<Event<F, U>>, wanted: Event<F, U> -> bool, fails: Range -> bool, from: int, last: int)
    : Result<seq<Event<F, U>>, Range>
  {
    if from > last then Ok([])
    else
      match FetchRange(chain, fails, from, last)
      case Err(r) => Err(r)
      case Ok(es) => Ok(SortEvents(Filter(wanted, es)))
  }

  /** A node's logs: each block lists its own events by ascending log index. */
  ghost predicate NodeOrder<F, U>(chain: int -> seq<Event<F, U>>) {
    forall b, i | 0 <= i < |chain(b)| :: BlockOrder(chain(b), b, i)
  }

  ghost predicate BlockOrder<F, U>(es: seq<Event<F, U>>, b: int, i: nat)
    requires i < |es|
  {
    es[i].block == b && forall j | i < j < |es| :: es[i].index <= es[j].index
  }

  lemma {:induction false} EventsInOrder<F, U>(chain: int -> seq<Event<F, U>>, from: int, last: int)
    requires NodeOrder(chain)
    ensures InOrder(EventsIn(chain, from, last))
    ensures forall i | 0 <= i < |EventsIn(chain, from, last)| :: from <= EventsIn(chain, from, last)[i].block <= last
    decreases last - from
  {
    if from <= last {
      EventsInOrder(chain, from + 1, last);
      var here := chain(from);
      forall i | 0 <= i < |here|
        ensures here[i].block == from && forall j | i < j < |here| :: here[i].index <= here[j].index
      {
        assert BlockOrder(chain(from), from, i);
      }
    }
  }

  lemma {:induction false} FilterInOrder<F, U>(wanted: Event<F, U> -> bool, es: seq<Event<F, U>>)
    requires InOrder(es)
    ensures InOrder(Filter(wanted, es))
  {
    if es != [] {
      FilterInOrder(wanted, es[1..]);
      FilterSpec(wanted, es[1..]);
      var rest := Filter(wanted, es[1..]);
      forall i | 0 <= i < |rest|
        ensures NotAfter(es[0], rest[i])
      {
        assert rest[i] in es[1..];
        var k :| 0 <= k < |es[1..]| && es[1..][k] == rest[i];
        assert NotAfter(es[0], es[k + 1]);
      }
    }
  }

  /** Whatever order the node lists its events in, a fetch that returns has the wanted ones of the range, each as often, by place. */
  lemma FetchedInAnyOrder<F, U>(
    chain: int -> seq<Event<F, U>>, wanted: Event<F, U> -> bool, fails: Range -> bool, from: int, last: int)
    requires FetchEvents(chain, wanted, fails, from, last).Ok?
    ensures var es := FetchEvents(chain, wanted, fails, from, last).value;
            ByPlace(es) && multiset(es) == multiset(Filter(wanted, EventsIn(chain, from, last)))
  {
    if from <= last {
      FetchIsWhole(chain, fails, from, last);
      SortEventsSpec(Filter(wanted, EventsIn(chain, from, last)));
    }
    InOrderIsByPlace(FetchEvents(chain, wanted, fails, from, last).value);
  }

  /** A fetch that returns has exactly the wanted events of the range, by block and log index. */
  lemma FetchedEvents<F, U>(
    chain: int -> seq<Event<F, U>>, wanted: Event<F, U> -> bool, fails: Range -> bool, from: int, last: int)
    requires NodeOrder(chain) && FetchEvents(chain, wanted, fails, from, last).Ok?
    ensures var es := FetchEvents(chain, wanted, fails, from, last).value;
            es == Filter(wanted, EventsIn(chain, from, last)) && ByPlace(es)
  {
    InOrderIsByPlace(FetchEvents(chain, wanted, fails, from, last).value);
    if from <= last {
      FetchIsWhole(chain, fails, from, last);
      EventsInOrder(chain, from, last);
      FilterInOrder(wanted, EventsIn(chain, from, last));
      SortInOrder(Filter(wanted, EventsIn(chain, from, last)));
    }
  }

  // ----- the cursor arithmetic -----

  /** The last block of a cycle: at most so many blocks on, and not past the latest. */
  lemma ToBlockMeaning(from: int, latest: int, maxRange: int)
    ensures var until := CalculateToBlock(from, latest, maxRange);
            until <= latest && until - from + 1 <= maxRange && (until == latest || until - from + 1 == maxRange)
  {
  }

  function CalculateToBlock(from: int, latest: int, maxRange: int): int {
    var maxTo := from + maxRange - 1;
    if maxTo < latest then maxTo else latest
  }
}
