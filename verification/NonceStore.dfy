/**
 Replay protection: the timed nonce store together with the timestamp check of signed requests.

 Times are milliseconds. checkAndMark reads the clock twice, once to check and once to mark; a request reads it once
 more before, when its timestamp is validated. Readings never decrease.
 */
module NonceStore {

  type Time = int

  datatype NonceEntry = NonceEntry(nonce: string, runnerId: string, expiresAt: Time)

  type Store = map<string, NonceEntry>

  function BuildKey(nonce: string, runnerId: string): string {
    runnerId + ":" + nonce
  }

  /** A key that is refused at time t. */
  predicate Live(s: Store, key: string, t: Time) {
    key in s && s[key].expiresAt > t
  }

  function Marked(s: Store, nonce: string, runnerId: string, expiresAt: Time): Store {
    s[BuildKey(nonce, runnerId) := NonceEntry(nonce, runnerId, expiresAt)]
  }

  function Swept(s: Store, now: Time): Store {
    map key | key in s && s[key].expiresAt > now :: s[key]
  }

  // ----- the store -----

  class NonceStore {
    var store: Store
    const ttlMs: int

    constructor (ttlMs: int)
      ensures store == map[] && this.ttlMs == ttlMs
    {
      store := map[];
      this.ttlMs := ttlMs;
    }

    /** True when the nonce was new and is now marked; false stands for the replay error. */
    method CheckAndMark(nonce: string, runnerId: string, checkTime: Time, markTime: Time) returns (isNew: bool)
      modifies this
      ensures isNew == !Live(old(store), BuildKey(nonce, runnerId), checkTime)
      ensures store == if isNew then Marked(old(store), nonce, runnerId, markTime + ttlMs) else old(store)
    {
      var key := BuildKey(nonce, runnerId);
      if key in store && store[key].expiresAt > checkTime {
        return false;
      }
      store := store[key := NonceEntry(nonce, runnerId, markTime + ttlMs)];
      return true;
    }

    method Has(nonce: string, runnerId: string, now: Time) returns (r: bool)
      ensures r == Live(store, BuildKey(nonce, runnerId), now)
    {
      var key := BuildKey(nonce, runnerId);
      r := key in store && store[key].expiresAt > now;
    }

    /** Deletes expired entries while going through the keys in any order. */
    method Cleanup(now: Time)
      modifies this
      ensures store == Swept(old(store), now)
    {
      var keys := store.Keys;
      while keys != {}
        invariant keys <= old(store).Keys
        invariant forall k :: k in store <==> k in old(store) && (k in keys || old(store)[k].expiresAt > now)
        invariant forall k | k in store :: store[k] == old(store)[k]
        decreases |keys|
      {
        var key :| key in keys;
        keys := keys - {key};
        if store[key].expiresAt <= now {
          store := store - {key};
        }
      }
    }
  }

  // ----- runs of the store -----

  datatype Step =
    | Mark(nonce: string, runnerId: string, checkTime: Time, markTime: Time)
    | Ask(nonce: string, runnerId: string, now: Time)
    | Clean(now: Time)

  function After(s: Store, step: Step, ttl: int): Store {
    match step
    case Mark(nonce, runnerId, checkTime, markTime) =>
      if Live(s, BuildKey(nonce, runnerId), checkTime) then s else Marked(s, nonce, runnerId, markTime + ttl)
    case Ask(_, _, _) => s
    case Clean(now) => Swept(s, now)
  }

  /** What the step answers; cleanup answers nothing. */
  function Answer(s: Store, step: Step): seq<bool> {
    match step
    case Mark(nonce, runnerId, checkTime, _) => [!Live(s, BuildKey(nonce, runnerId), checkTime)]
    case Ask(nonce, runnerId, now) => [Live(s, BuildKey(nonce, runnerId), now)]
    case Clean(_) => []
  }

  function Answers(s: Store, steps: seq<Step>, ttl: int): seq<bool>
    decreases |steps|
  {
    if steps == [] then [] else Answer(s, steps[0]) + Answers(After(s, steps[0], ttl), steps[1..], ttl)
  }

  function Start(step: Step): Time {
    if step.Mark? then step.checkTime else step.now
  }

  function End(step: Step): Time {
    if step.Mark? then step.markTime else step.now
  }

  /** Clock readings from `from` on never decrease. */
  predicate Timed(from: Time, steps: seq<Step>)
    decreases |steps|
  {
    steps == [] || (from <= Start(steps[0]) <= End(steps[0]) && Timed(End(steps[0]), steps[1..]))
  }

  function WithoutCleanup(steps: seq<Step>): seq<Step> {
    if steps == [] then [] else (if steps[0].Clean? then [] else [steps[0]]) + WithoutCleanup(steps[1..])
  }

  /** From now on the two stores refuse the same keys. */
  ghost predicate Alike(a: Store, b: Store, now: Time) {
    forall key, t | t >= now :: Live(a, key, t) <==> Live(b, key, t)
  }

  lemma SweepIsAlike(a: Store, b: Store, now: Time, later: Time)
    requires Alike(a, b, now) && now <= later
    ensures Alike(Swept(a, later), b, later)
  {
    forall key, t | t >= later
      ensures Live(Swept(a, later), key, t) <==> Live(b, key, t)
    {
      assert Live(a, key, t) <==> Live(b, key, t);
    }
  }

  /** Cleanup at any points of a run, however often, changes no answer of has or checkAndMark. */
  lemma {:induction false} CleanupIsTransparent(a: Store, b: Store, now: Time, steps: seq<Step>, ttl: int)
    requires Alike(a, b, now) && Timed(now, steps)
    ensures Answers(a, steps, ttl) == Answers(b, WithoutCleanup(steps), ttl)
    decreases |steps|
  {
    if steps != [] {
      var step := steps[0];
      var a' := After(a, step, ttl);
      if step.Clean? {
        SweepIsAlike(a, b, now, step.now);
        assert WithoutCleanup(steps) == WithoutCleanup(steps[1..]);
        CleanupIsTransparent(a', b, step.now, steps[1..], ttl);
      } else {
        var b' := After(b, step, ttl);
        assert Alike(a', b', End(step)) by {
          forall key, t | t >= End(step)
            ensures Live(a', key, t) <==> Live(b', key, t)
          {
            assert Live(a, key, t) <==> Live(b, key, t);
          }
        }
        CleanupIsTransparent(a', b', End(step), steps[1..], ttl);
        assert WithoutCleanup(steps)[1..] == WithoutCleanup(steps[1..]);
      }
    }
  }

  // ----- signed requests -----

  /** A signed request as it arrives: its timestamp, nonce and the three clock readings of its verification. */
  datatype Request = Request(timestamp: Time, nonce: string, signed: bool, seen: Time, checked: Time, marked: Time)

  datatype Event = Arrives(request: Request) | Sweeps(now: Time)

  function Abs(x: int): nat {
    if x < 0 then -x else x
  }

  const RUNNER: string := "runner"

  /** validateTimestamp, then the signature, then the nonce. */
  predicate Accepts(s: Store, r: Request, skew: int) {
    Abs(r.seen - r.timestamp) <= skew && r.signed && !Live(s, BuildKey(r.nonce, RUNNER), r.checked)
  }

  function Handle(s: Store, e: Event, skew: int, ttl: int): Store {
    match e
    case Sweeps(now) => Swept(s, now)
    case Arrives(r) => if Accepts(s, r, skew) then Marked(s, r.nonce, RUNNER, r.marked + ttl) else s
  }

  function HandleAll(s: Store, es: seq<Event>, skew: int, ttl: int): Store
    decreases |es|
  {
    if es == [] then s else HandleAll(Handle(s, es[0], skew, ttl), es[1..], skew, ttl)
  }

  /** Readings do not decrease within and between events, and verifying a request takes at most lag up to the check. */
  predicate Clocked(from: Time, es: seq<Event>, lag: nat)
    decreases |es|
  {
    es == [] ||
    match es[0]
    case Sweeps(now) => from <= now && Clocked(now, es[1..], lag)
    case Arrives(r) => from <= r.seen <= r.checked <= r.marked && r.checked - r.seen <= lag && Clocked(r.marked, es[1..], lag)
  }

  /** Event k is a request that is accepted. */
  predicate AcceptedAt(s: Store, es: seq<Event>, k: nat, skew: int, ttl: int) {
    k < |es| && es[k].Arrives? && Accepts(HandleAll(s, es[..k], skew, ttl), es[k].request, skew)
  }

  /** The request of an event arrives after the readings before it. */
  lemma {:induction false} LaterReadings(from: Time, es: seq<Event>, k: nat, lag: nat)
    requires Clocked(from, es, lag) && k < |es| && es[k].Arrives?
    ensures from <= es[k].request.seen <= es[k].request.checked <= es[k].request.seen + lag
    decreases k
  {
    if k > 0 {
      LaterReadings(if es[0].Sweeps? then es[0].now else es[0].request.marked, es[1..], k - 1, lag);
    }
  }

  /** A key that is refused at the time of event k stays marked until then. */
  lemma {:induction false} StaysLive(
    s: Store, from: Time, es: seq<Event>, k: nat, key: string, skew: int, ttl: int, lag: nat)
    requires Clocked(from, es, lag) && k < |es| && es[k].Arrives? && Live(s, key, es[k].request.checked)
    ensures Live(HandleAll(s, es[..k], skew, ttl), key, es[k].request.checked)
    decreases k
  {
    if k > 0 {
      var next := if es[0].Sweeps? then es[0].now else es[0].request.marked;
      LaterReadings(next, es[1..], k - 1, lag);
      assert es[..k][1..] == es[1..][..k - 1];
      StaysLive(Handle(s, es[0], skew, ttl), next, es[1..], k - 1, key, skew, ttl, lag);
    }
  }

  /** After an accepted event the same nonce is refused at event j, as long as its mark has not expired there. */
  lemma {:induction false} RefusedAfter(s: Store, from: Time, es: seq<Event>, i: nat, j: nat, skew: int, ttl: int, lag: nat)
    requires Clocked(from, es, lag) && i < j < |es| && es[j].Arrives? && AcceptedAt(s, es, i, skew, ttl)
    requires es[i].request.nonce == es[j].request.nonce && es[j].request.checked < es[i].request.marked + ttl
    ensures !AcceptedAt(s, es, j, skew, ttl) && from <= es[i].request.seen && es[i].request.marked <= es[j].request.seen
    decreases i
  {
    var next := if es[0].Sweeps? then es[0].now else es[0].request.marked;
    var s' := Handle(s, es[0], skew, ttl);
    assert es[..j][1..] == es[1..][..j - 1];
    if i == 0 {
      assert es[..0] == [];
      LaterReadings(next, es[1..], j - 1, lag);
      StaysLive(s', next, es[1..], j - 1, BuildKey(es[j].request.nonce, RUNNER), skew, ttl, lag);
    } else {
      assert es[..i][1..] == es[1..][..i - 1];
      LaterReadings(next, es[1..], i - 1, lag);
      RefusedAfter(s', next, es[1..], i - 1, j - 1, skew, ttl, lag);
    }
  }

  // ----- what is accepted -----

  /** The store holds the pair of the runner and this nonce, marked until after t. */
  predicate Remembers(s: Store, nonce: string, t: Time) {
    "runner:" + nonce in s && s["runner:" + nonce].expiresAt > t
  }

  /** checkAndMark answers that a nonce is new exactly when it is not remembered, and then remembers it for its life. */
  lemma MarkMeaning(s: Store, nonce: string, checkTime: Time, markTime: Time, ttl: int)
    ensures var step := Mark(nonce, RUNNER, checkTime, markTime);
            && Answer(s, step) == [!Remembers(s, nonce, checkTime)]
            && (Remembers(s, nonce, checkTime) ==> After(s, step, ttl) == s)
            && (!Remembers(s, nonce, checkTime) ==>
                  forall t :: Remembers(After(s, step, ttl), nonce, t) <==> t < markTime + ttl)
  {
    assert BuildKey(nonce, RUNNER) == "runner:" + nonce;
  }

  /** Asking changes nothing; a sweep keeps exactly what is still remembered. */
  lemma AskAndCleanMeaning(s: Store, nonce: string, now: Time, ttl: int)
    ensures Answer(s, Ask(nonce, RUNNER, now)) == [Remembers(s, nonce, now)] && After(s, Ask(nonce, RUNNER, now), ttl) == s
    ensures forall key :: key in After(s, Clean(now), ttl) <==> key in s && now < s[key].expiresAt
    ensures forall key | key in After(s, Clean(now), ttl) :: After(s, Clean(now), ttl)[key] == s[key]
  {
    assert BuildKey(nonce, RUNNER) == "runner:" + nonce;
  }

  /**
   A request is accepted exactly when it is signed, its timestamp is at most the skew before or after its arrival, and its
   nonce is not remembered. Then its nonce is remembered until the life after its mark; a refused one changes nothing.
   */
  lemma AcceptedIff(s: Store, r: Request, skew: int, ttl: int)
    ensures var s' := Handle(s, Arrives(r), skew, ttl);
            if r.signed && r.timestamp - skew <= r.seen <= r.timestamp + skew && !Remembers(s, r.nonce, r.checked) then
              && Accepts(s, r, skew)
              && (forall t :: Remembers(s', r.nonce, t) <==> t < r.marked + ttl)
              && forall other, t | other != r.nonce :: Remembers(s', other, t) <==> Remembers(s, other, t)
            else !Accepts(s, r, skew) && s' == s
  {
    assert BuildKey(r.nonce, RUNNER) == "runner:" + r.nonce;
    forall other | other != r.nonce
      ensures "runner:" + other != "runner:" + r.nonce
    {
      assert ("runner:" + other)[7..] == other && ("runner:" + r.nonce)[7..] == r.nonce;
    }
  }

  // ----- main results -----

  /**
   A signed request is accepted at most once in a whole run if the nonce lives longer than the skew, plus how far ahead
   of the clock its timestamp was when first accepted, plus the time between the two checks. A timestamp is never
   further ahead than the skew, so a nonce life above 2 * skew + lag always suffices.
   */
  lemma ReplayIsRefused(s: Store, from: Time, es: seq<Event>, i: nat, j: nat, skew: nat, ttl: int, lag: nat)
    requires Clocked(from, es, lag)
    requires AcceptedAt(s, es, i, skew, ttl) && AcceptedAt(s, es, j, skew, ttl)
    requires es[i].request.nonce == es[j].request.nonce && es[i].request.timestamp == es[j].request.timestamp
    requires i <= j && ttl > skew + Ahead(es[i].request) + lag
    ensures i == j
  {
    if i < j {
      LaterReadings(from, es, i, lag);
      LaterReadings(from, es, j, lag);
      ReadingsInOrder(from, es, i, lag);
      assert es[j].request.checked <= es[j].request.timestamp + skew + lag;
      RefusedAfter(s, from, es, i, j, skew, ttl, lag);
    }
  }

  /** How far the timestamp lies ahead of the clock on arrival. */
  function Ahead(r: Request): nat {
    if r.timestamp > r.seen then r.timestamp - r.seen else 0
  }

  lemma {:induction false} ReadingsInOrder(from: Time, es: seq<Event>, k: nat, lag: nat)
    requires Clocked(from, es, lag) && k < |es| && es[k].Arrives?
    ensures es[k].request.seen <= es[k].request.marked
    decreases k
  {
    if k > 0 {
      ReadingsInOrder(if es[0].Sweeps? then es[0].now else es[0].request.marked, es[1..], k - 1, lag);
    }
  }

  /** Some request is accepted twice in some run. */
  ghost predicate ReplayPossible(skew: nat, ttl: int, lag: nat) {
    exists from: Time, es: seq<Event>, i: nat, j: nat ::
      && Clocked(from, es, lag) && i < j
      && AcceptedAt(map[], es, i, skew, ttl) && AcceptedAt(map[], es, j, skew, ttl)
      && es[i].request.nonce == es[j].request.nonce && es[i].request.timestamp == es[j].request.timestamp
  }

  /** The bound is exact. */
  lemma ReplayBound(skew: nat, ttl: int, lag: nat)
    ensures ReplayPossible(skew, ttl, lag) <==> ttl <= 2 * skew + lag
  {
    if ReplayPossible(skew, ttl, lag) && ttl > 2 * skew + lag {
      var from: Time, es: seq<Event>, i: nat, j: nat :|
        && Clocked(from, es, lag) && i < j
        && AcceptedAt(map[], es, i, skew, ttl) && AcceptedAt(map[], es, j, skew, ttl)
        && es[i].request.nonce == es[j].request.nonce && es[i].request.timestamp == es[j].request.timestamp;
      ReplayIsRefused(map[], from, es, i, j, skew, ttl, lag);
    }
    if ttl <= 2 * skew + lag {
      ReplayWitness(skew, ttl, lag);
    }
  }

  /** A request dated one skew ahead, seen at once and again two skews later. */
  lemma ReplayWitness(skew: nat, ttl: int, lag: nat)
    requires ttl <= 2 * skew + lag
    ensures ReplayPossible(skew, ttl, lag)
  {
    var first := Request(skew, "n", true, 0, 0, 0);
    var second := Request(skew, "n", true, 2 * skew, 2 * skew + lag, 2 * skew + lag);
    var es := [Arrives(first), Arrives(second)];
    var one := es[..1];
    assert es[..0] == [] && one == [Arrives(first)] && one[1..] == [] && es[1..] == [Arrives(second)];
    assert es[1..][1..] == [];
    assert HandleAll(map[], one, skew, ttl) == Handle(map[], Arrives(first), skew, ttl);
    assert AcceptedAt(map[], es, 0, skew, ttl);
    assert AcceptedAt(map[], es, 1, skew, ttl);
    assert Clocked(0, es, lag);
  }
}
