/** secrets/caching.py: a cache in front of a secret store. */
module SecretCache {
  // One fetch at a time for each secret; whoever asks meanwhile waits for it.

  import opened Prelude

  type Key = (string, string)

  datatype Entry = Entry(expiry: real, value: string)

  /** A future: waiters that are cancelled while it is pending cancel it. */
  datatype Future = Pending | Set(result: Result<string, string>) | CancelledFuture

  /** How a call of `get` ends. */
  datatype Outcome = Returned(value: string) | Raised(error: string) | Cancelled | InvalidState

  /** The fields of the store; a future is named by its place among all futures made. */
  datatype Store = Store(cache: map<Key, Entry>, inflight: map<Key, nat>, futures: seq<Future>)

  datatype Decision = Hit(value: string) | Own(flight: nat) | Join(flight: nat)

  const EMPTY := Store(map[], map[], [])

  function OutcomeOf(r: Result<string, string>): Outcome {
    match r
    case Ok(v) => Returned(v)
    case Err(e) => Raised(e)
  }

  // ---------------------------------------------------------------- the sections between two awaits

  /** A live entry. */
  function Cached(s: Store, k: Key, now: real): Option<string> {
    if k in s.cache && s.cache[k].expiry > now then Some(s.cache[k].value) else None
  }

  /** The first section under the lock. */
  function LookUp(s: Store, k: Key, now: real): (Store, Decision) {
    if Cached(s, k, now).Some? then (s, Hit(Cached(s, k, now).value))
    else if k in s.inflight then (s, Join(s.inflight[k]))
    else
      var f := |s.futures|;
      (s.(inflight := s.inflight[k := f], futures := s.futures + [Pending]), Own(f))
  }

  /** The second section: a value is cached, an error is not; a cancelled future cannot be set. */
  function Publish(s: Store, k: Key, f: nat, r: Result<string, string>, ttl: real, now: real): (Store, Outcome)
    requires f < |s.futures|
  {
    var s1 := if r.Ok? then s.(cache := s.cache[k := Entry(now + ttl, r.value)]) else s;
    var s2 := s1.(inflight := s1.inflight - {k});
    if s.futures[f] == Pending then (s2.(futures := s2.futures[f := Set(r)]), OutcomeOf(r)) else (s2, InvalidState)
  }

  function Invalidated(s: Store, k: Key): Store {
    s.(cache := s.cache - {k})
  }

  // ---------------------------------------------------------------- the class

  class CachingSecretStore {
    const ttl: real
    var cache: map<Key, Entry>
    var inflight: map<Key, nat>
    var futures: seq<Future>

    ghost function Value(): Store
      reads this
    {
      Store(cache, inflight, futures)
    }

    constructor (ttl: real)
      ensures this.ttl == ttl && Value() == EMPTY
    {
      this.ttl := ttl;
      cache, inflight, futures := map[], map[], [];
    }

    /** `get` up to its first await. */
    method FastPath(key: Key, now: real) returns (r: Option<string>)
      ensures r == Cached(Value(), key, now)
    {
      if key in cache {
        var entry := cache[key];
        if entry.expiry > now {
          return Some(entry.value);
        }
      }
      return None;
    }

    /** The first section under the lock. */
    method Enter(key: Key, now: real) returns (d: Decision)
      modifies this
      ensures (Value(), d) == LookUp(old(Value()), key, now)
    {
      var live := FastPath(key, now);
      if live.Some? {
        return Hit(live.value);
      }
      if key in inflight {
        return Join(inflight[key]);
      }
      var fut := |futures|;
      futures := futures + [Pending];
      inflight := inflight[key := fut];
      return Own(fut);
    }

    method Settle(fut: nat, r: Result<string, string>) returns (out: Outcome)
      requires fut < |futures|
      modifies this`futures
      ensures futures == if old(futures)[fut] == Pending then old(futures)[fut := Set(r)] else old(futures)
      ensures out == if old(futures)[fut] == Pending then OutcomeOf(r) else InvalidState
    {
      if futures[fut] != Pending {
        return InvalidState;
      }
      futures := futures[fut := Set(r)];
      out := OutcomeOf(r);
    }

    /** The second section under the lock, after the inner store answered or raised. */
    method Leave(key: Key, fut: nat, r: Result<string, string>, now: real) returns (out: Outcome)
      requires fut < |futures|
      modifies this
      ensures (Value(), out) == Publish(old(Value()), key, fut, r, ttl, now)
    {
      if r.Ok? {
        cache := cache[key := Entry(now + ttl, r.value)];
      }
      inflight := inflight - {key};
      out := Settle(fut, r);
    }

    method Invalidate(key: Key)
      modifies this
      ensures Value() == Invalidated(old(Value()), key)
    {
      cache := cache - {key};
    }
  }

  // ---------------------------------------------------------------- any number of calls

  /** One fetch from the inner store, from the section that started it to the one that published it. */
  datatype Flight = Flight(key: Key, owner: nat, fetched: Option<Result<string, string>>, fetchedAt: real,
                           published: bool, publishedAt: real)

  /** How a finished call came by its outcome: from the cache, or from the flight it owned or joined. */
  datatype Via = FromCache | FromFlight

  datatype Phase =
    | Queued
    | Fetching(flight: nat)
    | Publishing(flight: nat)
    | Waiting(flight: nat)
    | Done(outcome: Outcome, via: Via, flight: nat, at: real)
    | Dropped

  datatype Call = Call(key: Key, phase: Phase)

  /** The system: the store, its flights (one for each future), who wrote each cache entry, and the calls. */
  datatype World = World(now: real, store: Store, flights: seq<Flight>, source: map<Key, nat>, calls: map<nat, Call>,
                         nextId: nat)

  const START := World(0.0, EMPTY, [], map[], map[], 0)

  /** `Fetched` also covers an owner that is cancelled: the code catches every exception. */
  datatype Event =
    | Begin(key: Key)
    | Enter(id: nat)
    | Fetched(id: nat, result: Result<string, string>)
    | Leave(id: nat)
    | Wake(id: nat)
    | CancelWaiter(id: nat)
    | Invalidate(key: Key)
    | Tick(elapsed: real)

  // An event that names no call in the phase it needs changes nothing. The tests on `source` and on lengths below only
  // make the steps total: they hold in every reachable world.

  function SetPhase(w: World, id: nat, phase: Phase): World
    requires id in w.calls
  {
    w.(calls := w.calls[id := w.calls[id].(phase := phase)])
  }

  function OnBegin(w: World, k: Key): World {
    var hit := Cached(w.store, k, w.now);
    var phase := if hit.Some? && k in w.source then Done(Returned(hit.value), FromCache, w.source[k], w.now)
      else Queued;
    w.(calls := w.calls[w.nextId := Call(k, phase)], nextId := w.nextId + 1)
  }

  function OnEnter(w: World, id: nat): World {
    if id !in w.calls || !w.calls[id].phase.Queued? then w
    else
      var k := w.calls[id].key;
      var (s, d) := LookUp(w.store, k, w.now);
      match d
      case Hit(v) =>
        if k in w.source then SetPhase(w, id, Done(Returned(v), FromCache, w.source[k], w.now)) else w
      case Join(f) => SetPhase(w, id, Waiting(f))
      case Own(f) =>
        SetPhase(w.(store := s, flights := w.flights + [Flight(k, id, None, 0.0, false, 0.0)]), id, Fetching(f))
  }

  function OnFetched(w: World, id: nat, r: Result<string, string>): World {
    if id !in w.calls || !w.calls[id].phase.Fetching? || w.calls[id].phase.flight >= |w.flights| then w
    else
      var f := w.calls[id].phase.flight;
      SetPhase(w.(flights := w.flights[f := w.flights[f].(fetched := Some(r), fetchedAt := w.now)]), id, Publishing(f))
  }

  function OnLeave(w: World, ttl: real, id: nat): World {
    if id !in w.calls || !w.calls[id].phase.Publishing? || w.calls[id].phase.flight >= |w.flights|
       || w.calls[id].phase.flight >= |w.store.futures| || w.flights[w.calls[id].phase.flight].fetched.None?
    then w
    else
      var k, f := w.calls[id].key, w.calls[id].phase.flight;
      var r := w.flights[f].fetched.value;
      var (s, out) := Publish(w.store, k, f, r, ttl, w.now);
      SetPhase(w.(store := s, flights := w.flights[f := w.flights[f].(published := true, publishedAt := w.now)],
                  source := if r.Ok? then w.source[k := f] else w.source),
               id, Done(out, FromFlight, f, w.now))
  }

  /** A waiter resumes once its future is resolved. */
  function OnWake(w: World, id: nat): World {
    if id !in w.calls || !w.calls[id].phase.Waiting? || w.calls[id].phase.flight >= |w.store.futures| then w
    else
      var f := w.calls[id].phase.flight;
      match w.store.futures[f]
      case Pending => w
      case Set(r) => SetPhase(w, id, Done(OutcomeOf(r), FromFlight, f, w.now))
      case CancelledFuture => SetPhase(w, id, Done(Cancelled, FromFlight, f, w.now))
  }

  /** Cancelling a task that awaits a future cancels the future, unless it is resolved already. */
  function OnCancelWaiter(w: World, id: nat): World {
    if id !in w.calls || !w.calls[id].phase.Waiting? || w.calls[id].phase.flight >= |w.store.futures| then w
    else
      var f := w.calls[id].phase.flight;
      var w1 := if w.store.futures[f] == Pending
                then w.(store := w.store.(futures := w.store.futures[f := CancelledFuture])) else w;
      SetPhase(w1, id, Dropped)
  }

  function OnInvalidate(w: World, k: Key): World {
    w.(store := Invalidated(w.store, k), source := w.source - {k})
  }

  function Step(w: World, ttl: real, e: Event): World {
    match e
    case Begin(k) => OnBegin(w, k)
    case Enter(id) => OnEnter(w, id)
    case Fetched(id, r) => OnFetched(w, id, r)
    case Leave(id) => OnLeave(w, ttl, id)
    case Wake(id) => OnWake(w, id)
    case CancelWaiter(id) => OnCancelWaiter(w, id)
    case Invalidate(k) => OnInvalidate(w, k)
    case Tick(d) => if d >= 0.0 then w.(now := w.now + d) else w
  }

  function After(w: World, ttl: real, es: seq<Event>): World {
    if es == [] then w else Step(After(w, ttl, es[..|es| - 1]), ttl, es[|es| - 1])
  }

  // ---------------------------------------------------------------- what every step keeps

  /** The store's futures and the flights are the same list. */
  ghost predicate FlightInv(w: World, f: nat)
    requires f < |w.flights| && f < |w.store.futures|
  {
    var x := w.flights[f];
    && (x.published ==> x.fetched.Some? && x.fetchedAt <= x.publishedAt <= w.now)
    && (x.fetched.Some? ==> x.fetchedAt <= w.now)
    && (w.store.futures[f] == Pending ==> !x.published)
    && (w.store.futures[f].Set? ==> x.published && x.fetched == Some(w.store.futures[f].result))
    && (!x.published ==> x.key in w.store.inflight && w.store.inflight[x.key] == f
                         && x.owner in w.calls && w.calls[x.owner].key == x.key
                         && w.calls[x.owner].phase == if x.fetched.None? then Fetching(f) else Publishing(f))
  }

  ghost predicate InflightInv(w: World, k: Key)
    requires k in w.store.inflight
  {
    var f := w.store.inflight[k];
    f < |w.flights| && w.flights[f].key == k && !w.flights[f].published
  }

  ghost predicate CacheInv(w: World, ttl: real, k: Key)
    requires k in w.store.cache && k in w.source
  {
    var f, entry := w.source[k], w.store.cache[k];
    && f < |w.flights| && w.flights[f].key == k && w.flights[f].published
    && w.flights[f].fetched == Some(Ok(entry.value)) && entry.expiry == w.flights[f].publishedAt + ttl
  }

  /** What a finished call was told, and by which fetch. */
  ghost predicate DoneInv(w: World, ttl: real, c: Call)
    requires c.phase.Done?
  {
    var f := c.phase.flight;
    && f < |w.flights| && w.flights[f].key == c.key && c.phase.at <= w.now
    && (c.phase.via == FromCache ==>
          && w.flights[f].published && c.phase.outcome.Returned?
          && w.flights[f].fetched == Some(Ok(c.phase.outcome.value))
          && w.flights[f].publishedAt <= c.phase.at < w.flights[f].publishedAt + ttl)
    && (c.phase.via == FromFlight ==>
          && f < |w.store.futures| && w.store.futures[f] != Pending
          && if w.store.futures[f].Set? then c.phase.outcome == OutcomeOf(w.store.futures[f].result)
             else c.phase.outcome == Cancelled || c.phase.outcome == InvalidState)
  }

  /** What a call of `key` in this phase may rely on. */
  ghost predicate PhaseInv(w: World, ttl: real, id: nat, key: Key, phase: Phase) {
    match phase
    case Queued => true
    case Fetching(f) => f < |w.flights| && w.flights[f].key == key && w.flights[f].owner == id
                        && !w.flights[f].published && w.flights[f].fetched.None?
    case Publishing(f) => f < |w.flights| && w.flights[f].key == key && w.flights[f].owner == id
                          && !w.flights[f].published && w.flights[f].fetched.Some?
    case Waiting(f) => f < |w.flights| && w.flights[f].key == key
    case Done(_, _, _, _) => DoneInv(w, ttl, Call(key, phase))
    case Dropped => true
  }

  ghost predicate CallInv(w: World, ttl: real, id: nat)
    requires id in w.calls
  {
    PhaseInv(w, ttl, id, w.calls[id].key, w.calls[id].phase)
  }

  ghost predicate Inv(w: World, ttl: real) {
    && |w.store.futures| == |w.flights|
    && w.source.Keys == w.store.cache.Keys
    && (forall id :: id in w.calls ==> id < w.nextId)
    && (forall f: nat :: f < |w.flights| ==> FlightInv(w, f))
    && (forall k :: k in w.store.inflight ==> InflightInv(w, k))
    && (forall k :: k in w.store.cache ==> CacheInv(w, ttl, k))
    && (forall id :: id in w.calls ==> CallInv(w, ttl, id))
  }

  /** Time passed, cache entries went, one call came or moved on: nothing else tells `w'` from `w`. */
  ghost predicate Framed(w: World, w': World, id: nat) {
    && w'.flights == w.flights && w'.store.futures == w.store.futures && w'.store.inflight == w.store.inflight
    && w.now <= w'.now && w.nextId <= w'.nextId
    && w'.source.Keys == w'.store.cache.Keys <= w.store.cache.Keys * w.source.Keys
    && (forall k :: k in w'.store.cache ==> w'.store.cache[k] == w.store.cache[k] && w'.source[k] == w.source[k])
    && (forall i :: i != id ==> (i in w'.calls <==> i in w.calls) && (i in w.calls ==> w'.calls[i] == w.calls[i]))
    && (id in w.calls ==> !w.calls[id].phase.Fetching? && !w.calls[id].phase.Publishing?)
    && (id in w'.calls ==> id < w'.nextId)
  }

  lemma FrameKeeps(w: World, w': World, ttl: real, id: nat)
    requires Inv(w, ttl) && Framed(w, w', id)
    requires id in w'.calls ==> PhaseInv(w, ttl, id, w'.calls[id].key, w'.calls[id].phase)
    ensures Inv(w', ttl)
  {
    forall f: nat | f < |w'.flights|
      ensures FlightInv(w', f)
    {
      hide Inv, CacheInv, InflightInv, DoneInv;
      assert FlightInv(w, f);
    }
    forall k | k in w'.store.inflight
      ensures InflightInv(w', k)
    {
      hide Inv, CacheInv, CallInv, DoneInv;
      assert InflightInv(w, k);
    }
    forall k | k in w'.store.cache
      ensures CacheInv(w', ttl, k)
    {
      hide Inv, InflightInv, DoneInv;
      assert CacheInv(w, ttl, k);
    }
    forall i | i in w'.calls
      ensures CallInv(w', ttl, i)
    {
      hide Inv, InflightInv, CacheInv, FlightInv;
      assert i != id ==> CallInv(w, ttl, i);
    }
  }

  /** A call that owns no open flight may move on. */
  lemma PhaseKeeps(w: World, ttl: real, id: nat, phase: Phase)
    requires Inv(w, ttl) && id in w.calls && !w.calls[id].phase.Fetching? && !w.calls[id].phase.Publishing?
    requires PhaseInv(w, ttl, id, w.calls[id].key, phase)
    ensures Inv(SetPhase(w, id, phase), ttl)
  {
    hide FlightInv, InflightInv, CacheInv, CallInv, PhaseInv;
    FrameKeeps(w, SetPhase(w, id, phase), ttl, id);
  }

  lemma CachedComesFromSource(w: World, ttl: real, id: nat, k: Key)
    requires Inv(w, ttl) && Cached(w.store, k, w.now).Some?
    ensures k in w.source
    ensures PhaseInv(w, ttl, id, k, Done(Returned(Cached(w.store, k, w.now).value), FromCache, w.source[k], w.now))
  {
    assert CacheInv(w, ttl, k) && FlightInv(w, w.source[k]);
  }

  lemma BeginKeeps(w: World, ttl: real, k: Key)
    requires Inv(w, ttl)
    ensures Inv(OnBegin(w, k), ttl)
  {
    hide FlightInv, InflightInv, CacheInv, CallInv, DoneInv;
    if Cached(w.store, k, w.now).Some? {
      CachedComesFromSource(w, ttl, w.nextId, k);
    }
    FrameKeeps(w, OnBegin(w, k), ttl, w.nextId);
  }

  lemma OwnKeepsFlights(w: World, ttl: real, id: nat, k: Key)
    requires Inv(w, ttl) && id in w.calls && w.calls[id] == Call(k, Queued)
    requires Cached(w.store, k, w.now).None? && k !in w.store.inflight
    ensures var w' := OnEnter(w, id); |w'.store.futures| == |w'.flights| == |w.flights| + 1
    ensures forall f: nat :: f <= |w.flights| ==> FlightInv(OnEnter(w, id), f)
  {
    var w' := OnEnter(w, id);
    forall f: nat | f < |w'.flights|
      ensures FlightInv(w', f)
    {
      hide Inv, CacheInv, InflightInv, DoneInv;
      if f < |w.flights| {
        assert FlightInv(w, f);
      }
    }
  }

  lemma OwnKeepsCalls(w: World, ttl: real, id: nat, k: Key)
    requires Inv(w, ttl) && id in w.calls && w.calls[id] == Call(k, Queued)
    requires Cached(w.store, k, w.now).None? && k !in w.store.inflight
    ensures var w' := OnEnter(w, id); forall i :: i in w'.calls ==> CallInv(w', ttl, i)
  {
    hide FlightInv;
    var w' := OnEnter(w, id);
    forall i | i in w'.calls
      ensures CallInv(w', ttl, i)
    {
      hide Inv, InflightInv, CacheInv;
      assert CallInv(w, ttl, i);
    }
  }

  lemma OwnKeeps(w: World, ttl: real, id: nat, k: Key)
    requires Inv(w, ttl) && id in w.calls && w.calls[id] == Call(k, Queued)
    requires Cached(w.store, k, w.now).None? && k !in w.store.inflight
    ensures Inv(OnEnter(w, id), ttl)
  {
    hide FlightInv, CallInv;
    var w' := OnEnter(w, id);
    OwnKeepsFlights(w, ttl, id, k);
    OwnKeepsCalls(w, ttl, id, k);
    forall k | k in w'.store.inflight
      ensures InflightInv(w', k)
    {
      hide Inv, CacheInv;
      assert k in w.store.inflight ==> InflightInv(w, k);
    }
    forall k | k in w'.store.cache
      ensures CacheInv(w', ttl, k)
    {
      hide Inv, InflightInv;
      assert CacheInv(w, ttl, k);
    }
  }

  lemma EnterKeeps(w: World, ttl: real, id: nat)
    requires Inv(w, ttl)
    ensures Inv(OnEnter(w, id), ttl)
  {
    hide FlightInv, CacheInv, CallInv, DoneInv;
    if id in w.calls && w.calls[id].phase.Queued? {
      var k := w.calls[id].key;
      match LookUp(w.store, k, w.now).1
      case Hit(v) =>
        CachedComesFromSource(w, ttl, id, k);
        PhaseKeeps(w, ttl, id, Done(Returned(v), FromCache, w.source[k], w.now));
      case Join(f) =>
        assert InflightInv(w, k);
        PhaseKeeps(w, ttl, id, Waiting(f));
      case Own(f) =>
        OwnKeeps(w, ttl, id, k);
    }
  }

  lemma FetchedKeepsFlights(w: World, ttl: real, id: nat, r: Result<string, string>)
    requires Inv(w, ttl) && id in w.calls && CallInv(w, ttl, id)
    ensures forall f: nat :: f < |w.flights| ==> FlightInv(OnFetched(w, id, r), f)
  {
    var w' := OnFetched(w, id, r);
    forall f: nat | f < |w'.flights|
      ensures FlightInv(w', f)
    {
      hide Inv, CacheInv, InflightInv, DoneInv;
      assert FlightInv(w, f);
    }
  }

  lemma FetchedKeepsCalls(w: World, ttl: real, id: nat, r: Result<string, string>)
    requires Inv(w, ttl) && id in w.calls && CallInv(w, ttl, id)
    ensures var w' := OnFetched(w, id, r); forall i :: i in w'.calls ==> CallInv(w', ttl, i)
  {
    var w' := OnFetched(w, id, r);
    forall i | i in w'.calls
      ensures CallInv(w', ttl, i)
    {
      hide Inv, InflightInv, CacheInv, FlightInv;
      assert CallInv(w, ttl, i);
    }
  }

  lemma FetchedKeepsEntry(w: World, ttl: real, id: nat, r: Result<string, string>, k: Key)
    requires k in w.store.cache && k in w.source && CacheInv(w, ttl, k) && (id in w.calls ==> CallInv(w, ttl, id))
    ensures CacheInv(OnFetched(w, id, r), ttl, k)
  {
    hide DoneInv;
  }

  lemma FetchedKeeps(w: World, ttl: real, id: nat, r: Result<string, string>)
    requires Inv(w, ttl)
    ensures Inv(OnFetched(w, id, r), ttl)
  {
    hide FlightInv, CallInv;
    var w' := OnFetched(w, id, r);
    if id in w.calls {
      FetchedKeepsFlights(w, ttl, id, r);
      FetchedKeepsCalls(w, ttl, id, r);
    }
    forall k | k in w'.store.inflight
      ensures InflightInv(w', k)
    {
      hide Inv, CacheInv;
      assert InflightInv(w, k);
    }
    forall k | k in w'.store.cache
      ensures CacheInv(w', ttl, k)
    {
      hide Inv, InflightInv;
      FetchedKeepsEntry(w, ttl, id, r, k);
    }
  }

  /** The flight a publishing call owns. */
  ghost predicate Landing(w: World, id: nat, f: nat) {
    && id in w.calls && w.calls[id].phase == Publishing(f) && f < |w.flights| && f < |w.store.futures|
    && w.flights[f].key == w.calls[id].key && w.flights[f].owner == id && w.flights[f].fetched.Some?
    && !w.flights[f].published && w.store.futures[f] != Set(w.flights[f].fetched.value)
    && w.calls[id].key in w.store.inflight && w.store.inflight[w.calls[id].key] == f
  }

  lemma PublishingLands(w: World, ttl: real, id: nat, f: nat)
    requires Inv(w, ttl) && id in w.calls && w.calls[id].phase == Publishing(f)
    ensures Landing(w, id, f) && FlightInv(w, f)
  {
    assert CallInv(w, ttl, id) && FlightInv(w, f);
  }

  lemma LeaveKeepsFlights(w: World, ttl: real, id: nat, f: nat)
    requires Inv(w, ttl) && Landing(w, id, f) && FlightInv(w, f)
    ensures var w' := OnLeave(w, ttl, id); |w'.store.futures| == |w'.flights| == |w.flights|
    ensures forall i: nat :: i < |w.flights| ==> FlightInv(OnLeave(w, ttl, id), i)
  {
    var w' := OnLeave(w, ttl, id);
    forall f: nat | f < |w'.flights|
      ensures FlightInv(w', f)
    {
      hide Inv, CacheInv, InflightInv, DoneInv;
      if f < |w.flights| {
        assert FlightInv(w, f);
      }
    }
  }

  lemma LeaveKeepsInflight(w: World, ttl: real, id: nat, f: nat)
    requires Inv(w, ttl) && Landing(w, id, f)
    ensures var w' := OnLeave(w, ttl, id); forall k :: k in w'.store.inflight ==> InflightInv(w', k)
  {
    var w' := OnLeave(w, ttl, id);
    forall k | k in w'.store.inflight
      ensures InflightInv(w', k)
    {
      hide Inv, FlightInv, CacheInv, CallInv;
      assert k != w.calls[id].key && InflightInv(w, k);
    }
  }

  lemma LeaveKeepsEntry(w: World, ttl: real, id: nat, f: nat, k: Key)
    requires Landing(w, id, f) && k in OnLeave(w, ttl, id).store.cache
    requires k in w.store.cache ==> k in w.source && CacheInv(w, ttl, k)
    ensures k in OnLeave(w, ttl, id).source && CacheInv(OnLeave(w, ttl, id), ttl, k)
  {
  }

  lemma LeaveKeepsCache(w: World, ttl: real, id: nat, f: nat)
    requires Inv(w, ttl) && Landing(w, id, f)
    ensures var w' := OnLeave(w, ttl, id);
            w'.source.Keys == w'.store.cache.Keys && forall k :: k in w'.store.cache ==> CacheInv(w', ttl, k)
  {
    hide FlightInv, CallInv, InflightInv, CacheInv;
    var w' := OnLeave(w, ttl, id);
    assert w'.source.Keys == w'.store.cache.Keys;
    forall k | k in w'.store.cache
      ensures CacheInv(w', ttl, k)
    {
      hide OnLeave;
      LeaveKeepsEntry(w, ttl, id, f, k);
    }
  }

  lemma LeaveKeepsCalls(w: World, ttl: real, id: nat, f: nat)
    requires Inv(w, ttl) && Landing(w, id, f) && FlightInv(w, f)
    ensures var w' := OnLeave(w, ttl, id); forall i :: i in w'.calls ==> i < w'.nextId && CallInv(w', ttl, i)
  {
    var w' := OnLeave(w, ttl, id);
    forall i | i in w'.calls
      ensures CallInv(w', ttl, i)
    {
      hide Inv, InflightInv, CacheInv;
      if i in w.calls {
        assert CallInv(w, ttl, i);
      }
    }
  }

  lemma LeaveKeeps(w: World, ttl: real, id: nat)
    requires Inv(w, ttl)
    ensures Inv(OnLeave(w, ttl, id), ttl)
  {
    hide FlightInv, InflightInv, CacheInv, CallInv;
    if id in w.calls && w.calls[id].phase.Publishing? {
      var f := w.calls[id].phase.flight;
      PublishingLands(w, ttl, id, f);
      LeaveKeepsFlights(w, ttl, id, f);
      LeaveKeepsInflight(w, ttl, id, f);
      LeaveKeepsCache(w, ttl, id, f);
      LeaveKeepsCalls(w, ttl, id, f);
    }
  }

  lemma WakeKeeps(w: World, ttl: real, id: nat)
    requires Inv(w, ttl)
    ensures Inv(OnWake(w, id), ttl)
  {
    hide FlightInv, InflightInv, CacheInv;
    if id in w.calls && w.calls[id].phase.Waiting? {
      var f := w.calls[id].phase.flight;
      assert CallInv(w, ttl, id);
      match w.store.futures[f]
      case Pending =>
      case Set(r) => PhaseKeeps(w, ttl, id, Done(OutcomeOf(r), FromFlight, f, w.now));
      case CancelledFuture => PhaseKeeps(w, ttl, id, Done(Cancelled, FromFlight, f, w.now));
    }
  }

  lemma CancelFutureKeeps(w: World, ttl: real, f: nat)
    requires Inv(w, ttl) && f < |w.store.futures| && w.store.futures[f] == Pending
    ensures Inv(w.(store := w.store.(futures := w.store.futures[f := CancelledFuture])), ttl)
  {
    var w' := w.(store := w.store.(futures := w.store.futures[f := CancelledFuture]));
    forall f: nat | f < |w'.flights|
      ensures FlightInv(w', f)
    {
      hide Inv, CacheInv, InflightInv, DoneInv;
      if f < |w.flights| {
        assert FlightInv(w, f);
      }
    }
    forall k | k in w'.store.inflight
      ensures InflightInv(w', k)
    {
      hide Inv, CacheInv, CallInv, DoneInv;
      if k in w.store.inflight {
        assert InflightInv(w, k);
      }
    }
    forall k | k in w'.store.cache
      ensures CacheInv(w', ttl, k)
    {
      hide Inv, InflightInv, DoneInv;
      if k in w.store.cache {
        assert CacheInv(w, ttl, k);
      }
    }
    forall i | i in w'.calls
      ensures CallInv(w', ttl, i)
    {
      hide Inv, InflightInv, CacheInv, FlightInv;
      if i in w.calls {
        assert CallInv(w, ttl, i);
      }
    }
  }

  lemma CancelKeeps(w: World, ttl: real, id: nat)
    requires Inv(w, ttl)
    ensures Inv(OnCancelWaiter(w, id), ttl)
  {
    hide Inv, PhaseInv;
    if id in w.calls && w.calls[id].phase.Waiting? && w.calls[id].phase.flight < |w.store.futures| {
      var f := w.calls[id].phase.flight;
      NothingToRelyOn(w, ttl, id);
      if w.store.futures[f] == Pending {
        CancelFutureKeeps(w, ttl, f);
        var w1 := w.(store := w.store.(futures := w.store.futures[f := CancelledFuture]));
        NothingToRelyOn(w1, ttl, id);
        PhaseKeeps(w1, ttl, id, Dropped);
      } else {
        PhaseKeeps(w, ttl, id, Dropped);
      }
    }
  }

  lemma NothingToRelyOn(w: World, ttl: real, id: nat)
    requires id in w.calls
    ensures PhaseInv(w, ttl, id, w.calls[id].key, Dropped)
  {
  }

  lemma InvalidateKeeps(w: World, ttl: real, k: Key)
    requires Inv(w, ttl)
    ensures Inv(OnInvalidate(w, k), ttl)
  {
    hide FlightInv, InflightInv, CacheInv, CallInv;
    FrameKeeps(w, OnInvalidate(w, k), ttl, w.nextId);
  }

  lemma TickKeeps(w: World, ttl: real, d: real)
    requires Inv(w, ttl) && d >= 0.0
    ensures Inv(w.(now := w.now + d), ttl)
  {
    hide FlightInv, InflightInv, CacheInv, CallInv;
    FrameKeeps(w, w.(now := w.now + d), ttl, w.nextId);
  }

  lemma StepKeeps(w: World, ttl: real, e: Event)
    requires Inv(w, ttl)
    ensures Inv(Step(w, ttl, e), ttl)
  {
    hide Inv, OnBegin, OnEnter, OnFetched, OnLeave, OnWake, OnCancelWaiter, OnInvalidate;
    match e
    case Begin(k) => BeginKeeps(w, ttl, k);
    case Enter(id) => EnterKeeps(w, ttl, id);
    case Fetched(id, r) => FetchedKeeps(w, ttl, id, r);
    case Leave(id) => LeaveKeeps(w, ttl, id);
    case Wake(id) => WakeKeeps(w, ttl, id);
    case CancelWaiter(id) => CancelKeeps(w, ttl, id);
    case Invalidate(k) => InvalidateKeeps(w, ttl, k);
    case Tick(d) => if d >= 0.0 { TickKeeps(w, ttl, d); }
  }

  lemma {:induction false} RunKeeps(w: World, ttl: real, es: seq<Event>)
    requires Inv(w, ttl)
    ensures Inv(After(w, ttl, es), ttl)
  {
    if es != [] {
      RunKeeps(w, ttl, es[..|es| - 1]);
      StepKeeps(After(w, ttl, es[..|es| - 1]), ttl, es[|es| - 1]);
    }
  }

  lemma Reachable(ttl: real, es: seq<Event>)
    ensures Inv(After(START, ttl, es), ttl)
  {
    RunKeeps(START, ttl, es);
  }

  // ---------------------------------------------------------------- single flight

  /** Between its two sections under the lock. */
  predicate InFlight(c: Call) {
    c.phase.Fetching? || c.phase.Publishing?
  }

  predicate Fetches(w: World, i: nat, k: Key) {
    i in w.calls && w.calls[i].key == k && InFlight(w.calls[i])
  }

  /** A secret is in `_inflight` exactly while a call is fetching it, and never two calls fetch the same secret. */
  lemma SingleFlight(ttl: real, es: seq<Event>, k: Key)
    ensures var w := After(START, ttl, es);
            && (k in w.store.inflight <==> exists i :: Fetches(w, i, k))
            && (forall i, j :: Fetches(w, i, k) && Fetches(w, j, k) ==> i == j)
  {
    var w := After(START, ttl, es);
    Reachable(ttl, es);
    if k in w.store.inflight {
      var f := w.store.inflight[k];
      assert InflightInv(w, k) && FlightInv(w, f);
      assert Fetches(w, w.flights[f].owner, k);
    }
    forall i | Fetches(w, i, k)
      ensures k in w.store.inflight && w.flights[w.store.inflight[k]].owner == i
    {
      assert CallInv(w, ttl, i) && FlightInv(w, w.calls[i].phase.flight);
    }
  }

  /** The event publishes a value of the secret: the flight it comes from. */
  function Stores(w: World, e: Event, k: Key): Option<nat> {
    if e.Leave? && e.id in w.calls && w.calls[e.id].key == k && w.calls[e.id].phase.Publishing?
       && w.calls[e.id].phase.flight < |w.flights|
       && w.flights[w.calls[e.id].phase.flight].fetched.Some? && w.flights[w.calls[e.id].phase.flight].fetched.value.Ok?
    then Some(w.calls[e.id].phase.flight) else None
  }

  /** The flight that published the secret's latest value, if no invalidation came after it. */
  function LatestStored(ttl: real, es: seq<Event>, k: Key): Option<nat> {
    if es == [] then None
    else
      var front, e := es[..|es| - 1], es[|es| - 1];
      var stored := Stores(After(START, ttl, front), e, k);
      if e == Invalidate(k) then None else if stored.Some? then stored else LatestStored(ttl, front, k)
  }

  lemma StepStores(w: World, ttl: real, e: Event, k: Key)
    requires Inv(w, ttl)
    ensures At(Step(w, ttl, e).source, k)
         == if e == Invalidate(k) then None
            else if Stores(w, e, k).Some? then Stores(w, e, k) else At(w.source, k)
  {
    hide FlightInv, CacheInv, CallInv, InflightInv;
  }

  function At(source: map<Key, nat>, k: Key): Option<nat> {
    if k in source then Some(source[k]) else None
  }

  lemma {:induction false} SourceIsLatest(ttl: real, es: seq<Event>, k: Key)
    ensures At(After(START, ttl, es).source, k) == LatestStored(ttl, es, k)
  {
    hide Step, Stores, Inv;
    if es != [] {
      SourceIsLatest(ttl, es[..|es| - 1], k);
      Reachable(ttl, es[..|es| - 1]);
      StepStores(After(START, ttl, es[..|es| - 1]), ttl, es[|es| - 1], k);
    }
  }

  /** What a look at the cache gives: the value of that flight, until `ttl` after it was published. */
  ghost predicate Gives(w: World, ttl: real, stored: Option<nat>, v: string) {
    && stored.Some? && stored.value < |w.flights| && w.flights[stored.value].fetched == Some(Ok(v))
    && w.now < w.flights[stored.value].publishedAt + ttl
  }

  /** A fetch of the secret that is under way. */
  predicate UnderWay(w: World, k: Key, g: nat) {
    g < |w.flights| && w.flights[g].key == k && !w.flights[g].published
  }

  lemma CachedIsGiven(w: World, ttl: real, k: Key, v: string)
    requires Inv(w, ttl)
    ensures Cached(w.store, k, w.now) == Some(v) <==> Gives(w, ttl, At(w.source, k), v)
  {
    hide FlightInv, CallInv, InflightInv;
    assert k in w.store.cache ==> CacheInv(w, ttl, k);
  }

  lemma InflightIsUnderWay(w: World, ttl: real, k: Key, g: nat)
    requires Inv(w, ttl)
    ensures k in w.store.inflight && w.store.inflight[k] == g <==> UnderWay(w, k, g)
  {
    hide CallInv, CacheInv;
    assert k in w.store.inflight ==> InflightInv(w, k);
    assert g < |w.flights| ==> FlightInv(w, g);
  }

  lemma EnterLooks(w: World, ttl: real, i: nat)
    requires Inv(w, ttl) && i in w.calls && w.calls[i].phase.Queued?
    ensures var k, phase := w.calls[i].key, OnEnter(w, i).calls[i].phase;
            var cached := Cached(w.store, k, w.now);
            if cached.Some? then At(w.source, k).Some?
                                 && phase == Done(Returned(cached.value), FromCache, At(w.source, k).value, w.now)
            else phase == if k in w.store.inflight then Waiting(w.store.inflight[k]) else Fetching(|w.flights|)
  {
    hide FlightInv, CallInv, InflightInv;
    if Cached(w.store, w.calls[i].key, w.now).Some? {
      CachedComesFromSource(w, ttl, i, w.calls[i].key);
    }
  }

  /** Over every run: a call that gets the lock is served from the cache exactly while the latest value published is
      younger than `ttl` and not invalidated; otherwise it waits for the fetch that is under way, if there is one, and
      fetches itself only if there is none. */
  lemma FetchesOnlyWhenNeeded(ttl: real, es: seq<Event>, i: nat)
    requires i in After(START, ttl, es).calls && After(START, ttl, es).calls[i].phase.Queued?
    ensures var w, k := After(START, ttl, es), After(START, ttl, es).calls[i].key;
            var stored, phase := LatestStored(ttl, es, k), OnEnter(w, i).calls[i].phase;
            && (forall v :: Gives(w, ttl, stored, v) ==> phase == Done(Returned(v), FromCache, stored.value, w.now))
            && ((forall v :: !Gives(w, ttl, stored, v)) ==>
                  && (forall g: nat :: UnderWay(w, k, g) ==> phase == Waiting(g))
                  && ((forall g: nat :: !UnderWay(w, k, g)) ==> phase == Fetching(|w.flights|)))
  {
    hide After, Inv, OnEnter, Gives, UnderWay, Cached, LatestStored;
    var w, k := After(START, ttl, es), After(START, ttl, es).calls[i].key;
    Reachable(ttl, es);
    SourceIsLatest(ttl, es, k);
    EnterLooks(w, ttl, i);
    forall v
      ensures Cached(w.store, k, w.now) == Some(v) <==> Gives(w, ttl, LatestStored(ttl, es, k), v)
    {
      CachedIsGiven(w, ttl, k, v);
    }
    forall g: nat
      ensures k in w.store.inflight && w.store.inflight[k] == g <==> UnderWay(w, k, g)
    {
      InflightIsUnderWay(w, ttl, k, g);
    }
    if k in w.store.inflight {
      assert UnderWay(w, k, w.store.inflight[k]);
    }
    if Cached(w.store, k, w.now).Some? {
      assert Gives(w, ttl, LatestStored(ttl, es, k), Cached(w.store, k, w.now).value);
    }
  }

  /** A call that begins is served at once under the same condition, and has to get the lock otherwise. */
  lemma BeginsWithTheCache(ttl: real, es: seq<Event>, k: Key)
    ensures var w, stored := After(START, ttl, es), LatestStored(ttl, es, k);
            var phase := OnBegin(w, k).calls[w.nextId].phase;
            && (forall v :: Gives(w, ttl, stored, v) ==> phase == Done(Returned(v), FromCache, stored.value, w.now))
            && ((forall v :: !Gives(w, ttl, stored, v)) ==> phase == Queued)
  {
    hide After, Inv, Gives, LatestStored;
    var w := After(START, ttl, es);
    Reachable(ttl, es);
    SourceIsLatest(ttl, es, k);
    forall v
      ensures Cached(w.store, k, w.now) == Some(v) <==> Gives(w, ttl, LatestStored(ttl, es, k), v)
    {
      CachedIsGiven(w, ttl, k, v);
    }
    if Cached(w.store, k, w.now).Some? {
      CachedComesFromSource(w, ttl, w.nextId, k);
    }
  }

  /** A call that waits does so for a call that is still fetching, or has only to wake up. */
  lemma NobodyWaitsForNothing(ttl: real, es: seq<Event>, i: nat)
    requires i in After(START, ttl, es).calls && After(START, ttl, es).calls[i].phase.Waiting?
    ensures var w := After(START, ttl, es);
            var f := w.calls[i].phase.flight;
            && f < |w.store.futures| && f < |w.flights|
            && (w.store.futures[f] == Pending ==>
                  w.flights[f].owner in w.calls && InFlight(w.calls[w.flights[f].owner])
                  && w.calls[w.flights[f].owner].phase.flight == f)
            && (w.store.futures[f] != Pending ==> OnWake(w, i).calls[i].phase.Done?)
  {
    var w := After(START, ttl, es);
    Reachable(ttl, es);
    assert CallInv(w, ttl, i) && FlightInv(w, w.calls[i].phase.flight);
  }

  lemma CachedWasFetched(w: World, ttl: real, k: Key)
    requires Inv(w, ttl) && k in w.store.cache
    ensures exists f: nat :: f < |w.flights| && w.flights[f].key == k && w.flights[f].published
                             && w.flights[f].fetched == Some(Ok(w.store.cache[k].value))
  {
    hide CallInv, FlightInv, InflightInv;
    assert CacheInv(w, ttl, k);
    var f: nat := w.source[k];
    assert w.flights[f].published;
  }

  lemma ServedWasFresh(w: World, ttl: real, i: nat)
    requires Inv(w, ttl) && i in w.calls && w.calls[i].phase.Done? && w.calls[i].phase.via == FromCache
    ensures var x, f := w.calls[i].phase, w.calls[i].phase.flight;
            && f < |w.flights| && w.flights[f].key == w.calls[i].key
            && x.outcome.Returned? && w.flights[f].fetched == Some(Ok(x.outcome.value))
            && w.flights[f].fetchedAt <= w.flights[f].publishedAt <= x.at < w.flights[f].publishedAt + ttl
  {
    hide CacheInv, InflightInv;
    assert CallInv(w, ttl, i);
    assert FlightInv(w, w.calls[i].phase.flight);
  }

  /** What the cache holds was fetched, never raised; what it serves was stored less than `ttl` ago. */
  lemma CacheServesFreshFetches(ttl: real, es: seq<Event>)
    ensures var w := After(START, ttl, es);
            && (forall k :: k in w.store.cache ==>
                  exists f: nat :: f < |w.flights| && w.flights[f].key == k && w.flights[f].published
                                   && w.flights[f].fetched == Some(Ok(w.store.cache[k].value)))
            && (forall i :: i in w.calls && w.calls[i].phase.Done? && w.calls[i].phase.via == FromCache ==>
                  var x, f := w.calls[i].phase, w.calls[i].phase.flight;
                  && f < |w.flights| && w.flights[f].key == w.calls[i].key
                  && x.outcome.Returned? && w.flights[f].fetched == Some(Ok(x.outcome.value))
                  && w.flights[f].fetchedAt <= w.flights[f].publishedAt <= x.at < w.flights[f].publishedAt + ttl)
  {
    hide After, Inv;
    var w := After(START, ttl, es);
    Reachable(ttl, es);
    forall k | k in w.store.cache
      ensures exists f: nat :: f < |w.flights| && w.flights[f].key == k && w.flights[f].published
                               && w.flights[f].fetched == Some(Ok(w.store.cache[k].value))
    {
      CachedWasFetched(w, ttl, k);
    }
    forall i | i in w.calls && w.calls[i].phase.Done? && w.calls[i].phase.via == FromCache
      ensures var x, f := w.calls[i].phase, w.calls[i].phase.flight;
              && f < |w.flights| && w.flights[f].key == w.calls[i].key
              && x.outcome.Returned? && w.flights[f].fetched == Some(Ok(x.outcome.value))
              && w.flights[f].fetchedAt <= w.flights[f].publishedAt <= x.at < w.flights[f].publishedAt + ttl
    {
      ServedWasFresh(w, ttl, i);
    }
  }

  /** Every call that a flight answers, its owner too, hears what the fetch answered or raised, exactly unless a waiter
      of that flight was cancelled while the fetch ran. */
  lemma EveryoneHearsTheFetch(ttl: real, es: seq<Event>, i: nat)
    requires var w := After(START, ttl, es);
             i in w.calls && w.calls[i].phase.Done? && w.calls[i].phase.via == FromFlight
    ensures var w := After(START, ttl, es);
            var f := w.calls[i].phase.flight;
            && f < |w.flights| && f < |w.store.futures| && w.flights[f].key == w.calls[i].key
            && ((w.flights[f].fetched.Some? && w.calls[i].phase.outcome == OutcomeOf(w.flights[f].fetched.value))
                <==> w.store.futures[f] != CancelledFuture)
  {
    var w := After(START, ttl, es);
    Reachable(ttl, es);
    assert CallInv(w, ttl, i) && FlightInv(w, w.calls[i].phase.flight);
  }

  predicate NoneCancelled(s: Store) {
    forall f :: 0 <= f < |s.futures| ==> s.futures[f] != CancelledFuture
  }

  lemma OnlyWaitersCancel(w: World, ttl: real, e: Event)
    requires NoneCancelled(w.store) && !e.CancelWaiter?
    ensures NoneCancelled(Step(w, ttl, e).store)
  {
  }

  lemma {:induction false} OnlyWaitersCancelFutures(ttl: real, es: seq<Event>)
    requires forall e :: e in es ==> !e.CancelWaiter?
    ensures NoneCancelled(After(START, ttl, es).store)
  {
    hide Step;
    if es != [] {
      OnlyWaitersCancelFutures(ttl, es[..|es| - 1]);
      OnlyWaitersCancel(After(START, ttl, es[..|es| - 1]), ttl, es[|es| - 1]);
    }
  }

  /** Without cancelled waiters nobody misses the answer. */
  lemma WithoutCancellation(ttl: real, es: seq<Event>, i: nat)
    requires forall e :: e in es ==> !e.CancelWaiter?
    requires var w := After(START, ttl, es);
             i in w.calls && w.calls[i].phase.Done? && w.calls[i].phase.via == FromFlight
    ensures var w := After(START, ttl, es);
            var f := w.calls[i].phase.flight;
            f < |w.flights| && w.flights[f].fetched.Some?
            && w.calls[i].phase.outcome == OutcomeOf(w.flights[f].fetched.value)
  {
    hide After;
    EveryoneHearsTheFetch(ttl, es, i);
    OnlyWaitersCancelFutures(ttl, es);
  }

  /** Call 0 fetches, calls 1 and 2 wait for it. */
  ghost predicate TwoWaiters(w: World, k: Key) {
    && w.calls == map[0 := Call(k, Fetching(0)), 1 := Call(k, Waiting(0)), 2 := Call(k, Waiting(0))]
    && w.store == Store(map[], map[k := 0], [Pending])
    && w.flights == [Flight(k, 0, None, 0.0, false, 0.0)] && w.now == 0.0
  }

  lemma ThreeBegin(k: Key)
    ensures var w1 := Step(Step(Step(START, 1.0, Begin(k)), 1.0, Begin(k)), 1.0, Begin(k));
            && w1.calls == map[0 := Call(k, Queued), 1 := Call(k, Queued), 2 := Call(k, Queued)]
            && w1.store == EMPTY && w1.flights == [] && w1.now == 0.0
  {
  }

  lemma TwoJoin(w: World, k: Key)
    requires w.calls == map[0 := Call(k, Queued), 1 := Call(k, Queued), 2 := Call(k, Queued)]
    requires w.store == EMPTY && w.flights == [] && w.now == 0.0
    ensures TwoWaiters(Step(Step(Step(w, 1.0, Enter(0)), 1.0, Enter(1)), 1.0, Enter(2)), k)
  {
    var w1 := Step(w, 1.0, Enter(0));
    assert w1.calls[0].phase == Fetching(0) && w1.store == Store(map[], map[k := 0], [Pending]);
    var w2 := Step(w1, 1.0, Enter(1));
    assert w2.calls[1].phase == Waiting(0) && w2.store == w1.store;
  }

  lemma OneCancels(w: World, k: Key, v: string)
    requires TwoWaiters(w, k)
    ensures var w' := Step(Step(Step(Step(w, 1.0, CancelWaiter(1)), 1.0, Fetched(0, Ok(v))), 1.0, Leave(0)), 1.0,
                           Wake(2));
            && 0 in w'.calls && w'.calls[0].phase == Done(InvalidState, FromFlight, 0, 0.0)
            && 2 in w'.calls && w'.calls[2].phase == Done(Cancelled, FromFlight, 0, 0.0)
            && Cached(w'.store, k, 0.0) == Some(v)
  {
    var w1 := Step(Step(w, 1.0, CancelWaiter(1)), 1.0, Fetched(0, Ok(v)));
    assert w1.calls[0].phase == Publishing(0) && w1.store.futures == [CancelledFuture];
  }

  /** Cancelling one waiter fails all the others, and the owner too, though the fetch succeeded and is cached. */
  lemma CancellationSpreads(k: Key, v: string)
    ensures var es := [Begin(k), Begin(k), Begin(k), Enter(0), Enter(1), Enter(2),
                       CancelWaiter(1), Fetched(0, Ok(v)), Leave(0), Wake(2)];
            var w := After(START, 1.0, es);
            && 0 in w.calls && w.calls[0].phase == Done(InvalidState, FromFlight, 0, 0.0)
            && 2 in w.calls && w.calls[2].phase == Done(Cancelled, FromFlight, 0, 0.0)
            && Cached(w.store, k, 0.0) == Some(v)
  {
    hide Step, After;
    ThreeBegin(k);
    var w1 := Step(Step(Step(START, 1.0, Begin(k)), 1.0, Begin(k)), 1.0, Begin(k));
    TwoJoin(w1, k);
    OneCancels(Step(Step(Step(w1, 1.0, Enter(0)), 1.0, Enter(1)), 1.0, Enter(2)), k, v);
    AfterTen(START, 1.0, Begin(k), Begin(k), Begin(k), Enter(0), Enter(1), Enter(2),
             CancelWaiter(1), Fetched(0, Ok(v)), Leave(0), Wake(2));
  }

  lemma AfterSnoc(w: World, ttl: real, es: seq<Event>, e: Event)
    ensures After(w, ttl, es + [e]) == Step(After(w, ttl, es), ttl, e)
  {
    assert (es + [e])[..|es|] == es;
  }

  lemma AfterTen(w: World, ttl: real, a: Event, b: Event, c: Event, d: Event, e: Event, f: Event, g: Event, h: Event,
                 i: Event, j: Event)
    ensures After(w, ttl, [a, b, c, d, e, f, g, h, i, j])
         == Step(Step(Step(Step(Step(Step(Step(Step(Step(Step(w, ttl, a), ttl, b), ttl, c), ttl, d), ttl, e),
                                    ttl, f), ttl, g), ttl, h), ttl, i), ttl, j)
  {
    hide Step, After;
    var es := [a, b, c, d, e, f, g, h, i, j];
    AfterStart(w, ttl);
    assert es[..0] == [] && es[..1] == es[..0] + [a] && es[..2] == es[..1] + [b] && es[..3] == es[..2] + [c];
    assert es[..4] == es[..3] + [d] && es[..5] == es[..4] + [e] && es[..6] == es[..5] + [f] && es[..7] == es[..6] + [g];
    assert es[..8] == es[..7] + [h] && es[..9] == es[..8] + [i] && es == es[..9] + [j];
    AfterSnoc(w, ttl, es[..0], a);
    AfterSnoc(w, ttl, es[..1], b);
    AfterSnoc(w, ttl, es[..2], c);
    AfterSnoc(w, ttl, es[..3], d);
    AfterSnoc(w, ttl, es[..4], e);
    AfterSnoc(w, ttl, es[..5], f);
    AfterSnoc(w, ttl, es[..6], g);
    AfterSnoc(w, ttl, es[..7], h);
    AfterSnoc(w, ttl, es[..8], i);
    AfterSnoc(w, ttl, es[..9], j);
  }

  lemma AfterStart(w: World, ttl: real)
    ensures After(w, ttl, []) == w
  {
  }

  // ---------------------------------------------------------------- invalidation

  /** Calls of `k` that began at or after call `m` are answered by flight `n` or a later one. */
  ghost predicate AnsweredAnew(w: World, k: Key, n: nat, m: nat) {
    forall i :: i in w.calls && i >= m && w.calls[i].key == k && w.calls[i].phase.Done? ==> w.calls[i].phase.flight >= n
  }

  /** The reason it stays so: nothing older is in the cache, in flight, or waited for. */
  ghost predicate Renewed(w: World, k: Key, n: nat, m: nat) {
    && n <= |w.flights| && m <= w.nextId
    && (k in w.source ==> w.source[k] >= n)
    && (k in w.store.inflight ==> w.store.inflight[k] >= n)
    && AnsweredAnew(w, k, n, m)
    && (forall i :: i in w.calls && i >= m && w.calls[i].key == k && w.calls[i].phase.Waiting? ==>
          w.calls[i].phase.flight >= n)
  }

  lemma LeaveKeepsRenewed(w: World, ttl: real, id: nat, k: Key, n: nat, m: nat)
    requires Inv(w, ttl) && Renewed(w, k, n, m)
    ensures Renewed(OnLeave(w, ttl, id), k, n, m)
  {
    hide FlightInv, CacheInv, CallInv, InflightInv;
    if id in w.calls && w.calls[id].phase.Publishing? {
      PublishingLands(w, ttl, id, w.calls[id].phase.flight);
    }
  }

  lemma EnterKeepsRenewed(w: World, ttl: real, id: nat, k: Key, n: nat, m: nat)
    requires Inv(w, ttl) && Renewed(w, k, n, m)
    ensures Renewed(OnEnter(w, id), k, n, m)
  {
    hide FlightInv, CacheInv, CallInv, InflightInv;
  }

  lemma StepKeepsRenewed(w: World, ttl: real, e: Event, k: Key, n: nat, m: nat)
    requires Inv(w, ttl) && Renewed(w, k, n, m)
    ensures Renewed(Step(w, ttl, e), k, n, m)
  {
    hide FlightInv, CacheInv, CallInv, InflightInv, OnLeave, OnEnter;
    match e
    case Leave(id) => LeaveKeepsRenewed(w, ttl, id, k, n, m);
    case Enter(id) => EnterKeepsRenewed(w, ttl, id, k, n, m);
    case _ =>
  }

  lemma {:induction false} RunKeepsRenewed(w: World, ttl: real, es: seq<Event>, k: Key, n: nat, m: nat)
    requires Inv(w, ttl) && Renewed(w, k, n, m)
    ensures Renewed(After(w, ttl, es), k, n, m)
  {
    hide Inv, Renewed, Step;
    if es != [] {
      var front := es[..|es| - 1];
      RunKeepsRenewed(w, ttl, front, k, n, m);
      RunKeeps(w, ttl, front);
      StepKeepsRenewed(After(w, ttl, front), ttl, es[|es| - 1], k, n, m);
    }
  }

  /** After an invalidation, does every later call get a value fetched after it? */
  ghost predicate InvalidationHolds(w: World, ttl: real, k: Key) {
    var w0 := OnInvalidate(w, k);
    forall es :: AnsweredAnew(After(w0, ttl, es), k, |w0.flights|, w0.nextId)
  }

  /** The run that shows an old answer: a call joins the flight that was up, and its owner lands. */
  lemma JoinOldFlight(w: World, ttl: real, k: Key) returns (es: seq<Event>)
    requires Inv(w, ttl) && k in w.store.inflight
    ensures var w0 := OnInvalidate(w, k); !AnsweredAnew(After(w0, ttl, es), k, |w0.flights|, w0.nextId)
  {
    var w0 := OnInvalidate(w, k);
    var f, id := w.store.inflight[k], w0.nextId;
    InvalidateKeeps(w, ttl, k);
    assert InflightInv(w0, k) && FlightInv(w0, f);
    var owner := w0.flights[f].owner;
    es := [Begin(k), Enter(id)];
    var w1 := OnBegin(w0, k);
    var w2 := OnEnter(w1, id);
    assert w2.calls[id] == Call(k, Waiting(f)) && w2.calls[owner] == w0.calls[owner];
    AfterSnoc(w0, ttl, [], Begin(k));
    AfterSnoc(w0, ttl, [Begin(k)], Enter(id));
    assert [Begin(k)] + [Enter(id)] == es && [] + [Begin(k)] == [Begin(k)];
    BeginKeeps(w0, ttl, k);
    EnterKeeps(w1, ttl, id);
    es := LandAndWake(w0, ttl, es, w2, k, f, owner, id);
  }

  lemma FetchingMayLand(w: World, ttl: real, owner: nat, f: nat)
    requires Inv(w, ttl) && owner in w.calls && w.calls[owner].phase == Fetching(f)
    ensures f < |w.flights|
  {
    assert CallInv(w, ttl, owner);
  }

  lemma PublishAndWake(w0: World, ttl: real, prefix: seq<Event>, w3: World, k: Key, f: nat, owner: nat, id: nat)
      returns (es: seq<Event>)
    requires After(w0, ttl, prefix) == w3 && Inv(w3, ttl)
    requires id in w3.calls && w3.calls[id] == Call(k, Waiting(f))
    requires owner in w3.calls && w3.calls[owner].phase == Publishing(f)
    ensures var w' := After(w0, ttl, es);
            id in w'.calls && w'.calls[id].key == k && w'.calls[id].phase.Done? && w'.calls[id].phase.flight == f
  {
    hide Inv, InflightInv, CacheInv, FlightInv, DoneInv;
    es := prefix;
    PublishingLands(w3, ttl, owner, f);
    var w4 := OnLeave(w3, ttl, owner);
    AfterSnoc(w0, ttl, es, Leave(owner));
    es := es + [Leave(owner)];
    assert w4.calls[id] == Call(k, Waiting(f)) && f < |w4.store.futures| && w4.store.futures[f] != Pending;
    AfterSnoc(w0, ttl, es, Wake(id));
    es := es + [Wake(id)];
  }

  /** From a world where `id` waits for flight `f`, let its owner finish and wake `id`. */
  lemma LandAndWake(w0: World, ttl: real, prefix: seq<Event>, w2: World, k: Key, f: nat, owner: nat, id: nat)
      returns (es: seq<Event>)
    requires After(w0, ttl, prefix) == w2 && Inv(w2, ttl)
    requires id in w2.calls && w2.calls[id] == Call(k, Waiting(f)) && owner in w2.calls
    requires w2.calls[owner].phase == Fetching(f) || w2.calls[owner].phase == Publishing(f)
    ensures var w' := After(w0, ttl, es);
            id in w'.calls && w'.calls[id].key == k && w'.calls[id].phase.Done? && w'.calls[id].phase.flight == f
  {
    hide Inv, InflightInv, CacheInv, FlightInv, DoneInv;
    es := prefix;
    var w3 := w2;
    if w2.calls[owner].phase == Fetching(f) {
      w3 := OnFetched(w2, owner, Ok(""));
      AfterSnoc(w0, ttl, es, Fetched(owner, Ok("")));
      es := es + [Fetched(owner, Ok(""))];
      FetchingMayLand(w2, ttl, owner, f);
      FetchedKeeps(w2, ttl, owner, Ok(""));
      assert w3.calls[owner].phase == Publishing(f) && w3.calls[id] == w2.calls[id];
    }
    es := PublishAndWake(w0, ttl, es, w3, k, f, owner, id);
  }

  /** An invalidation is final exactly when no fetch of the secret is under way. */
  lemma InvalidationIsFinalIff(w: World, ttl: real, k: Key)
    requires Inv(w, ttl)
    ensures InvalidationHolds(w, ttl, k) <==> k !in w.store.inflight
  {
    var w0 := OnInvalidate(w, k);
    if k in w.store.inflight {
      var es := JoinOldFlight(w, ttl, k);
    } else {
      InvalidateKeeps(w, ttl, k);
      forall es
        ensures AnsweredAnew(After(w0, ttl, es), k, |w0.flights|, w0.nextId)
      {
        StartsRenewed(w, ttl, k);
        RunKeepsRenewed(w0, ttl, es, k, |w0.flights|, w0.nextId);
      }
    }
  }

  lemma StartsRenewed(w: World, ttl: real, k: Key)
    requires Inv(w, ttl) && k !in w.store.inflight
    ensures var w0 := OnInvalidate(w, k); Renewed(w0, k, |w0.flights|, w0.nextId)
  {
    hide FlightInv, CacheInv, CallInv, InflightInv;
  }
}
