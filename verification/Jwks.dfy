/** auth/jwks_cache.py: signing keys, discovered once and refreshed when an unknown key id comes up. */
module Jwks {
  import opened Prelude

  /** The fields; `None` for the last refresh is the source's minus infinity. */
  datatype Cache = Cache(uri: Option<string>, keys: map<string, string>, lastRefresh: Option<real>)

  const EMPTY := Cache(None, map[], None)

  /** What the section between the two awaits of `get_key` decides. */
  datatype Verdict = Known(key: string) | Refresh | Refused

  /** The identity provider's answer: another status keeps the keys, a broken answer raises. */
  datatype Response = Keys(keys: map<string, string>) | OtherStatus | Broken

  function Lookup(c: Cache, kid: string): Option<string> {
    if kid in c.keys then Some(c.keys[kid]) else None
  }

  predicate MayRefresh(c: Cache, now: real, ttl: real) {
    c.lastRefresh.None? || now - c.lastRefresh.value >= ttl
  }

  function Consulted(c: Cache, kid: string, now: real, ttl: real): (Cache, Verdict) {
    if kid in c.keys then (c, Known(c.keys[kid]))
    else if MayRefresh(c, now, ttl) then (c.(lastRefresh := Some(now)), Refresh)
    else (c, Refused)
  }

  function Installed(c: Cache, r: Response): Cache {
    if r.Keys? then c.(keys := r.keys) else c
  }

  class JwksCache {
    const ttl: real
    var uri: Option<string>
    var keys: map<string, string>
    var lastRefreshOnMiss: Option<real>

    ghost function Value(): Cache
      reads this
    {
      Cache(uri, keys, lastRefreshOnMiss)
    }

    constructor (ttl: real)
      ensures this.ttl == ttl && Value() == EMPTY
    {
      this.ttl := ttl;
      uri, keys, lastRefreshOnMiss := None, map[], None;
    }

    /** `get_key` after discovery, up to the refresh. */
    method Consult(kid: string, now: real) returns (v: Verdict)
      modifies this
      ensures (Value(), v) == Consulted(old(Value()), kid, now, ttl)
    {
      if kid in keys {
        return Known(keys[kid]);
      }
      if lastRefreshOnMiss.None? || now - lastRefreshOnMiss.value >= ttl {
        lastRefreshOnMiss := Some(now);
        return Refresh;
      }
      return Refused;
    }

    /** The end of `_refresh`. */
    method Install(r: Response)
      modifies this
      ensures Value() == Installed(old(Value()), r)
    {
      match r
      case Keys(ks) => keys := ks;
      case OtherStatus =>
      case Broken =>
    }

    /** The end of discovery, with the lock held. */
    method Discovered(found: string)
      modifies this
      ensures Value() == old(Value()).(uri := Some(found))
    {
      uri := Some(found);
    }
  }

  // ---------------------------------------------------------------- any number of calls

  datatype Reason = AfterDiscovery | AfterMiss

  /** The lock is held while a request is out: `Discovering` and `Refreshing`. */
  datatype Phase =
    | WantDiscovery
    | Discovering
    | WantRefresh(why: Reason)
    | Refreshing(why: Reason)
    | Checking
    | Done(key: Option<string>)
    | Failed

  datatype Call = Call(kid: string, phase: Phase)

  /** `misses` lists when a miss started a refresh; `discoveries` counts the discoveries that succeeded, and
      `firstRefreshes` the answers to the refreshes that follow them. */
  datatype World = World(now: real, cache: Cache, lock: Option<nat>, calls: map<nat, Call>, nextId: nat,
                         misses: seq<real>, discoveries: nat, firstRefreshes: nat)

  const START := World(0.0, EMPTY, None, map[], 0, [], 0, 0)

  datatype Event =
    | Begin(kid: string)
    | Acquire(id: nat)
    | Discover(id: nat, found: Option<string>)
    | Reply(id: nat, response: Response)
    | Check(id: nat)
    | Cancel(id: nat)
    | Tick(elapsed: real)

  function SetPhase(w: World, id: nat, phase: Phase): World
    requires id in w.calls
  {
    w.(calls := w.calls[id := w.calls[id].(phase := phase)])
  }

  function OnBegin(w: World, kid: string): World {
    w.(calls := w.calls[w.nextId := Call(kid, if w.cache.uri.Some? then Checking else WantDiscovery)],
       nextId := w.nextId + 1)
  }

  /** A free lock is taken; whoever wanted to discover looks once more whether another call has. */
  function OnAcquire(w: World, id: nat): World {
    if id !in w.calls || w.lock.Some? then w
    else
      match w.calls[id].phase
      case WantDiscovery =>
        if w.cache.uri.Some? then SetPhase(w, id, Checking) else SetPhase(w.(lock := Some(id)), id, Discovering)
      case WantRefresh(why) => SetPhase(w.(lock := Some(id)), id, Refreshing(why))
      case _ => w
  }

  function OnDiscover(w: World, id: nat, found: Option<string>): World {
    if id !in w.calls || !w.calls[id].phase.Discovering? then w
    else if found.None? then SetPhase(w.(lock := None), id, Failed)
    else
      SetPhase(w.(lock := None, cache := w.cache.(uri := found), discoveries := w.discoveries + 1), id,
               WantRefresh(AfterDiscovery))
  }

  function OnReply(w: World, id: nat, r: Response): World {
    if id !in w.calls || !w.calls[id].phase.Refreshing? then w
    else if r.Broken? then SetPhase(w.(lock := None), id, Failed)
    else
      var c := Installed(w.cache, r);
      if w.calls[id].phase.why == AfterDiscovery
      then SetPhase(w.(lock := None, cache := c, firstRefreshes := w.firstRefreshes + 1), id, Checking)
      else SetPhase(w.(lock := None, cache := c), id, Done(Lookup(c, w.calls[id].kid)))
  }

  function OnCheck(w: World, ttl: real, id: nat): World {
    if id !in w.calls || !w.calls[id].phase.Checking? then w
    else
      var (c, v) := Consulted(w.cache, w.calls[id].kid, w.now, ttl);
      match v
      case Known(key) => SetPhase(w, id, Done(Some(key)))
      case Refused => SetPhase(w, id, Done(None))
      case Refresh => SetPhase(w.(cache := c, misses := w.misses + [w.now]), id, WantRefresh(AfterMiss))
  }

  function OnCancel(w: World, id: nat): World {
    if id !in w.calls || w.calls[id].phase.Done? then w
    else SetPhase(if w.lock == Some(id) then w.(lock := None) else w, id, Failed)
  }

  function Step(w: World, ttl: real, e: Event): World {
    match e
    case Begin(kid) => OnBegin(w, kid)
    case Acquire(id) => OnAcquire(w, id)
    case Discover(id, found) => OnDiscover(w, id, found)
    case Reply(id, r) => OnReply(w, id, r)
    case Check(id) => OnCheck(w, ttl, id)
    case Cancel(id) => OnCancel(w, id)
    case Tick(d) => if d >= 0.0 then w.(now := w.now + d) else w
  }

  function After(w: World, ttl: real, es: seq<Event>): World {
    if es == [] then w else Step(After(w, ttl, es[..|es| - 1]), ttl, es[|es| - 1])
  }

  // ---------------------------------------------------------------- what every step keeps

  predicate HoldsLock(w: World, i: nat) {
    i in w.calls && (w.calls[i].phase.Discovering? || w.calls[i].phase.Refreshing?)
  }

  /** The call has discovered the address, and the refresh that follows has no answer yet. */
  predicate AfterDiscovering(w: World, i: nat) {
    && i in w.calls && (w.calls[i].phase.WantRefresh? || w.calls[i].phase.Refreshing?)
    && w.calls[i].phase.why == AfterDiscovery
  }

  /** Each refresh on a miss comes at least `ttl` after the one before. */
  ghost predicate Spaced(xs: seq<real>, ttl: real) {
    forall i :: 0 < i < |xs| ==> xs[i] - xs[i - 1] >= ttl
  }

  /** Misses are spaced, and the throttle remembers the last. */
  ghost predicate Throttled(w: World, ttl: real) {
    && Spaced(w.misses, ttl)
    && (w.misses == [] <==> w.cache.lastRefresh.None?)
    && (w.misses != [] ==> w.cache.lastRefresh == Some(w.misses[|w.misses| - 1]) && w.misses[|w.misses| - 1] <= w.now)
  }

  /** A request is out exactly while its call holds the lock. */
  ghost predicate Exclusive(w: World) {
    && (forall i :: i in w.calls ==> i < w.nextId)
    && (forall i: nat :: HoldsLock(w, i) <==> w.lock == Some(i))
  }

  /** The address is found once, and one call at most sees to the refresh that follows. */
  ghost predicate DiscoveredOnce(w: World) {
    && w.firstRefreshes <= w.discoveries == (if w.cache.uri.Some? then 1 else 0)
    && (forall i :: AfterDiscovering(w, i) ==> w.firstRefreshes == 0)
    && (forall i, j :: AfterDiscovering(w, i) && AfterDiscovering(w, j) ==> i == j)
    && (forall i :: i in w.calls ==> (w.calls[i].phase.Discovering? ==> w.cache.uri.None?)
                                     && (NeedsAddress(w.calls[i].phase) ==> w.cache.uri.Some?))
  }

  ghost predicate Inv(w: World, ttl: real) {
    Throttled(w, ttl) && Exclusive(w) && DiscoveredOnce(w)
  }

  predicate NeedsAddress(phase: Phase) {
    phase.Checking? || phase.WantRefresh? || phase.Refreshing?
  }

  /** A step of one call leaves the others where they are. */
  lemma OthersKeep(w: World, w': World, id: nat)
    requires forall i :: i != id ==> (i in w'.calls <==> i in w.calls) && (i in w.calls ==> w'.calls[i] == w.calls[i])
    ensures forall i :: i != id ==> HoldsLock(w', i) == HoldsLock(w, i)
    ensures forall i :: i != id ==> AfterDiscovering(w', i) == AfterDiscovering(w, i)
  {
  }

  lemma BeginKeeps(w: World, ttl: real, kid: string)
    requires Inv(w, ttl)
    ensures Inv(OnBegin(w, kid), ttl)
  {
    hide Spaced;
    OthersKeep(w, OnBegin(w, kid), w.nextId);
    assert HoldsLock(w, w.nextId) <==> w.lock == Some(w.nextId);
  }

  lemma AcquireKeeps(w: World, ttl: real, id: nat)
    requires Inv(w, ttl)
    ensures Inv(OnAcquire(w, id), ttl)
  {
    hide Spaced;
    OthersKeep(w, OnAcquire(w, id), id);
    assert AfterDiscovering(OnAcquire(w, id), id) == AfterDiscovering(w, id);
    assert HoldsLock(w, id) <==> w.lock == Some(id);
  }

  lemma DiscoverKeeps(w: World, ttl: real, id: nat, found: Option<string>)
    requires Inv(w, ttl)
    ensures Inv(OnDiscover(w, id, found), ttl)
  {
    hide Spaced;
    OthersKeep(w, OnDiscover(w, id, found), id);
    assert HoldsLock(w, id) <==> w.lock == Some(id);
    assert forall i :: i in w.calls && w.calls[i].phase.Discovering? ==> HoldsLock(w, i);
  }

  lemma ReplyKeeps(w: World, ttl: real, id: nat, r: Response)
    requires Inv(w, ttl)
    ensures Inv(OnReply(w, id, r), ttl)
  {
    hide Spaced;
    OthersKeep(w, OnReply(w, id, r), id);
    assert HoldsLock(w, id) <==> w.lock == Some(id);
    assert !AfterDiscovering(w, id) || w.firstRefreshes == 0;
  }

  lemma CheckThrottles(w: World, ttl: real, id: nat)
    requires Throttled(w, ttl)
    ensures Throttled(OnCheck(w, ttl, id), ttl)
  {
  }

  lemma CheckKeeps(w: World, ttl: real, id: nat)
    requires Inv(w, ttl)
    ensures Inv(OnCheck(w, ttl, id), ttl)
  {
    hide Throttled;
    CheckThrottles(w, ttl, id);
    OthersKeep(w, OnCheck(w, ttl, id), id);
    assert HoldsLock(w, id) <==> w.lock == Some(id);
  }

  lemma CancelKeeps(w: World, ttl: real, id: nat)
    requires Inv(w, ttl)
    ensures Inv(OnCancel(w, id), ttl)
  {
    hide Spaced;
    OthersKeep(w, OnCancel(w, id), id);
    assert HoldsLock(w, id) <==> w.lock == Some(id);
  }

  lemma StepKeeps(w: World, ttl: real, e: Event)
    requires Inv(w, ttl)
    ensures Inv(Step(w, ttl, e), ttl)
  {
    hide OnBegin, OnAcquire, OnDiscover, OnReply, OnCheck, OnCancel;
    match e
    case Begin(kid) => BeginKeeps(w, ttl, kid);
    case Acquire(id) => AcquireKeeps(w, ttl, id);
    case Discover(id, found) => DiscoverKeeps(w, ttl, id, found);
    case Reply(id, r) => ReplyKeeps(w, ttl, id, r);
    case Check(id) => CheckKeeps(w, ttl, id);
    case Cancel(id) => CancelKeeps(w, ttl, id);
    case Tick(d) => OthersKeep(w, Step(w, ttl, e), w.nextId);
  }

  lemma {:induction false} RunKeeps(ttl: real, es: seq<Event>)
    ensures Inv(After(START, ttl, es), ttl)
  {
    hide Step;
    if es != [] {
      RunKeeps(ttl, es[..|es| - 1]);
      StepKeeps(After(START, ttl, es[..|es| - 1]), ttl, es[|es| - 1]);
    }
  }

  // ---------------------------------------------------------------- the throttle

  function CountIn(xs: seq<real>, s: real, t: real): nat {
    if xs == [] then 0 else CountIn(xs[..|xs| - 1], s, t) + if s <= xs[|xs| - 1] <= t then 1 else 0
  }

  lemma SpacedFront(xs: seq<real>, ttl: real)
    requires Spaced(xs, ttl) && xs != []
    ensures Spaced(xs[..|xs| - 1], ttl)
  {
  }

  lemma {:induction false} NoneAfterLast(xs: seq<real>, ttl: real, s: real, t: real)
    requires Spaced(xs, ttl) && ttl >= 0.0 && (xs != [] ==> xs[|xs| - 1] < s)
    ensures CountIn(xs, s, t) == 0
  {
    if xs != [] {
      SpacedFront(xs, ttl);
      NoneAfterLast(xs[..|xs| - 1], ttl, s, t);
    }
  }

  /** The entries of a window span at least one `ttl` less than their number. */
  lemma {:induction false} SpacedFillsWindow(xs: seq<real>, ttl: real, s: real, t: real)
    requires Spaced(xs, ttl) && ttl >= 0.0 && CountIn(xs, s, t) >= 1
    ensures Shares(CountIn(xs, s, t) - 1, ttl) <= t - s
    ensures xs[|xs| - 1] >= s && (xs[|xs| - 1] <= t ==> Shares(CountIn(xs, s, t) - 1, ttl) <= xs[|xs| - 1] - s)
  {
    var front, last := xs[..|xs| - 1], xs[|xs| - 1];
    SpacedFront(xs, ttl);
    if last < s {
      NoneAfterLast(xs, ttl, s, t);
    } else if CountIn(front, s, t) >= 1 {
      SpacedFillsWindow(front, ttl, s, t);
    }
  }

  /** Any window of length `W` sees at most `W / ttl` refreshes on a miss, rounded down, and one more. */
  lemma ThrottleBound(ttl: real, es: seq<Event>, s: real, t: real)
    requires ttl > 0.0 && s <= t
    ensures CountIn(After(START, ttl, es).misses, s, t) <= ((t - s) / ttl).Floor + 1
  {
    hide After, CountIn, Shares, Spaced;
    RunKeeps(ttl, es);
    var xs := After(START, ttl, es).misses;
    var n := CountIn(xs, s, t);
    if n >= 1 {
      SpacedFillsWindow(xs, ttl, s, t);
      SharesMultiply(n - 1, ttl);
      AtMostQuotient(n - 1, ttl, t - s);
    } else {
      AtMostQuotient(0, ttl, t - s);
    }
  }

  lemma AtMostQuotient(n: nat, ttl: real, x: real)
    requires ttl > 0.0 && n as real * ttl <= x
    ensures n <= (x / ttl).Floor
  {
    var q := x / ttl;
    assert q * ttl == x;
    assert (q - n as real) * ttl >= 0.0;
    assert q - n as real >= 0.0;
  }

  lemma {:induction false} SpacedLast(xs: seq<real>, ttl: real, i: nat)
    requires Spaced(xs, ttl) && ttl >= 0.0 && i < |xs|
    ensures xs[i] <= xs[|xs| - 1]
    decreases |xs| - i
  {
    if i + 1 < |xs| {
      SpacedLast(xs, ttl, i + 1);
    }
  }

  /** A call that looks up its key id: a known one is served and starts nothing; an unknown one starts a refresh exactly
      when no miss has started one less than `ttl` ago, the first miss always, and is told "unknown" otherwise. */
  lemma RefreshesExactlyWhenAllowed(ttl: real, es: seq<Event>, i: nat)
    requires ttl >= 0.0
    requires var w := After(START, ttl, es); i in w.calls && w.calls[i].phase.Checking?
    ensures var w := After(START, ttl, es);
            var w' := OnCheck(w, ttl, i);
            var kid := w.calls[i].kid;
            && (kid in w.cache.keys ==> w'.misses == w.misses && w'.calls[i].phase == Done(Some(w.cache.keys[kid])))
            && (kid !in w.cache.keys && (forall x :: x in w.misses ==> w.now - x >= ttl) ==>
                  w'.misses == w.misses + [w.now] && w'.calls[i].phase == WantRefresh(AfterMiss))
            && (kid !in w.cache.keys && (exists x :: x in w.misses && w.now - x < ttl) ==>
                  w'.misses == w.misses && w'.calls[i].phase == Done(None))
            && w'.cache.keys == w.cache.keys
  {
    hide After, Exclusive, DiscoveredOnce;
    RunKeeps(ttl, es);
    var w := After(START, ttl, es);
    if w.misses != [] {
      assert w.misses[|w.misses| - 1] in w.misses;
      forall x | x in w.misses
        ensures x <= w.misses[|w.misses| - 1]
      {
        var j: nat :| j < |w.misses| && w.misses[j] == x;
        SpacedLast(w.misses, ttl, j);
      }
    }
  }

  /** Only an answer with keys, to the call that holds the lock, changes the keys: a failed refresh keeps them. */
  lemma KeysChangeOnlyByAnswer(ttl: real, es: seq<Event>, e: Event)
    requires var w := After(START, ttl, es); Step(w, ttl, e).cache.keys != w.cache.keys
    ensures e.Reply? && e.response.Keys? && After(START, ttl, es).lock == Some(e.id)
    ensures Step(After(START, ttl, es), ttl, e).cache.keys == e.response.keys
  {
    hide After, Throttled, DiscoveredOnce;
    RunKeeps(ttl, es);
    var w := After(START, ttl, es);
    assert e.Reply? ==> (HoldsLock(w, e.id) <==> w.lock == Some(e.id));
  }

  /** The event is an answer with keys to a call whose refresh is out. */
  predicate Answers(w: World, e: Event) {
    e.Reply? && e.response.Keys? && e.id in w.calls && w.calls[e.id].phase.Refreshing?
  }

  /** The keys of the latest answer that had any. */
  function LatestKeys(ttl: real, es: seq<Event>): map<string, string> {
    if es == [] then map[]
    else
      var front, e := es[..|es| - 1], es[|es| - 1];
      if Answers(After(START, ttl, front), e) then e.response.keys else LatestKeys(ttl, front)
  }

  lemma StepInstalls(w: World, ttl: real, e: Event)
    ensures Step(w, ttl, e).cache.keys == if Answers(w, e) then e.response.keys else w.cache.keys
  {
  }

  /** Over every run: the keys are those of the latest answer that had any, and none before the first. */
  lemma {:induction false} KeysAreTheLatest(ttl: real, es: seq<Event>)
    ensures After(START, ttl, es).cache.keys == LatestKeys(ttl, es)
  {
    hide Step, Answers;
    if es != [] {
      KeysAreTheLatest(ttl, es[..|es| - 1]);
      StepInstalls(After(START, ttl, es[..|es| - 1]), ttl, es[|es| - 1]);
    }
  }

  lemma ReplyEnds(w: World, ttl: real, i: nat, r: Response)
    requires i in w.calls && w.calls[i].phase.Refreshing?
    ensures var w' := OnReply(w, i, r);
            i in w'.calls && w'.calls[i] == w.calls[i].(phase :=
              if r.Broken? then Failed
              else if w.calls[i].phase.why == AfterDiscovery then Checking
              else Done(Lookup(w'.cache, w.calls[i].kid)))
  {
  }

  /** A call whose refresh on a miss is answered ends with the entry for its key id in the keys of that answer; one
      without keys leaves it with the entry in the latest ones, and a broken answer fails it. */
  lemma MissEndsWithTheAnswer(ttl: real, es: seq<Event>, i: nat, r: Response)
    requires var w := After(START, ttl, es); i in w.calls && w.calls[i].phase == Refreshing(AfterMiss)
    ensures var kid, w' := After(START, ttl, es).calls[i].kid, After(START, ttl, es + [Reply(i, r)]);
            var keys := if r.Keys? then r.keys else LatestKeys(ttl, es);
            && i in w'.calls
            && w'.calls[i].phase == if r.Broken? then Failed else Done(if kid in keys then Some(keys[kid]) else None)
  {
    hide Step, LatestKeys;
    var w, e := After(START, ttl, es), Reply(i, r);
    assert (es + [e])[..|es|] == es;
    KeysAreTheLatest(ttl, es);
    StepInstalls(w, ttl, e);
    StepIsReply(w, ttl, i, r);
    ReplyEnds(w, ttl, i, r);
  }

  lemma StepIsReply(w: World, ttl: real, i: nat, r: Response)
    ensures Step(w, ttl, Reply(i, r)) == OnReply(w, i, r)
  {
  }

  /** At most one request to the provider is out. */
  lemma OneRequestAtATime(ttl: real, es: seq<Event>, i: nat, j: nat)
    requires HoldsLock(After(START, ttl, es), i) && HoldsLock(After(START, ttl, es), j)
    ensures i == j
  {
    RunKeeps(ttl, es);
  }

  /** Discovery succeeds at most once, and the refresh it brings is answered at most once: while a call still waits for
      that answer, no other call has had one or waits for one. */
  lemma DiscoveryRefreshesOnce(ttl: real, es: seq<Event>)
    ensures var w := After(START, ttl, es);
            && w.firstRefreshes <= w.discoveries <= 1
            && (w.discoveries == 1 <==> w.cache.uri.Some?)
            && forall i, j :: AfterDiscovering(w, i) ==> w.firstRefreshes == 0 && (AfterDiscovering(w, j) ==> i == j)
  {
    RunKeeps(ttl, es);
  }

  lemma StepKeepsAddress(w: World, ttl: real, e: Event)
    requires DiscoveredOnce(w) && w.cache.uri.Some?
    ensures Step(w, ttl, e).cache.uri == w.cache.uri
  {
  }

  lemma {:induction false} DiscoveryIsFinal(ttl: real, es: seq<Event>, more: seq<Event>)
    requires After(START, ttl, es).cache.uri.Some?
    ensures After(START, ttl, es + more).cache.uri == After(START, ttl, es).cache.uri
    decreases |more|
  {
    hide Step, DiscoveredOnce, Throttled, Exclusive;
    if more == [] {
      assert es + more == es;
    } else {
      var front := more[..|more| - 1];
      DiscoveryIsFinal(ttl, es, front);
      assert (es + more)[..|es + more| - 1] == es + front;
      var w, e := After(START, ttl, es + front), more[|more| - 1];
      RunKeeps(ttl, es + front);
      StepKeepsAddress(w, ttl, e);
    }
  }
}
