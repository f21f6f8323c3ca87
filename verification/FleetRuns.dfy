/** Runs of the fleet that reach its limits, and the exact conditions they give. */
module FleetRuns {
  import opened Prelude
  import opened TokenBuckets
  import opened LocalLimiter
  import opened RedisBucket
  import opened Readings
  import opened SharedLedger
  import Breaker = CircuitBreaker
  import opened Fleet
  import opened FleetBounds

  // ---------------------------------------------------------------- one step at a time

  /** One more event. */
  lemma Then(cfg: Settings, focus: string, start: World, run: seq<Event>, e: Event, lag: int)
      returns (longer: seq<Event>)
    requires cfg.Valid() && TimelyRun(cfg, focus, start, run, lag)
             && Timely(focus, After(cfg, focus, start, run), e, lag)
    ensures After(cfg, focus, start, longer) == Step(cfg, focus, After(cfg, focus, start, run), e)
    ensures TimelyRun(cfg, focus, start, longer, lag)
  {
    hide Step, Timely;
    longer := run + [e];
    assert longer[..|longer| - 1] == run;
  }

  /** A call on a replica whose breaker has seen only successes. */
  predicate Calm(w: World, id: nat) {
    id in w.calls && w.calls[id].replica < |w.replicas| && w.replicas[w.calls[id].replica].breaker == Breaker.INITIAL
  }

  lemma CalmEnter(cfg: Settings, w: World, id: nat)
    requires Calm(w, id) && w.calls[id].phase.Ready?
    ensures OnEnter(cfg, w, id) == SetPhase(w, id, Sent(w.calls[id].phase.stage, w.calls[id].phase.paid, w.now))
  {
    var i := w.calls[id].replica;
    assert w.replicas[i := w.replicas[i]] == w.replicas;
  }

  lemma CalmSettle(w: World, id: nat)
    requires Calm(w, id) && w.calls[id].phase.Replied? && w.calls[id].phase.granted && w.calls[id].phase.paid.Some?
    ensures var paid := w.calls[id].phase.paid;
            OnSettle(w, id) == SetPhase(w, id, if w.calls[id].phase.stage == TenantStage then Ready(SessionStage, paid)
                                               else Returned(paid.value, w.now))
  {
    var i := w.calls[id].replica;
    assert w.replicas[i := w.replicas[i]] == w.replicas;
  }

  function Stored(w: World, name: string): Option<Hash> {
    if name in w.store then Some(w.store[name].hash) else None
  }

  /** A script runs on a key that is there. */
  function Scripted(cfg: Settings, w: World, tenant: string, session: string, stage: Stage, reading: int): World
    requires cfg.Valid()
  {
    var name := KeyName(cfg, tenant, session, stage);
    var h := Script(StageRate(cfg, tenant, stage), Stored(w, name), reading, 1).0;
    w.(store := w.store[name := Key(h, w.now + 1000 * TtlFor(cfg.limits.For(tenant)))])
  }

  lemma TenantScript(cfg: Settings, focus: string, w: World, id: nat)
    requires cfg.Valid() && id in w.calls && w.calls[id].phase.Sent? && w.calls[id].phase.stage == TenantStage
    requires w.calls[id].tenant == focus
    ensures var c := w.calls[id];
            var h := Stored(w, TenantKey(cfg.prefix, focus));
            var ok := Script(cfg.limits.For(focus).tenant, h, c.phase.reading, 1).1;
            var w1 := Scripted(cfg, w, focus, c.session, TenantStage, c.phase.reading);
            var paid := if ok then Some(Charge(Shared, w.now, c.phase.reading)) else c.phase.paid;
            OnRunScript(cfg, focus, w, id, false)
            == SetPhase(w1.(shared := w.shared + [Entry(Some(id), w.now, c.phase.reading, ok)]), id,
                        Replied(TenantStage, paid, ok))
  {
    hide Script;
  }

  lemma SessionScript(cfg: Settings, focus: string, w: World, id: nat)
    requires cfg.Valid() && id in w.calls && w.calls[id].phase.Sent? && w.calls[id].phase.stage == SessionStage
    ensures var c := w.calls[id];
            var name := SessionKeyName(cfg.prefix, c.tenant, c.session);
            var ok := Script(cfg.limits.For(c.tenant).session, Stored(w, name), c.phase.reading, 1).1;
            OnRunScript(cfg, focus, w, id, false)
            == SetPhase(Scripted(cfg, w, c.tenant, c.session, SessionStage, c.phase.reading), id,
                        Replied(SessionStage, c.phase.paid, ok))
  {
    hide Script;
  }

  /** What a script does to a bucket that was last read at the same moment, or is new. */
  lemma SameReading(rate: Rate, h: Option<Hash>, reading: int)
    requires rate.Valid() && (h.Some? ==> 0.0 <= h.value.tokens <= rate.capacity as real && h.value.lastMs == reading)
    ensures var tokens := if h.Some? then h.value.tokens else rate.capacity as real;
            Script(rate, h, reading, 1)
            == if tokens < 1.0 then (Hash(tokens, reading), false) else (Hash(tokens - 1.0, reading), true)
  {
    assert Seconds(0) == 0.0 && 0.0 * rate.refill == 0.0;
  }

  // ---------------------------------------------------------------- a call from start to return

  /** A call that begins now and sends its tenant script now. */
  lemma BeginsNow(cfg: Settings, focus: string, start: World, run: seq<Event>, session: string, lag: nat)
      returns (longer: seq<Event>)
    requires cfg.Valid() && TimelyRun(cfg, focus, start, run, lag)
    requires var w := After(cfg, focus, start, run);
             |w.replicas| > 0 && w.replicas[0].breaker == Breaker.INITIAL
    ensures TimelyRun(cfg, focus, start, longer, lag)
    ensures var w := After(cfg, focus, start, run);
            var call := Acquiring(0, focus, session, w.now, Sent(TenantStage, None, w.now));
            After(cfg, focus, start, longer) == w.(calls := w.calls[w.nextId := call], nextId := w.nextId + 1)
  {
    hide After, TimelyRun;
    var w := After(cfg, focus, start, run);
    longer := Then(cfg, focus, start, run, Begin(0, focus, session), lag);
    CalmEnter(cfg, After(cfg, focus, start, longer), w.nextId);
    longer := Then(cfg, focus, start, longer, Enter(w.nextId), lag);
  }

  /** A call that begins now, takes a shared token now, and has its session script ahead of it. */
  lemma TakesToken(cfg: Settings, focus: string, start: World, run: seq<Event>, session: string, lag: nat)
      returns (longer: seq<Event>)
    requires cfg.Valid() && TimelyRun(cfg, focus, start, run, lag)
    requires var w := After(cfg, focus, start, run);
             && |w.replicas| > 0 && w.replicas[0].breaker == Breaker.INITIAL
             && Script(cfg.limits.For(focus).tenant, Stored(w, TenantKey(cfg.prefix, focus)), w.now, 1).1
    ensures TimelyRun(cfg, focus, start, longer, lag)
    ensures var w, w' := After(cfg, focus, start, run), After(cfg, focus, start, longer);
            var id, paid := w.nextId, Charge(Shared, w.now, w.now);
            && w'.now == w.now && w'.replicas == w.replicas && w'.local == w.local && w'.nextId == id + 1
            && w'.store == Scripted(cfg, w, focus, session, TenantStage, w.now).store
            && w'.calls == w.calls[id := Acquiring(0, focus, session, w.now, Ready(SessionStage, Some(paid)))]
  {
    hide Script, After, TimelyRun, OnBegin, OnEnter, OnRunScript, OnSettle, OnFail, OnStray, OnFallback;
    var w := After(cfg, focus, start, run);
    var id, paid := w.nextId, Charge(Shared, w.now, w.now);
    longer := BeginsNow(cfg, focus, start, run, session, lag);
    var w2 := After(cfg, focus, start, longer);
    longer := Then(cfg, focus, start, longer, RunScript(id, false), lag);
    TenantScript(cfg, focus, w2, id);
    var w3 := After(cfg, focus, start, longer);
    assert w3.calls[id].phase == Replied(TenantStage, Some(paid), true);
    longer := Then(cfg, focus, start, longer, Settle(id), lag);
    CalmSettle(w3, id);
  }

  /** A call with its shared token, and room in its session's bucket, returns now. */
  lemma Returns(cfg: Settings, focus: string, start: World, run: seq<Event>, id: nat, lag: int)
      returns (longer: seq<Event>)
    requires cfg.Valid() && TimelyRun(cfg, focus, start, run, lag)
    requires var w := After(cfg, focus, start, run);
             && Calm(w, id) && w.calls[id].phase.Ready? && w.calls[id].phase.stage == SessionStage
             && w.calls[id].phase.paid.Some?
             && Script(cfg.limits.For(w.calls[id].tenant).session,
                       Stored(w, SessionKeyName(cfg.prefix, w.calls[id].tenant, w.calls[id].session)), w.now, 1).1
    ensures TimelyRun(cfg, focus, start, longer, lag)
    ensures var w, w' := After(cfg, focus, start, run), After(cfg, focus, start, longer);
            var c := w.calls[id];
            && w'.now == w.now && w'.replicas == w.replicas && w'.local == w.local && w'.nextId == w.nextId
            && w'.store == Scripted(cfg, w, c.tenant, c.session, SessionStage, w.now).store
            && w'.calls == w.calls[id := c.(phase := Returned(c.phase.paid.value, w.now))]
  {
    hide Script, After, TimelyRun, OnBegin, OnEnter, OnRunScript, OnSettle, OnFail, OnStray, OnFallback;
    var w := After(cfg, focus, start, run);
    longer := Then(cfg, focus, start, run, Enter(id), lag);
    CalmEnter(cfg, w, id);
    var w1 := After(cfg, focus, start, longer);
    longer := Then(cfg, focus, start, longer, RunScript(id, false), lag);
    SessionScript(cfg, focus, w1, id);
    var w2 := After(cfg, focus, start, longer);
    longer := Then(cfg, focus, start, longer, Settle(id), lag);
    CalmSettle(w2, id);
  }

  function UpTo(a: nat, b: nat): set<nat> {
    if b <= a then {} else UpTo(a, b - 1) + {b - 1}
  }

  lemma {:induction false} UpToSize(a: nat, b: nat)
    requires a <= b
    ensures |UpTo(a, b)| == b - a
    ensures forall i: nat :: i in UpTo(a, b) <==> a <= i < b
  {
    if a < b {
      UpToSize(a, b - 1);
    }
  }

  // ---------------------------------------------------------------- readings out of order

  /** One tenant token that comes back every `ms` milliseconds, and room for `k` calls in a session's bucket. */
  function OneToken(k: nat, ms: nat): (cfg: Settings)
    requires k > 0 && ms > 0
    ensures cfg.Valid()
  {
    Settings("", Limits(RateLimitConfig(OneTokenIn(ms), Rate(k, 1.0)), map[]), Breaker.Config(3, 5.0, 1, 10.0))
  }

  const CALM: seq<Replica> := [Replica(Breaker.INITIAL, None)]

  /** `j` calls have taken the reading 0 and sent their tenant scripts. */
  ghost predicate Stale(w: World, j: nat) {
    && w.now == 0 && w.replicas == CALM && w.nextId == j && w.store == map[]
    && (forall id: nat :: id in w.calls <==> id < j)
    && (forall id: nat :: id < j ==> w.calls[id] == Acquiring(0, "t", "s", 0, Sent(TenantStage, None, 0)))
  }

  lemma SendsStale(cfg: Settings, start: World, run: seq<Event>, j: nat, lag: int) returns (longer: seq<Event>)
    requires cfg.Valid() && TimelyRun(cfg, "t", start, run, lag) && Stale(After(cfg, "t", start, run), j)
    ensures TimelyRun(cfg, "t", start, longer, lag) && Stale(After(cfg, "t", start, longer), j + 1)
  {
    hide After, TimelyRun;
    longer := Then(cfg, "t", start, run, Begin(0, "t", "s"), lag);
    CalmEnter(cfg, After(cfg, "t", start, longer), j);
    longer := Then(cfg, "t", start, longer, Enter(j), lag);
  }

  /** At millisecond `ms`: a stale script ran last, `j` fresh calls have returned, and the other stale scripts of the
      first k + 1 calls are still on their way. */
  ghost predicate TakingTurn(w: World, k: nat, ms: nat, j: nat) {
    && w.now == ms && w.replicas == CALM && w.nextId == k + 1 + j
    && (forall id: nat :: id in w.calls <==> id < k + 1 + j)
    && (forall id: nat :: j < id <= k ==> w.calls[id] == Acquiring(0, "t", "s", 0, Sent(TenantStage, None, 0)))
    && (forall id: nat :: k < id < k + 1 + j ==>
          w.calls[id] == Acquiring(0, "t", "s", ms, Returned(Charge(Shared, ms, ms), ms)))
    && Stored(w, TenantKey("", "t")) == Some(Hash(0.0, 0))
    && Stored(w, SessionKeyName("", "t", "s")) == if j == 0 then None else Some(Hash((k - j) as real, ms))
  }

  lemma FirstStaleScript(k: nat, ms: nat, start: World, run: seq<Event>) returns (longer: seq<Event>)
    requires k > 0 && ms > 0 && TimelyRun(OneToken(k, ms), "t", start, run, ms)
    requires Stale(After(OneToken(k, ms), "t", start, run), k + 1)
    ensures TimelyRun(OneToken(k, ms), "t", start, longer, ms)
    ensures TakingTurn(After(OneToken(k, ms), "t", start, longer), k, ms, 0)
  {
    hide After, TimelyRun, Script, OneTokenIn;
    var cfg := OneToken(k, ms);
    longer := Then(cfg, "t", start, run, Tick(ms), ms);
    TenantScript(cfg, "t", After(cfg, "t", start, longer), 0);
    longer := Then(cfg, "t", start, longer, RunScript(0, false), ms);
    TurnScripts(ms);
    TenantKeysAreDistinct("", "t", "t", "s");
  }

  /** In the middle of a turn: the fresh call has returned, the next stale script is on its way. */
  ghost predicate MidTurn(w: World, k: nat, ms: nat, j: nat) {
    && w.now == ms && w.replicas == CALM && w.nextId == k + 2 + j
    && (forall id: nat :: id in w.calls <==> id < k + 2 + j)
    && (forall id: nat :: j < id <= k ==> w.calls[id] == Acquiring(0, "t", "s", 0, Sent(TenantStage, None, 0)))
    && (forall id: nat :: k < id < k + 2 + j ==>
          w.calls[id] == Acquiring(0, "t", "s", ms, Returned(Charge(Shared, ms, ms), ms)))
    && Stored(w, TenantKey("", "t")) == Some(Hash(0.0, ms))
    && Stored(w, SessionKeyName("", "t", "s")) == Some(Hash((k - j - 1) as real, ms))
  }

  /** A fresh call takes the token that the stale reading gave back, and returns. */
  lemma FreshReturns(k: nat, ms: nat, start: World, run: seq<Event>, j: nat) returns (longer: seq<Event>)
    requires k > 0 && ms > 0 && j < k && TimelyRun(OneToken(k, ms), "t", start, run, ms)
    requires TakingTurn(After(OneToken(k, ms), "t", start, run), k, ms, j)
    ensures TimelyRun(OneToken(k, ms), "t", start, longer, ms)
    ensures MidTurn(After(OneToken(k, ms), "t", start, longer), k, ms, j)
  {
    hide After, TimelyRun, Script, OneTokenIn, Step;
    var cfg := OneToken(k, ms);
    TurnScripts(ms);
    TenantKeysAreDistinct("", "t", "t", "s");
    longer := TakesToken(cfg, "t", start, run, "s", ms);
    var w1 := After(cfg, "t", start, longer);
    assert Stored(w1, TenantKey("", "t")) == Some(Hash(0.0, ms));
    SameReading(Rate(k, 1.0), Stored(w1, SessionKeyName("", "t", "s")), ms);
    longer := Returns(cfg, "t", start, longer, k + 1 + j, ms);
  }

  lemma StaleScript(k: nat, ms: nat, w: World, j: nat)
    requires k > 0 && ms > 0 && j < k && MidTurn(w, k, ms, j)
    ensures Timely("t", w, RunScript(j + 1, false), ms)
    ensures TakingTurn(OnRunScript(OneToken(k, ms), "t", w, j + 1, false), k, ms, j + 1)
  {
    hide Script, OneTokenIn, OnRunScript;
    TenantScript(OneToken(k, ms), "t", w, j + 1);
    TurnScripts(ms);
    TenantKeysAreDistinct("", "t", "t", "s");
  }

  /** The next stale script is refused, but moves the stored reading back. */
  lemma OneTurn(k: nat, ms: nat, start: World, run: seq<Event>, j: nat) returns (longer: seq<Event>)
    requires k > 0 && ms > 0 && j < k && TimelyRun(OneToken(k, ms), "t", start, run, ms)
    requires TakingTurn(After(OneToken(k, ms), "t", start, run), k, ms, j)
    ensures TimelyRun(OneToken(k, ms), "t", start, longer, ms)
    ensures TakingTurn(After(OneToken(k, ms), "t", start, longer), k, ms, j + 1)
  {
    hide After, TimelyRun, Timely, OnRunScript, TakingTurn, MidTurn;
    longer := FreshReturns(k, ms, start, run, j);
    StaleScript(k, ms, After(OneToken(k, ms), "t", start, longer), j);
    longer := Then(OneToken(k, ms), "t", start, longer, RunScript(j + 1, false), ms);
  }

  /** For any `k`, one replica and one clock: with scripts that lag `ms` milliseconds, k calls are let through on
      readings of a window of that length, where the bound is 2 * 2. */
  lemma OutOfOrderIsUnbounded(k: nat, ms: nat) returns (run: seq<Event>)
    requires k > 0 && ms > 0
    ensures TimelyRun(OneToken(k, ms), "t", Initial(1, 0), run, ms)
    ensures |LetThrough(After(OneToken(k, ms), "t", Initial(1, 0), run), "t", ByReading, 0, ms)| >= k
    ensures OneToken(k, ms).limits.For("t").tenant.Allowance(Seconds(ms - 0)) == 2.0
  {
    hide After;
    var cfg, start := OneToken(k, ms), Initial(1, 0);
    run := [];
    var j := 0;
    NothingRun(cfg, "t", start, ms);
    while j <= k
      invariant 0 <= j <= k + 1 && TimelyRun(cfg, "t", start, run, ms) && Stale(After(cfg, "t", start, run), j)
    {
      run := SendsStale(cfg, start, run, j, ms);
      j := j + 1;
    }
    run := FirstStaleScript(k, ms, start, run);
    j := 0;
    while j < k
      invariant 0 <= j <= k && TimelyRun(cfg, "t", start, run, ms) && TakingTurn(After(cfg, "t", start, run), k, ms, j)
    {
      run := OneTurn(k, ms, start, run, j);
      j := j + 1;
    }
    TurnsLetThrough(After(cfg, "t", start, run), k, ms);
    StaleTimestampOvergrants(0, ms);
  }

  lemma NothingRun(cfg: Settings, focus: string, start: World, lag: int)
    requires cfg.Valid()
    ensures After(cfg, focus, start, []) == start && TimelyRun(cfg, focus, start, [], lag)
  {
  }

  lemma TurnsLetThrough(w: World, k: nat, ms: nat)
    requires TakingTurn(w, k, ms, k)
    ensures |LetThrough(w, "t", ByReading, 0, ms)| >= k
  {
    hide Stored, UpTo;
    UpToSize(k + 1, k + 1 + k);
    forall id | id in UpTo(k + 1, k + 1 + k)
      ensures id in LetThrough(w, "t", ByReading, 0, ms)
    {
    }
    SubsetSize(UpTo(k + 1, k + 1 + k), LetThrough(w, "t", ByReading, 0, ms));
  }

  /** The bound for one run and one window, counted by the readings. */
  ghost predicate WithinBound(cfg: Settings, focus: string, n: nat, t0: int, run: seq<Event>, s: int, t: int)
    requires cfg.Valid()
  {
    |LetThrough(After(cfg, focus, Initial(n, t0), run), focus, ByReading, s, t)| as real
    <= (n + 1) as real * cfg.limits.For(focus).tenant.Allowance(Seconds(t - s))
  }

  ghost predicate BoundedWithLag(lag: int) {
    forall cfg: Settings, focus, n, t0, run, s, t | cfg.Valid() && s <= t
      && TimelyRun(cfg, focus, Initial(n, t0), run, lag)
      :: WithinBound(cfg, focus, n, t0, run, s, t)
  }

  /** The bound (N + 1) * (c + r * (t - s)) holds for all settings and all runs exactly when no script may lag behind
      its reading at all. */
  lemma FleetBoundIffPrompt(lag: nat)
    ensures BoundedWithLag(lag) <==> lag == 0
  {
    if lag == 0 {
      forall cfg: Settings, focus, n, t0, run, s, t
        | cfg.Valid() && s <= t && TimelyRun(cfg, focus, Initial(n, t0), run, lag)
        ensures WithinBound(cfg, focus, n, t0, run, s, t)
      {
        FleetBoundPrompt(cfg, focus, n, t0, run, s, t);
      }
    } else {
      var run := OutOfOrderIsUnbounded(5, 1);
      TimelierRun(OneToken(5, 1), "t", Initial(1, 0), run, 1, lag);
      assert !WithinBound(OneToken(5, 1), "t", 1, 0, run, 0, 1);
    }
  }

  // ---------------------------------------------------------------- counted by return

  /** `j` calls, one a millisecond, hold their shared tenant token and have the session script ahead of them. */
  ghost predicate Queued(k: nat, w: World, j: nat) {
    && w.now == j && w.nextId == j && w.replicas == CALM
    && (forall id: nat :: id in w.calls <==> id < j)
    && (forall id: nat :: id < j ==>
          w.calls[id] == Acquiring(0, "t", "s", id, Ready(SessionStage, Some(Charge(Shared, id, id)))))
    && Stored(w, TenantKey("", "t")) == (if j == 0 then None else Some(Hash(0.0, j - 1)))
    && Stored(w, SessionKeyName("", "t", "s")) == None
  }

  lemma NextMillisecond(j: nat)
    requires j > 0
    ensures Script(OneTokenIn(1), Some(Hash(0.0, j - 1)), j, 1) == (Hash(0.0, j), true)
  {
    var rate := OneTokenIn(1);
    OneTokenEarned(1, 1);
    assert Refilled(rate, Hash(0.0, j - 1), j) == MinReal(1.0, 0.0 + Earned(rate, Seconds(1)));
  }

  lemma QueueOne(k: nat, start: World, run: seq<Event>, j: nat) returns (longer: seq<Event>)
    requires k > 0 && TimelyRun(OneToken(k, 1), "t", start, run, 0)
             && Queued(k, After(OneToken(k, 1), "t", start, run), j)
    ensures TimelyRun(OneToken(k, 1), "t", start, longer, 0)
    ensures Queued(k, After(OneToken(k, 1), "t", start, longer), j + 1)
  {
    hide After, TimelyRun, Script, OneTokenIn;
    TenantKeysAreDistinct("", "t", "t", "s");
    if j == 0 {
      SameReading(OneTokenIn(1), None, 0);
      OneTokenEarned(1, 1);
      OneTokenHolds(1);
    } else {
      NextMillisecond(j);
    }
    longer := TakesToken(OneToken(k, 1), "t", start, run, "s", 0);
    longer := Then(OneToken(k, 1), "t", start, longer, Tick(1), 0);
  }

  lemma OneTokenHolds(ms: nat)
    requires ms > 0
    ensures OneTokenIn(ms).capacity == 1
  {
  }

  /** At millisecond `k`, `j` of the calls have returned. */
  ghost predicate Returning(k: nat, w: World, j: nat) {
    && w.now == k && w.replicas == CALM
    && (forall id: nat :: id in w.calls <==> id < k)
    && (forall id: nat :: id < k ==> w.calls[id] == Acquiring(0, "t", "s", id,
          if id < j then Returned(Charge(Shared, id, id), k) else Ready(SessionStage, Some(Charge(Shared, id, id)))))
    && Stored(w, SessionKeyName("", "t", "s")) == if j == 0 then None else Some(Hash((k - j) as real, k))
  }

  lemma ReturnOne(k: nat, start: World, run: seq<Event>, j: nat) returns (longer: seq<Event>)
    requires j < k && TimelyRun(OneToken(k, 1), "t", start, run, 0)
    requires Returning(k, After(OneToken(k, 1), "t", start, run), j)
    ensures TimelyRun(OneToken(k, 1), "t", start, longer, 0)
    ensures Returning(k, After(OneToken(k, 1), "t", start, longer), j + 1)
  {
    hide After, TimelyRun, Script, OneTokenIn;
    SameReading(Rate(k, 1.0), Stored(After(OneToken(k, 1), "t", start, run), SessionKeyName("", "t", "s")), k);
    longer := Returns(OneToken(k, 1), "t", start, run, j, 0);
  }

  /** For any `k`, one replica can let `k` calls return in a single millisecond, where the bound is two, even when no
      script lags: they took their tokens one by one while waiting. Counting returns needs the longer window. */
  lemma ReturnsAloneAreUnbounded(k: nat) returns (run: seq<Event>)
    requires k > 0
    ensures TimelyRun(OneToken(k, 1), "t", Initial(1, 0), run, 0)
    ensures |ReturnedIn(After(OneToken(k, 1), "t", Initial(1, 0), run), "t", k, k, k)| >= k
    ensures OneToken(k, 1).limits.For("t").tenant.Allowance(Seconds(k - k)) == 1.0
  {
    hide After;
    var cfg, start := OneToken(k, 1), Initial(1, 0);
    run := [];
    var j := 0;
    NothingRun(cfg, "t", start, 0);
    while j < k
      invariant 0 <= j <= k && TimelyRun(cfg, "t", start, run, 0) && Queued(k, After(cfg, "t", start, run), j)
    {
      run := QueueOne(k, start, run, j);
      j := j + 1;
    }
    j := 0;
    while j < k
      invariant 0 <= j <= k && TimelyRun(cfg, "t", start, run, 0) && Returning(k, After(cfg, "t", start, run), j)
    {
      run := ReturnOne(k, start, run, j);
      j := j + 1;
    }
    AllReturned(k, After(cfg, "t", start, run));
    NothingYet(OneTokenIn(1));
  }

  lemma AllReturned(k: nat, w: World)
    requires Returning(k, w, k)
    ensures |ReturnedIn(w, "t", k, k, k)| >= k
  {
    UpToSize(0, k);
    assert UpTo(0, k) <= ReturnedIn(w, "t", k, k, k);
    SubsetSize(UpTo(0, k), ReturnedIn(w, "t", k, k, k));
  }
}
