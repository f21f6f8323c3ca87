/** N replicas of RedisRateLimiter over one Redis. `acquire` awaits Redis twice, so any number of calls
    interleave; each event below is one stretch of code between two awaits, or Redis running a script.
    All clocks read the same whole milliseconds. */
module Fleet {
  import opened Prelude
  import opened TokenBuckets
  import opened LocalLimiter
  import opened RedisBucket
  import opened SharedLedger
  import Breaker = CircuitBreaker

  datatype Settings = Settings(prefix: string, limits: Limits, breaker: Breaker.Config) {
    ghost predicate Valid() {
      limits.Valid() && breaker.Valid()
    }
  }

  datatype Stage = TenantStage | SessionStage

  /** Where a call got the tenant token it was let through on, when, and on which clock reading. */
  datatype Source = Shared | Local(replica: nat)
  datatype Charge = Charge(source: Source, at: int, reading: int)

  /** Why `acquire` raised: a limiter refused, an error of Redis escaped, or the caller's task was cancelled. */
  datatype Cause = Refused | Escaped | Dropped

  /** `paid` is the shared tenant token a call has taken so far; `reading` is the clock reading that goes with a script,
      taken by the caller before it sends the script. */
  datatype Phase =
    | Ready(stage: Stage, paid: Option<Charge>)
    | Sent(stage: Stage, paid: Option<Charge>, reading: int)
    | Replied(stage: Stage, paid: Option<Charge>, granted: bool)
    | FallingBack
    | Returned(charge: Charge, at: int)
    | Raised(cause: Cause)

  datatype Acquiring = Acquiring(replica: nat, tenant: string, session: string, startedAt: int, phase: Phase)

  datatype Replica = Replica(breaker: Breaker.Breaker, fallback: Option<Buckets>)

  /** A token taken from a replica's own tenant bucket, and the call it was taken for. */
  datatype Token = Token(id: nat, at: int)

  /** The whole system. The two ledgers are about the buckets of one tenant, `focus`: the scripts that ran on the shared
      one, and the tokens taken from each replica's own. */
  datatype World = World(
    now: int,
    replicas: seq<Replica>,
    store: map<string, Key>,
    calls: map<nat, Acquiring>,
    nextId: nat,
    shared: seq<Entry>,
    local: seq<seq<Token>>)

  function Initial(n: nat, now: int): World {
    World(now, seq(n, _ => Replica(Breaker.INITIAL, None)), map[], map[], 0, [], seq(n, _ => []))
  }

  /** Why a breaker call raised: ConnectionError and the timeouts are caught, anything else escapes. */
  datatype Failure = Unavailable | OtherError

  datatype Event =
    | Begin(replica: nat, tenant: string, session: string)
    | Enter(id: nat)
    | Resend(id: nat)
    | RunScript(id: nat, gone: bool)
    | Settle(id: nat)
    | Fail(id: nat, why: Failure)
    | Stray(tenant: string, session: string, stage: Stage, reading: int, gone: bool)
    | Fallback(id: nat)
    | Drop(id: nat)
    | Tick(ms: nat)

  function KeyName(cfg: Settings, tenant: string, session: string, stage: Stage): string {
    match stage
    case TenantStage => TenantKey(cfg.prefix, tenant)
    case SessionStage => SessionKeyName(cfg.prefix, tenant, session)
  }

  function StageRate(cfg: Settings, tenant: string, stage: Stage): Rate {
    match stage
    case TenantStage => cfg.limits.For(tenant).tenant
    case SessionStage => cfg.limits.For(tenant).session
  }

  /** Redis runs the script of one stage. A key may have disappeared once its expiry has come. */
  function RunKey(cfg: Settings, w: World, tenant: string, session: string, stage: Stage, reading: int, gone: bool)
    : (World, bool)
    requires cfg.Valid()
  {
    var name := KeyName(cfg, tenant, session, stage);
    var key := if name in w.store then Some(w.store[name]) else None;
    var a := Access(w.now, reading, 1, gone && key.Some? && key.value.expiresAtMs <= w.now);
    var (key', ok) := Touch(StageRate(cfg, tenant, stage), TtlFor(cfg.limits.For(tenant)), key, a);
    (w.(store := w.store[name := key']), ok)
  }

  function SetPhase(w: World, id: nat, phase: Phase): World
    requires id in w.calls
  {
    w.(calls := w.calls[id := w.calls[id].(phase := phase)])
  }

  /** A script that ran on the tenant key of `focus` goes into the ledger, whatever it replied. */
  function Book(w: World, focus: string, tenant: string, stage: Stage, reading: int, ok: bool, id: Option<nat>): World {
    if stage == TenantStage && tenant == focus then w.(shared := w.shared + [Entry(id, w.now, reading, ok)]) else w
  }

  // ---------------------------------------------------------------- what one replica does

  /** Breaker admission before a script: on to Redis with the clock's reading, or to the fallback. */
  function Entered(cfg: Settings, r: Replica, phase: Phase, now: int): (Replica, Phase)
    requires phase.Ready?
  {
    var (b, a) := Breaker.Admit(cfg.breaker, r.breaker, Seconds(now));
    (r.(breaker := b), if a == Breaker.Admitted then Sent(phase.stage, phase.paid, now) else FallingBack)
  }

  /** The reply arrived in time: success is recorded and the caller looks at the verdict. */
  function Settled(r: Replica, phase: Phase, now: int): (Replica, Phase)
    requires phase.Replied? && (phase.granted && phase.stage == SessionStage ==> phase.paid.Some?)
  {
    (r.(breaker := Breaker.RecordSuccess(r.breaker, Seconds(now))),
     if !phase.granted then Raised(Refused)
     else if phase.stage == TenantStage then Ready(SessionStage, phase.paid)
     else Returned(phase.paid.value, now))
  }

  /** The call failed before its reply was used, whether or not the script ran. */
  function FailedWith(cfg: Settings, r: Replica, why: Failure, now: int): (Replica, Phase) {
    (r.(breaker := Breaker.RecordFailure(cfg.breaker, r.breaker, Seconds(now))),
     if why == Unavailable then FallingBack else Raised(Escaped))
  }

  /** The replica's own limiter, created on first use, decides. */
  function FellBack(cfg: Settings, r: Replica, i: nat, c: Acquiring, now: int): (Replica, Outcome, Phase) {
    var st := if r.fallback.Some? then r.fallback.value else EMPTY;
    var (st', o) := AcquireBoth(cfg.limits, st, Call(c.tenant, c.session, Seconds(now)));
    (r.(fallback := Some(st')), o,
     if o == Granted then Returned(Charge(Local(i), now, now), now) else Raised(Refused))
  }

  // ---------------------------------------------------------------- the steps

  function SetReplica(w: World, i: nat, r: Replica): World
    requires i < |w.replicas|
  {
    w.(replicas := w.replicas[i := r])
  }

  function OnBegin(w: World, e: Event): World
    requires e.Begin?
  {
    if e.replica >= |w.replicas| then w
    else
      w.(calls := w.calls[w.nextId := Acquiring(e.replica, e.tenant, e.session, w.now, Ready(TenantStage, None))],
         nextId := w.nextId + 1)
  }

  function OnEnter(cfg: Settings, w: World, id: nat): World {
    if id !in w.calls || !w.calls[id].phase.Ready? || w.calls[id].replica >= |w.replicas| then w
    else
      var c := w.calls[id];
      var (r, phase) := Entered(cfg, w.replicas[c.replica], c.phase, w.now);
      SetPhase(SetReplica(w, c.replica, r), id, phase)
  }

  /** The script had to be loaded first: it is sent again, with a new reading. */
  function OnResend(w: World, id: nat): World {
    if id !in w.calls || !w.calls[id].phase.Sent? then w
    else SetPhase(w, id, w.calls[id].phase.(reading := w.now))
  }

  function OnRunScript(cfg: Settings, focus: string, w: World, id: nat, gone: bool): World
    requires cfg.Valid()
  {
    if id !in w.calls || !w.calls[id].phase.Sent? then w
    else
      var c := w.calls[id];
      var stage, reading := c.phase.stage, c.phase.reading;
      var (w', ok) := RunKey(cfg, w, c.tenant, c.session, stage, reading, gone);
      var paid := if stage == TenantStage && ok then Some(Charge(Shared, w.now, reading)) else c.phase.paid;
      SetPhase(Book(w', focus, c.tenant, stage, reading, ok, Some(id)), id, Replied(stage, paid, ok))
  }

  /** No session script is sent without a tenant token, so the last test always fails. */
  function OnSettle(w: World, id: nat): World {
    if id !in w.calls || !w.calls[id].phase.Replied? || w.calls[id].replica >= |w.replicas| then w
    else
      var c := w.calls[id];
      if c.phase.granted && c.phase.stage == SessionStage && c.phase.paid.None? then w
      else
        var (r, phase) := Settled(w.replicas[c.replica], c.phase, w.now);
        SetPhase(SetReplica(w, c.replica, r), id, phase)
  }

  function OnFail(cfg: Settings, w: World, id: nat, why: Failure): World {
    if id !in w.calls || !(w.calls[id].phase.Sent? || w.calls[id].phase.Replied?) || w.calls[id].replica >= |w.replicas|
    then w
    else
      var c := w.calls[id];
      var (r, phase) := FailedWith(cfg, w.replicas[c.replica], why, w.now);
      SetPhase(SetReplica(w, c.replica, r), id, phase)
  }

  /** A script whose caller had given up reaches Redis with a reading of some earlier moment. */
  function OnStray(cfg: Settings, focus: string, w: World, e: Event): World
    requires cfg.Valid() && e.Stray?
  {
    if e.reading > w.now then w
    else
      var (w', ok) := RunKey(cfg, w, e.tenant, e.session, e.stage, e.reading, e.gone);
      Book(w', focus, e.tenant, e.stage, e.reading, ok, None)
  }

  function OnFallback(cfg: Settings, focus: string, w: World, id: nat): World {
    if id !in w.calls || !w.calls[id].phase.FallingBack? || w.calls[id].replica >= |w.replicas|
       || w.calls[id].replica >= |w.local| then w
    else
      var c := w.calls[id];
      var i := c.replica;
      var (r, o, phase) := FellBack(cfg, w.replicas[i], i, c, w.now);
      var w1 := SetReplica(w, i, r);
      var w2 := if c.tenant == focus && o != TenantLimited
                then w1.(local := w1.local[i := w1.local[i] + [Token(id, w.now)]]) else w1;
      SetPhase(w2, id, phase)
  }

  predicate Finished(phase: Phase) {
    phase.Returned? || phase.Raised?
  }

  function Step(cfg: Settings, focus: string, w: World, e: Event): World
    requires cfg.Valid()
  {
    match e
    case Begin(_, _, _) => OnBegin(w, e)
    case Enter(id) => OnEnter(cfg, w, id)
    case Resend(id) => OnResend(w, id)
    case RunScript(id, gone) => OnRunScript(cfg, focus, w, id, gone)
    case Settle(id) => OnSettle(w, id)
    case Fail(id, why) => OnFail(cfg, w, id, why)
    case Stray(_, _, _, _, _) => OnStray(cfg, focus, w, e)
    case Fallback(id) => OnFallback(cfg, focus, w, id)
    case Drop(id) => if id in w.calls && !Finished(w.calls[id].phase) then SetPhase(w, id, Raised(Dropped)) else w
    case Tick(ms) => w.(now := w.now + ms)
  }

  function After(cfg: Settings, focus: string, start: World, run: seq<Event>): World
    requires cfg.Valid()
  {
    if run == [] then start else Step(cfg, focus, After(cfg, focus, start, run[..|run| - 1]), run[|run| - 1])
  }

  /** A script on the tenant key of `focus` runs at most `lag` milliseconds after its reading was taken. */
  ghost predicate Timely(focus: string, w: World, e: Event, lag: int) {
    match e
    case RunScript(id, _) =>
      id in w.calls && w.calls[id].phase.Sent? && w.calls[id].tenant == focus && w.calls[id].phase.stage == TenantStage
      ==> w.now - w.calls[id].phase.reading <= lag
    case Stray(tenant, _, stage, reading, _) => tenant == focus && stage == TenantStage ==> w.now - reading <= lag
    case _ => true
  }

  ghost predicate TimelyRun(cfg: Settings, focus: string, start: World, run: seq<Event>, lag: int)
    requires cfg.Valid()
  {
    run != [] ==>
      var front := run[..|run| - 1];
      TimelyRun(cfg, focus, start, front, lag) && Timely(focus, After(cfg, focus, start, front), run[|run| - 1], lag)
  }

  // ---------------------------------------------------------------- the invariant

  function AsRequests(tokens: seq<Token>): (r: seq<Request>)
    ensures |r| == |tokens|
  {
    seq(|tokens|, i requires 0 <= i < |tokens| => Request(Seconds(tokens[i].at), 1))
  }

  lemma AsRequestsSnoc(tokens: seq<Token>, t: Token)
    ensures AsRequests(tokens + [t]) == AsRequests(tokens) + [Request(Seconds(t.at), 1)]
  {
  }

  /** The shared tenant bucket is what the scripts in the ledger made of it. */
  ghost predicate SharedAccounts(cfg: Settings, focus: string, w: World, lag: int)
    requires cfg.Valid()
  {
    var name, rate := TenantKey(cfg.prefix, focus), cfg.limits.For(focus).tenant;
    && InOrder(w.shared, ByRun) && Trails(w.shared, ByRun, lag)
    && (w.shared != [] ==> w.shared[|w.shared| - 1].ranAt <= w.now)
    && (name in w.store <==> w.shared != [])
    && (name in w.store ==> Sane(rate, TtlFor(cfg.limits.For(focus)), Some(w.store[name])))
    && Served(rate, w.shared, if name in w.store then Some(w.store[name].hash) else None)
  }

  /** A replica's fallback accounts for its ledger. */
  ghost predicate LocalAccounts(cfg: Settings, focus: string, r: Replica, tokens: seq<Token>, now: int) {
    var st := if r.fallback.Some? then r.fallback.value else EMPTY;
    TenantAccounts(cfg.limits, st, focus, AsRequests(tokens), Seconds(now))
  }

  /** A shared token, taken by the call on a reading of its own lifetime. */
  ghost predicate Backed(w: World, id: nat, charge: Charge)
    requires id in w.calls
  {
    && charge.source == Shared && w.calls[id].startedAt <= charge.reading <= charge.at <= w.now
    && Entry(Some(id), charge.at, charge.reading, true) in w.shared
  }

  ghost predicate PaidBacked(w: World, id: nat, paid: Option<Charge>)
    requires id in w.calls
  {
    paid.Some? ==> Backed(w, id, paid.value)
  }

  /** A call that has been let through, or is on its way with a shared tenant token, has its token in a ledger. */
  ghost predicate CallBooked(w: World, focus: string, id: nat) {
    id in w.calls ==>
      var c := w.calls[id];
      && id < w.nextId && c.replica < |w.replicas| && c.startedAt <= w.now
      && (c.phase.Sent? ==> c.startedAt <= c.phase.reading <= w.now)
      && (c.tenant == focus ==>
            match c.phase
            case Ready(stage, paid) => PaidBacked(w, id, paid) && (stage == SessionStage ==> paid.Some?)
            case Sent(stage, paid, _) => PaidBacked(w, id, paid) && (stage == SessionStage ==> paid.Some?)
            case Replied(stage, paid, granted) =>
              PaidBacked(w, id, paid) && (granted || stage == SessionStage ==> paid.Some?)
            case FallingBack => true
            case Returned(charge, end) => ReturnBacked(w, id, charge, end)
            case Raised(_) => true)
  }

  /** A call was let through on a shared token, or on a local one taken at the moment it returned. */
  ghost predicate ReturnBacked(w: World, id: nat, charge: Charge, end: int)
    requires id in w.calls
  {
    && end <= w.now
    && match charge.source
       case Shared => Backed(w, id, charge) && charge.at <= end
       case Local(i) => w.calls[id].startedAt <= charge.at == charge.reading == end && i < |w.local|
                        && Token(id, charge.at) in w.local[i]
  }

  ghost predicate Inv(cfg: Settings, focus: string, w: World, lag: int)
    requires cfg.Valid()
  {
    && SharedAccounts(cfg, focus, w, lag)
    && |w.local| == |w.replicas|
    && (forall i :: 0 <= i < |w.replicas| ==> LocalAccounts(cfg, focus, w.replicas[i], w.local[i], w.now))
    && (forall id :: id in w.calls ==> CallBooked(w, focus, id))
  }

  /** Changing the phase of one call and a breaker touches no bucket and no ledger. */
  ghost predicate SameBooks(w: World, w': World) {
    && w'.store == w.store && w'.shared == w.shared && w'.local == w.local && w'.now == w.now && w'.nextId == w.nextId
    && |w'.replicas| == |w.replicas|
    && forall i :: 0 <= i < |w.replicas| ==> w'.replicas[i].fallback == w.replicas[i].fallback
  }

  lemma SameBooksKeepInv(cfg: Settings, focus: string, w: World, w': World, id: nat, lag: int)
    requires cfg.Valid() && Inv(cfg, focus, w, lag) && SameBooks(w, w') && id in w'.calls && CallBooked(w', focus, id)
    requires w'.calls.Keys == w.calls.Keys + {id} && forall k :: k in w.calls && k != id ==> w'.calls[k] == w.calls[k]
    ensures Inv(cfg, focus, w', lag)
  {
    hide TenantAccounts, Served;
    forall k | k in w'.calls
      ensures CallBooked(w', focus, k)
    {
      if k != id {
        assert CallBooked(w, focus, k);
      }
    }
    forall i | 0 <= i < |w.replicas|
      ensures LocalAccounts(cfg, focus, w'.replicas[i], w'.local[i], w'.now)
    {
      assert LocalAccounts(cfg, focus, w.replicas[i], w.local[i], w.now);
    }
  }

  /** Only a tenant-stage script of `focus` itself touches the key of its tenant bucket. */
  lemma OnlyOwnScriptsTouch(cfg: Settings, focus: string, tenant: string, session: string, stage: Stage)
    ensures KeyName(cfg, tenant, session, stage) == TenantKey(cfg.prefix, focus)
            <==> stage == TenantStage && tenant == focus
  {
    TenantKeysAreDistinct(cfg.prefix, focus, tenant, session);
  }

  /** One more script on the tenant key, expired or not: the ledger still tells the state. */
  lemma LatestRuns(l: seq<Entry>, e: Entry, lag: int)
    requires InOrder(l, ByRun) && Trails(l, ByRun, lag) && (l != [] ==> l[|l| - 1].ranAt <= e.ranAt)
    requires e.ranAt - lag <= e.reading <= e.ranAt
    ensures InOrder(l + [e], ByRun) && Trails(l + [e], ByRun, lag)
  {
  }

  lemma OwnScriptAccounts(cfg: Settings, focus: string, w: World, session: string, reading: int, gone: bool,
                          id: Option<nat>, lag: int)
    requires cfg.Valid() && SharedAccounts(cfg, focus, w, lag) && lag <= HalfTtl(cfg.limits.For(focus))
    requires w.now - lag <= reading <= w.now
    ensures var (w', ok) := RunKey(cfg, w, focus, session, TenantStage, reading, gone);
            SharedAccounts(cfg, focus, Book(w', focus, focus, TenantStage, reading, ok, id), lag)
  {
    hide Script, Served, TtlFor, RefillsWithin, InRange, Earned, InOrder, Trails;
    var name, rate, ttl := TenantKey(cfg.prefix, focus), cfg.limits.For(focus).tenant, TtlFor(cfg.limits.For(focus));
    var key := if name in w.store then Some(w.store[name]) else None;
    var a := Access(w.now, reading, 1, gone && key.Some? && key.value.expiresAtMs <= w.now);
    TtlCoversBothBuckets(cfg.limits.For(focus));
    LongerCovers(rate, HalfTtl(cfg.limits.For(focus)), 1000 * ttl - lag);
    TouchIgnoresExpiry(rate, ttl, key, a, lag);
    var h := if key.Some? then Some(key.value.hash) else None;
    var e := Entry(id, w.now, reading, Script(rate, h, reading, 1).1);
    ServedSnoc(rate, w.shared, h, e);
    LatestRuns(w.shared, e, lag);
  }

  lemma RunKeyAccounts(cfg: Settings, focus: string, w: World, tenant: string, session: string, stage: Stage,
                       reading: int, gone: bool, id: Option<nat>, lag: int)
    requires cfg.Valid() && SharedAccounts(cfg, focus, w, lag) && lag <= HalfTtl(cfg.limits.For(focus))
    requires reading <= w.now && (stage == TenantStage && tenant == focus ==> w.now - lag <= reading)
    ensures var (w', ok) := RunKey(cfg, w, tenant, session, stage, reading, gone);
            SharedAccounts(cfg, focus, Book(w', focus, tenant, stage, reading, ok, id), lag)
  {
    hide Touch, Served, Sane;
    OnlyOwnScriptsTouch(cfg, focus, tenant, session, stage);
    if stage == TenantStage && tenant == focus {
      OwnScriptAccounts(cfg, focus, w, session, reading, gone, id, lag);
    }
  }

  /** The ledgers grow, the fallbacks stay. */
  ghost predicate BooksGrow(w: World, w': World) {
    && w.shared <= w'.shared && w.now == w'.now && |w'.replicas| == |w.replicas|
    && |w'.local| == |w.local| && (forall i :: 0 <= i < |w.local| ==> w.local[i] <= w'.local[i])
  }

  lemma BookedStaysBooked(w: World, w': World, focus: string, id: nat)
    requires BooksGrow(w, w') && w.nextId <= w'.nextId && CallBooked(w, focus, id)
    requires id in w.calls && id in w'.calls && w'.calls[id] == w.calls[id]
    ensures CallBooked(w', focus, id)
  {
    assert forall t :: t in w.shared ==> t in w'.shared;
    assert forall i, t :: 0 <= i < |w.local| && t in w.local[i] ==> t in w'.local[i];
  }

  lemma ScriptIsBooked(cfg: Settings, focus: string, w: World, id: nat, gone: bool)
    requires cfg.Valid() && id in w.calls && w.calls[id].phase.Sent? && CallBooked(w, focus, id)
    ensures CallBooked(OnRunScript(cfg, focus, w, id, gone), focus, id)
  {
    hide Touch;
    var w' := OnRunScript(cfg, focus, w, id, gone);
    assert forall t :: t in w.shared ==> t in w'.shared;
  }

  lemma RunScriptKeepsInv(cfg: Settings, focus: string, w: World, id: nat, gone: bool, lag: int)
    requires cfg.Valid() && Inv(cfg, focus, w, lag) && lag <= HalfTtl(cfg.limits.For(focus))
    requires Timely(focus, w, RunScript(id, gone), lag)
    ensures Inv(cfg, focus, OnRunScript(cfg, focus, w, id, gone), lag)
  {
    hide Touch, Served, TenantAccounts, Backed;
    var w' := OnRunScript(cfg, focus, w, id, gone);
    if id in w.calls && w.calls[id].phase.Sent? {
      var c := w.calls[id];
      assert CallBooked(w, focus, id);
      RunKeyAccounts(cfg, focus, w, c.tenant, c.session, c.phase.stage, c.phase.reading, gone, Some(id), lag);
      assert BooksGrow(w, w');
      forall k | k in w'.calls
        ensures CallBooked(w', focus, k)
      {
        if k != id {
          BookedStaysBooked(w, w', focus, k);
        } else {
          ScriptIsBooked(cfg, focus, w, id, gone);
        }
      }
    }
  }

  lemma StrayKeepsInv(cfg: Settings, focus: string, w: World, e: Event, lag: int)
    requires cfg.Valid() && Inv(cfg, focus, w, lag) && lag <= HalfTtl(cfg.limits.For(focus))
    requires e.Stray? && Timely(focus, w, e, lag)
    ensures Inv(cfg, focus, OnStray(cfg, focus, w, e), lag)
  {
    hide Touch, Served, TenantAccounts, Backed;
    var w' := OnStray(cfg, focus, w, e);
    if e.reading <= w.now {
      RunKeyAccounts(cfg, focus, w, e.tenant, e.session, e.stage, e.reading, e.gone, None, lag);
      assert BooksGrow(w, w');
      forall k | k in w'.calls
        ensures CallBooked(w', focus, k)
      {
        BookedStaysBooked(w, w', focus, k);
      }
    }
  }

  lemma FallbackAccounts(cfg: Settings, focus: string, w: World, id: nat, lag: int)
    requires cfg.Valid() && Inv(cfg, focus, w, lag) && id in w.calls && w.calls[id].phase.FallingBack?
    requires w.calls[id].replica < |w.replicas|
    ensures var w' := OnFallback(cfg, focus, w, id);
            |w'.local| == |w'.replicas| == |w.replicas|
            && forall j :: 0 <= j < |w'.replicas| ==> LocalAccounts(cfg, focus, w'.replicas[j], w'.local[j], w'.now)
  {
    hide AcquireBoth, TenantAccounts, Served, Backed;
    var w' := OnFallback(cfg, focus, w, id);
    var c := w.calls[id];
    var i := c.replica;
    var st := if w.replicas[i].fallback.Some? then w.replicas[i].fallback.value else EMPTY;
    assert LocalAccounts(cfg, focus, w.replicas[i], w.local[i], w.now);
    CallAccounts(cfg.limits, st, Call(c.tenant, c.session, Seconds(w.now)), focus, AsRequests(w.local[i]));
    AsRequestsSnoc(w.local[i], Token(id, w.now));
    forall j | 0 <= j < |w'.replicas|
      ensures LocalAccounts(cfg, focus, w'.replicas[j], w'.local[j], w'.now)
    {
      assert LocalAccounts(cfg, focus, w.replicas[j], w.local[j], w.now);
    }
  }

  lemma FallbackIsBooked(cfg: Settings, focus: string, w: World, id: nat)
    requires cfg.Valid() && id in w.calls && CallBooked(w, focus, id)
    ensures CallBooked(OnFallback(cfg, focus, w, id), focus, id)
  {
    hide Take;
  }

  lemma FallbackKeepsInv(cfg: Settings, focus: string, w: World, id: nat, lag: int)
    requires cfg.Valid() && Inv(cfg, focus, w, lag)
    ensures Inv(cfg, focus, OnFallback(cfg, focus, w, id), lag)
  {
    hide AcquireBoth, TenantAccounts, Served, Backed;
    var w' := OnFallback(cfg, focus, w, id);
    if id in w.calls && w.calls[id].phase.FallingBack? && w.calls[id].replica < |w.replicas| {
      FallbackAccounts(cfg, focus, w, id, lag);
      assert BooksGrow(w, w');
      forall k | k in w'.calls
        ensures CallBooked(w', focus, k)
      {
        if k != id {
          BookedStaysBooked(w, w', focus, k);
        } else {
          FallbackIsBooked(cfg, focus, w, id);
        }
      }
    }
  }

  lemma BeginKeepsInv(cfg: Settings, focus: string, w: World, e: Event, lag: int)
    requires cfg.Valid() && Inv(cfg, focus, w, lag) && e.Begin?
    ensures Inv(cfg, focus, OnBegin(w, e), lag)
  {
    hide TenantAccounts, Served;
    var w' := OnBegin(w, e);
    if e.replica < |w.replicas| {
      assert w.nextId !in w.calls;
      assert BooksGrow(w, w');
      forall k | k in w'.calls
        ensures CallBooked(w', focus, k)
      {
        if k != w.nextId {
          BookedStaysBooked(w, w', focus, k);
        }
      }
      forall i | 0 <= i < |w.replicas|
        ensures LocalAccounts(cfg, focus, w'.replicas[i], w'.local[i], w'.now)
      {
        assert LocalAccounts(cfg, focus, w.replicas[i], w.local[i], w.now);
      }
    }
  }

  lemma TickKeepsInv(cfg: Settings, focus: string, w: World, ms: nat, lag: int)
    requires cfg.Valid() && Inv(cfg, focus, w, lag)
    ensures Inv(cfg, focus, w.(now := w.now + ms), lag)
  {
    hide Served, Accounts;
    var w' := w.(now := w.now + ms);
    SecondsDifference(w.now, w'.now);
    forall i | 0 <= i < |w.replicas|
      ensures LocalAccounts(cfg, focus, w'.replicas[i], w'.local[i], w'.now)
    {
      assert LocalAccounts(cfg, focus, w.replicas[i], w.local[i], w.now);
    }
    forall k | k in w'.calls
      ensures CallBooked(w', focus, k)
    {
      assert CallBooked(w, focus, k);
    }
  }

  /** The steps that only move one call along: what the call may rely on afterwards. */
  lemma MovedIsBooked(cfg: Settings, focus: string, w: World, e: Event)
    requires cfg.Valid() && Moves(e) && e.id in w.calls && CallBooked(w, focus, e.id)
    ensures CallBooked(Step(cfg, focus, w, e), focus, e.id)
  {
  }

  predicate Moves(e: Event) {
    e.Enter? || e.Resend? || e.Settle? || e.Fail? || e.Drop?
  }

  lemma MovesKeepBooks(cfg: Settings, focus: string, w: World, e: Event)
    requires cfg.Valid() && Moves(e) && e.id in w.calls
    ensures var w' := Step(cfg, focus, w, e);
            SameBooks(w, w') && w'.calls.Keys == w.calls.Keys
            && forall k :: k in w.calls && k != e.id ==> w'.calls[k] == w.calls[k]
  {
  }

  lemma MoveKeepsInv(cfg: Settings, focus: string, w: World, e: Event, lag: int)
    requires cfg.Valid() && Inv(cfg, focus, w, lag) && Moves(e)
    ensures Inv(cfg, focus, Step(cfg, focus, w, e), lag)
  {
    if e.id in w.calls {
      hide CallBooked, SharedAccounts, LocalAccounts, SameBooks, Step;
      assert CallBooked(w, focus, e.id);
      MovedIsBooked(cfg, focus, w, e);
      MovesKeepBooks(cfg, focus, w, e);
      SameBooksKeepInv(cfg, focus, w, Step(cfg, focus, w, e), e.id, lag);
    }
  }

  lemma StepKeepsInv(cfg: Settings, focus: string, w: World, e: Event, lag: int)
    requires cfg.Valid() && Inv(cfg, focus, w, lag) && lag <= HalfTtl(cfg.limits.For(focus)) && Timely(focus, w, e, lag)
    ensures Inv(cfg, focus, Step(cfg, focus, w, e), lag)
  {
    hide Inv, OnBegin, OnRunScript, OnStray, OnFallback, Timely;
    match e
    case Begin(_, _, _) => BeginKeepsInv(cfg, focus, w, e, lag);
    case RunScript(id, gone) => RunScriptKeepsInv(cfg, focus, w, id, gone, lag);
    case Stray(_, _, _, _, _) => StrayKeepsInv(cfg, focus, w, e, lag);
    case Fallback(id) => FallbackKeepsInv(cfg, focus, w, id, lag);
    case Tick(ms) => TickKeepsInv(cfg, focus, w, ms, lag);
    case _ => MoveKeepsInv(cfg, focus, w, e, lag);
  }

  lemma StepKeepsReplicas(cfg: Settings, focus: string, w: World, e: Event)
    requires cfg.Valid()
    ensures |Step(cfg, focus, w, e).replicas| == |w.replicas|
  {
  }

  lemma InitialInv(cfg: Settings, focus: string, n: nat, t0: int, lag: int)
    requires cfg.Valid()
    ensures Inv(cfg, focus, Initial(n, t0), lag)
  {
  }

  lemma {:induction false} RunKeepsInv(cfg: Settings, focus: string, n: nat, t0: int, run: seq<Event>, lag: int)
    requires cfg.Valid() && lag <= HalfTtl(cfg.limits.For(focus)) && TimelyRun(cfg, focus, Initial(n, t0), run, lag)
    ensures Inv(cfg, focus, After(cfg, focus, Initial(n, t0), run), lag)
    ensures |After(cfg, focus, Initial(n, t0), run).replicas| == n
  {
    hide Inv, Step, Timely;
    if run == [] {
      InitialInv(cfg, focus, n, t0, lag);
    } else {
      var before := run[..|run| - 1];
      RunKeepsInv(cfg, focus, n, t0, before, lag);
      StepKeepsInv(cfg, focus, After(cfg, focus, Initial(n, t0), before), run[|run| - 1], lag);
      StepKeepsReplicas(cfg, focus, After(cfg, focus, Initial(n, t0), before), run[|run| - 1]);
    }
  }
}
