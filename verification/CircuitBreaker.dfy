/** The circuit breaker of rate_limit/redis_limiter.py. */
module CircuitBreaker {
  // The admission section and the two recording sections run under the lock and are atomic; any number of calls are in
  // flight between them.

  import opened Prelude

  datatype State = CLOSED | HALF_OPEN | OPEN

  datatype Config = Config(threshold: int, openDuration: real, maxProbes: int, callTimeout: real) {
    predicate Valid() {
      threshold >= 1 && openDuration > 0.0 && maxProbes >= 1 && callTimeout > 0.0
    }
  }

  /** The fields of the breaker. */
  datatype Breaker = Breaker(
    state: State,
    failures: int,
    openedAt: Option<real>,
    inFlight: int,
    lastTransition: Option<(State, State)>)

  const INITIAL := Breaker(CLOSED, 0, None, 0, None)

  function Transition(b: Breaker, to: State, now: real): Breaker {
    if to == b.state then b
    else
      var b' := b.(lastTransition := Some((b.state, to)), state := to);
      match to
      case OPEN => b'.(openedAt := Some(now), inFlight := 0)
      case CLOSED => b'.(failures := 0, openedAt := None, inFlight := 0)
      case HALF_OPEN => b'.(inFlight := 0)
  }

  function Promote(cfg: Config, b: Breaker, now: real): Breaker {
    if b.state == OPEN && b.openedAt.Some? && now - b.openedAt.value >= cfg.openDuration
    then Transition(b, HALF_OPEN, now)
    else b
  }

  datatype Admission = Admitted | BreakerIsOpen | ProbeBudgetExhausted

  /** The first lock section of `call`. */
  function Admit(cfg: Config, b: Breaker, now: real): (Breaker, Admission) {
    var p := Promote(cfg, b, now);
    match p.state
    case OPEN => (p, BreakerIsOpen)
    case HALF_OPEN =>
      if p.inFlight >= cfg.maxProbes then (p, ProbeBudgetExhausted)
      else (p.(inFlight := p.inFlight + 1), Admitted)
    case CLOSED => (p, Admitted)
  }

  function RecordSuccess(b: Breaker, now: real): Breaker {
    match b.state
    case HALF_OPEN => Transition(b, CLOSED, now)
    case CLOSED => b.(failures := 0)
    case OPEN => b
  }

  function RecordFailure(cfg: Config, b: Breaker, now: real): Breaker {
    match b.state
    case HALF_OPEN => Transition(b, OPEN, now)
    case CLOSED =>
      var b' := b.(failures := b.failures + 1);
      if b'.failures >= cfg.threshold then Transition(b', OPEN, now) else b'
    case OPEN => b.(openedAt := Some(now))
  }

  class RedisCircuitBreaker {
    const cfg: Config
    var state: State
    var failures: int
    var openedAt: Option<real>
    var inFlight: int
    var lastTransition: Option<(State, State)>

    ghost function Value(): Breaker
      reads this
    {
      Breaker(state, failures, openedAt, inFlight, lastTransition)
    }

    constructor Start(cfg: Config)
      ensures this.cfg == cfg && Value() == INITIAL
    {
      this.cfg := cfg;
      state, failures, openedAt, inFlight, lastTransition := CLOSED, 0, None, 0, None;
    }

    /** The constructor's four checks, in order. */
    static method Create(threshold: int, openDuration: real, maxProbes: int, callTimeoutMs: int)
      returns (r: Result<RedisCircuitBreaker, string>)
      ensures r.Ok? <==> Config(threshold, openDuration, maxProbes, callTimeoutMs as real / 1000.0).Valid()
      ensures r.Ok? ==> fresh(r.value) && r.value.Value() == INITIAL
                        && r.value.cfg == Config(threshold, openDuration, maxProbes, callTimeoutMs as real / 1000.0)
    {
      if threshold < 1 {
        return Err("error_threshold must be >= 1");
      }
      if openDuration <= 0.0 {
        return Err("open_duration_sec must be > 0");
      }
      if maxProbes < 1 {
        return Err("half_open_max_calls must be >= 1");
      }
      if callTimeoutMs <= 0 {
        return Err("call_timeout_ms must be > 0");
      }
      var cfg := Config(threshold, openDuration, maxProbes, callTimeoutMs as real / 1000.0);
      var b := new RedisCircuitBreaker.Start(cfg);
      return Ok(b);
    }

    method MoveTo(to: State, now: real)
      modifies this
      ensures Value() == Transition(old(Value()), to, now)
    {
      if to == state {
        return;
      }
      lastTransition := Some((state, to));
      state := to;
      if to == OPEN {
        openedAt := Some(now);
        inFlight := 0;
      } else if to == CLOSED {
        failures := 0;
        openedAt := None;
        inFlight := 0;
      } else {
        inFlight := 0;
      }
    }

    method MaybePromoteToHalfOpen(now: real)
      modifies this
      ensures Value() == Promote(cfg, old(Value()), now)
    {
      if state != OPEN {
        return;
      }
      if openedAt == None {
        return;
      }
      if now - openedAt.value >= cfg.openDuration {
        MoveTo(HALF_OPEN, now);
      }
    }

    method AdmitCall(now: real) returns (r: Admission)
      modifies this
      ensures (Value(), r) == Admit(cfg, old(Value()), now)
    {
      MaybePromoteToHalfOpen(now);
      if state == OPEN {
        return BreakerIsOpen;
      }
      if state == HALF_OPEN {
        if inFlight >= cfg.maxProbes {
          return ProbeBudgetExhausted;
        }
        inFlight := inFlight + 1;
      }
      return Admitted;
    }

    method Succeeded(now: real)
      modifies this
      ensures Value() == RecordSuccess(old(Value()), now)
    {
      if state == HALF_OPEN {
        MoveTo(CLOSED, now);
      } else if state == CLOSED {
        failures := 0;
      }
    }

    method Failed(now: real)
      modifies this
      ensures Value() == RecordFailure(cfg, old(Value()), now)
    {
      if state == HALF_OPEN {
        MoveTo(OPEN, now);
        return;
      }
      if state == CLOSED {
        failures := failures + 1;
        if failures >= cfg.threshold {
          MoveTo(OPEN, now);
        }
        return;
      }
      openedAt := Some(now);
    }
  }

  // ---------------------------------------------------------------- the interleaved system

  /** A call between its two sections. Probes carry the number of the HALF_OPEN window that admitted them. */
  datatype Pending = Pending(admittedAt: real, window: Option<nat>)

  /** The breaker, the calls in flight and the clock, with some history: the number of the latest HALF_OPEN
      window and when it began, how many of its probes were cancelled, the outcomes recorded since CLOSED
      was last entered, and when the latest failure was recorded. */
  datatype System = System(
    b: Breaker,
    pending: map<nat, Pending>,
    nextId: nat,
    now: real,
    window: nat,
    promotedAt: real,
    cancelled: nat,
    recorded: seq<bool>,
    lastFailure: Option<real>)

  const START := System(INITIAL, map[], 0, 0.0, 0, 0.0, 0, [], None)

  /** A call arriving, its two recording sections, its cancellation (which skips both, because the
      handler catches `Exception` only), and time passing. An event naming no call in flight is void. */
  datatype Event = Arrive | Succeed(id: nat) | Fail(id: nat) | Cancel(id: nat) | Tick(dt: real)

  function Step(cfg: Config, s: System, e: Event): System {
    match e
    case Arrive =>
      var (b, r) := Admit(cfg, s.b, s.now);
      var promoted := s.b.state == OPEN && b.state == HALF_OPEN;
      var s1 := if promoted then s.(b := b, window := s.window + 1, promotedAt := s.now, cancelled := 0)
        else s.(b := b);
      if r != Admitted then s1
      else
        var p := Pending(s.now, if b.state == HALF_OPEN then Some(s1.window) else None);
        s1.(pending := s.pending[s.nextId := p], nextId := s.nextId + 1)
    case Succeed(id) =>
      if id !in s.pending then s
      else
        var b := RecordSuccess(s.b, s.now);
        s.(b := b, pending := s.pending - {id}, recorded := if s.b.state == HALF_OPEN then [] else s.recorded + [true])
    case Fail(id) =>
      if id !in s.pending then s
      else
        var b := RecordFailure(cfg, s.b, s.now);
        s.(b := b, pending := s.pending - {id}, recorded := s.recorded + [false], lastFailure := Some(s.now))
    case Cancel(id) =>
      if id !in s.pending then s
      else
        s.(pending := s.pending - {id},
           cancelled := s.cancelled + if s.pending[id].window == Some(s.window) then 1 else 0)
    case Tick(dt) =>
      if dt < 0.0 then s else s.(now := s.now + dt)
  }

  function From(cfg: Config, s: System, run: seq<Event>): System {
    if run == [] then s else Step(cfg, From(cfg, s, run[..|run| - 1]), run[|run| - 1])
  }

  function After(cfg: Config, run: seq<Event>): System {
    From(cfg, START, run)
  }

  lemma AfterSnoc(cfg: Config, run: seq<Event>, e: Event)
    ensures After(cfg, run + [e]) == Step(cfg, After(cfg, run), e)
  {
    assert (run + [e])[..|run|] == run;
  }

  function Probes(pending: map<nat, Pending>, window: nat): set<nat> {
    set id | id in pending && pending[id].window == Some(window)
  }

  function TrailingFailures(recorded: seq<bool>): nat {
    if recorded == [] || recorded[|recorded| - 1] then 0 else 1 + TrailingFailures(recorded[..|recorded| - 1])
  }

  lemma TrailingAfter(recorded: seq<bool>)
    ensures TrailingFailures(recorded + [false]) == 1 + TrailingFailures(recorded)
    ensures TrailingFailures(recorded + [true]) == 0 && TrailingFailures([]) == 0
  {
    assert (recorded + [false])[..|recorded|] == recorded;
  }

  /** What each state of the breaker means, in terms of the history. */
  ghost predicate StateMeaning(cfg: Config, s: System) {
    match s.b.state
    case CLOSED =>
      && s.b.failures == TrailingFailures(s.recorded) < cfg.threshold
      && s.b.openedAt == None && s.b.inFlight == 0
    case OPEN =>
      && s.b.failures == cfg.threshold && s.b.inFlight == 0
      && s.b.openedAt.Some? && s.b.openedAt == s.lastFailure && s.b.openedAt.value <= s.now
    case HALF_OPEN =>
      && s.b.failures == cfg.threshold
      && s.b.openedAt.Some? && s.b.openedAt == s.lastFailure
      && s.promotedAt - s.b.openedAt.value >= cfg.openDuration
      && 1 <= s.b.inFlight <= cfg.maxProbes
      && s.b.inFlight == |Probes(s.pending, s.window)| + s.cancelled
  }

  ghost predicate Inv(cfg: Config, s: System) {
    && StateMeaning(cfg, s)
    && s.promotedAt <= s.now
    && forall id :: id in s.pending ==>
         && id < s.nextId
         && s.pending[id].admittedAt <= s.now
         && (s.pending[id].window.Some? ==> s.pending[id].window.value <= s.window)
         && (s.pending[id].window == Some(s.window) ==> s.promotedAt <= s.pending[id].admittedAt)
  }

  lemma RemoveProbe(pending: map<nat, Pending>, id: nat, window: nat)
    requires id in pending
    ensures |Probes(pending - {id}, window)|
         == |Probes(pending, window)| - if pending[id].window == Some(window) then 1 else 0
  {
    if pending[id].window == Some(window) {
      assert Probes(pending - {id}, window) == Probes(pending, window) - {id};
    } else {
      assert Probes(pending - {id}, window) == Probes(pending, window);
    }
  }

  lemma AddProbe(pending: map<nat, Pending>, id: nat, p: Pending, window: nat)
    requires id !in pending
    ensures |Probes(pending[id := p], window)| == |Probes(pending, window)| + if p.window == Some(window) then 1 else 0
  {
    if p.window == Some(window) {
      assert Probes(pending[id := p], window) == Probes(pending, window) + {id};
    } else {
      assert Probes(pending[id := p], window) == Probes(pending, window);
    }
  }

  lemma ArriveKeepsInv(cfg: Config, s: System)
    requires cfg.Valid() && Inv(cfg, s)
    ensures Inv(cfg, Step(cfg, s, Arrive))
  {
    var s' := Step(cfg, s, Arrive);
    assert s.nextId !in s.pending;
    if s'.nextId != s.nextId {
      AddProbe(s.pending, s.nextId, s'.pending[s.nextId], s'.window);
      if s'.window != s.window {
        assert Probes(s.pending, s'.window) == {};
      }
    }
  }

  lemma FailKeepsMeaning(cfg: Config, s: System, id: nat)
    requires cfg.Valid() && StateMeaning(cfg, s) && id in s.pending
    ensures StateMeaning(cfg, Step(cfg, s, Fail(id)))
  {
    var s' := Step(cfg, s, Fail(id));
    match s.b.state
    case CLOSED =>
      TrailingAfter(s.recorded);
      assert s'.b.failures == s.b.failures + 1;
      assert s'.recorded == s.recorded + [false];
    case HALF_OPEN =>
      assert s'.b.state == OPEN && s'.b.openedAt == Some(s.now);
    case OPEN =>
      assert s'.b.state == OPEN && s'.b.openedAt == Some(s.now);
  }

  /** Recording keeps the part of the invariant about the calls still in flight. */
  lemma RemovalKeepsInv(cfg: Config, s: System, s': System, id: nat)
    requires Inv(cfg, s) && StateMeaning(cfg, s') && s'.pending == s.pending - {id}
    requires s'.now == s.now && s'.promotedAt == s.promotedAt && s'.nextId == s.nextId && s'.window == s.window
    ensures Inv(cfg, s')
  {
  }

  lemma StepKeepsInv(cfg: Config, s: System, e: Event)
    requires cfg.Valid() && Inv(cfg, s)
    ensures Inv(cfg, Step(cfg, s, e))
  {
    match e
    case Arrive => ArriveKeepsInv(cfg, s);
    case Succeed(id) =>
      TrailingAfter(s.recorded);
    case Fail(id) =>
      if id in s.pending {
        FailKeepsMeaning(cfg, s, id);
        RemovalKeepsInv(cfg, s, Step(cfg, s, e), id);
      }
    case Cancel(id) =>
      if id in s.pending {
        RemoveProbe(s.pending, id, s.window);
      }
    case Tick(dt) =>
  }

  lemma {:induction false} FromKeepsInv(cfg: Config, s: System, run: seq<Event>)
    requires cfg.Valid() && Inv(cfg, s)
    ensures Inv(cfg, From(cfg, s, run))
  {
    hide Inv, Step;
    if run != [] {
      FromKeepsInv(cfg, s, run[..|run| - 1]);
      StepKeepsInv(cfg, From(cfg, s, run[..|run| - 1]), run[|run| - 1]);
    }
  }

  /** In every reachable state, cancellations included: CLOSED has fewer failures than the threshold, exactly
      the trailing run of failures recorded since CLOSED was entered; OPEN and HALF_OPEN have exactly the
      threshold and remember the latest failure of the open period; HALF_OPEN has a counter within 1..max
      that counts the window's pending and cancelled probes. */
  lemma BreakerHistory(cfg: Config, run: seq<Event>)
    requires cfg.Valid()
    ensures Inv(cfg, After(cfg, run))
  {
    FromKeepsInv(cfg, START, run);
  }

  // ---------------------------------------------------------------- what the breaker does, told by its history

  /** The open period since the latest failure is over. */
  predicate Cooled(cfg: Config, s: System) {
    s.lastFailure.Some? && s.now - s.lastFailure.value >= cfg.openDuration
  }

  /** Whether a call that arrives now may start: always while CLOSED, after cooling while OPEN, and while HALF_OPEN as
      long as fewer than `maxProbes` of the window's probes are pending or cancelled. */
  predicate MayStart(cfg: Config, s: System) {
    match s.b.state
    case CLOSED => true
    case OPEN => Cooled(cfg, s)
    case HALF_OPEN => |Probes(s.pending, s.window)| + s.cancelled < cfg.maxProbes
  }

  lemma StateChangesAt(cfg: Config, s: System, e: Event)
    requires cfg.Valid() && Inv(cfg, s)
    ensures Step(cfg, s, e).b.state
         == match s.b.state
            case OPEN => if e.Arrive? && Cooled(cfg, s) then HALF_OPEN else OPEN
            case HALF_OPEN =>
              if e.Succeed? && e.id in s.pending then CLOSED
              else if e.Fail? && e.id in s.pending then OPEN
              else HALF_OPEN
            case CLOSED =>
              if e.Fail? && e.id in s.pending && TrailingFailures(s.recorded) + 1 == cfg.threshold then OPEN else CLOSED
    ensures Step(cfg, s, e).b.lastTransition
         == if Step(cfg, s, e).b.state == s.b.state then s.b.lastTransition
            else Some((s.b.state, Step(cfg, s, e).b.state))
  {
  }

  lemma CallsInFlightAt(cfg: Config, s: System, e: Event)
    requires cfg.Valid() && Inv(cfg, s)
    ensures Step(cfg, s, e).pending.Keys
         == match e
            case Arrive => s.pending.Keys + if MayStart(cfg, s) then {s.nextId} else {}
            case Succeed(id) => s.pending.Keys - {id}
            case Fail(id) => s.pending.Keys - {id}
            case Cancel(id) => s.pending.Keys - {id}
            case Tick(_) => s.pending.Keys
    ensures Step(cfg, s, e).nextId == s.nextId + if e.Arrive? && MayStart(cfg, s) then 1 else 0
  {
  }

  /** Over every run, how the state changes: OPEN is left only for HALF_OPEN, by an arrival after cooling; HALF_OPEN by
      the first result of a pending call, for CLOSED or for OPEN; CLOSED only for OPEN, by the failure that makes
      `threshold` in a row. */
  lemma StateChanges(cfg: Config, run: seq<Event>, e: Event)
    requires cfg.Valid()
    ensures var s := After(cfg, run);
            After(cfg, run + [e]).b.state ==
              match s.b.state
              case OPEN => if e.Arrive? && Cooled(cfg, s) then HALF_OPEN else OPEN
              case HALF_OPEN =>
                if e.Succeed? && e.id in s.pending then CLOSED
                else if e.Fail? && e.id in s.pending then OPEN
                else HALF_OPEN
              case CLOSED =>
                if e.Fail? && e.id in s.pending && TrailingFailures(s.recorded) + 1 == cfg.threshold then OPEN
                else CLOSED
    ensures var b, b' := After(cfg, run).b, After(cfg, run + [e]).b;
            b'.lastTransition == if b'.state == b.state then b.lastTransition else Some((b.state, b'.state))
  {
    hide After, Step;
    AfterSnoc(cfg, run, e);
    BreakerHistory(cfg, run);
    StateChangesAt(cfg, After(cfg, run), e);
  }

  /** Over every run, the calls in flight: an arrival that may start joins them, a result or a cancellation takes its
      call away. */
  lemma CallsInFlight(cfg: Config, run: seq<Event>, e: Event)
    requires cfg.Valid()
    ensures var s := After(cfg, run);
            After(cfg, run + [e]).pending.Keys ==
              match e
              case Arrive => s.pending.Keys + if MayStart(cfg, s) then {s.nextId} else {}
              case Succeed(id) => s.pending.Keys - {id}
              case Fail(id) => s.pending.Keys - {id}
              case Cancel(id) => s.pending.Keys - {id}
              case Tick(_) => s.pending.Keys
  {
    hide After, Step, MayStart;
    AfterSnoc(cfg, run, e);
    BreakerHistory(cfg, run);
    CallsInFlightAt(cfg, After(cfg, run), e);
  }

  lemma {:induction false} LastFailureStays(cfg: Config, s: System, later: seq<Event>)
    requires cfg.Valid() && s.lastFailure.Some? && s.lastFailure.value <= s.now
    ensures var s' := From(cfg, s, later);
            s'.lastFailure.Some? && s.lastFailure.value <= s'.lastFailure.value <= s'.now && s.now <= s'.now
  {
    hide Admit, RecordSuccess, RecordFailure;
    if later != [] {
      LastFailureStays(cfg, s, later[..|later| - 1]);
    }
  }

  /** Over every run: from an open breaker no call starts, and it stays open, until `openDuration` after the latest
      failure, whatever is recorded in the meantime. */
  lemma {:induction false} NothingStartsWhileCooling(cfg: Config, run: seq<Event>, later: seq<Event>)
    requires cfg.Valid() && After(cfg, run).b.state == OPEN
    requires var s, s' := After(cfg, run), From(cfg, After(cfg, run), later);
             s.lastFailure.Some? && s'.now - s.lastFailure.value < cfg.openDuration
    ensures var s, s' := After(cfg, run), From(cfg, After(cfg, run), later);
            s'.b.state == OPEN && s'.pending.Keys <= s.pending.Keys && s'.nextId == s.nextId
  {
    hide Inv, Admit, RecordSuccess, RecordFailure;
    if later != [] {
      var s, front, e := After(cfg, run), later[..|later| - 1], later[|later| - 1];
      var mid := From(cfg, s, front);
      BreakerHistory(cfg, run);
      OpenRemembers(cfg, s);
      LastFailureStays(cfg, s, front);
      assert mid.now <= Step(cfg, mid, e).now;
      NothingStartsWhileCooling(cfg, run, front);
      FromKeepsInv(cfg, s, front);
      StateChangesAt(cfg, mid, e);
      CallsInFlightAt(cfg, mid, e);
    }
  }

  lemma OpenRemembers(cfg: Config, s: System)
    requires Inv(cfg, s) && s.b.state == OPEN
    ensures s.lastFailure.Some? && s.lastFailure.value <= s.now
  {
  }

  /** While OPEN a call is admitted iff `openDuration` has passed since the latest recorded failure. */
  lemma OpenAdmitsAfterCooling(cfg: Config, run: seq<Event>)
    requires cfg.Valid() && After(cfg, run).b.state == OPEN
    ensures var s := After(cfg, run);
            && s.lastFailure.Some?
            && (Admit(cfg, s.b, s.now).1 == Admitted <==> s.now - s.lastFailure.value >= cfg.openDuration)
  {
    BreakerHistory(cfg, run);
  }

  // ---------------------------------------------------------------- no wedge without cancellation

  ghost predicate Uncancelled(run: seq<Event>) {
    forall i :: 0 <= i < |run| ==> !run[i].Cancel?
  }

  lemma {:induction false} NothingCancelled(cfg: Config, run: seq<Event>)
    requires Uncancelled(run)
    ensures After(cfg, run).cancelled == 0
  {
    if run != [] {
      NothingCancelled(cfg, run[..|run| - 1]);
    }
  }

  /** Without cancellation HALF_OPEN always has a pending probe of its own window, the counter counts exactly
      those probes, and whichever pending call finishes first ends the window. */
  lemma HalfOpenNeverWedges(cfg: Config, run: seq<Event>)
    requires cfg.Valid() && Uncancelled(run) && After(cfg, run).b.state == HALF_OPEN
    ensures var s := After(cfg, run);
            && s.b.inFlight == |Probes(s.pending, s.window)|
            && (exists id :: id in Probes(s.pending, s.window))
            && forall id :: id in s.pending ==>
                 && Step(cfg, s, Succeed(id)).b.state == CLOSED
                 && Step(cfg, s, Fail(id)).b.state == OPEN
  {
    BreakerHistory(cfg, run);
    NothingCancelled(cfg, run);
    var s := After(cfg, run);
    assert s.b.inFlight == |Probes(s.pending, s.window)|;
    assert Probes(s.pending, s.window) != {};
    FirstResultEndsWindow(cfg, s);
  }

  lemma FirstResultEndsWindow(cfg: Config, s: System)
    requires s.b.state == HALF_OPEN
    ensures forall id :: id in s.pending ==>
              && Step(cfg, s, Succeed(id)).b.state == CLOSED
              && Step(cfg, s, Fail(id)).b.state == OPEN
  {
  }

  /** With cancellation: an exhausted budget with no probe left to resolve it arises exactly when every probe
      of the window was cancelled. A stale call may still be pending then, and end the window. */
  lemma BudgetLostIffAllProbesCancelled(cfg: Config, run: seq<Event>)
    requires cfg.Valid() && After(cfg, run).b.state == HALF_OPEN
    ensures var s := After(cfg, run);
            s.b.inFlight == cfg.maxProbes && Probes(s.pending, s.window) == {} <==> s.cancelled == cfg.maxProbes
  {
    BreakerHistory(cfg, run);
  }

  ghost predicate Wedged(cfg: Config, s: System) {
    s.b.state == HALF_OPEN && s.b.inFlight >= cfg.maxProbes && s.pending == map[]
  }

  /** A wedged breaker stays wedged: no later run changes it or gets a call admitted. */
  lemma {:induction false} WedgedForever(cfg: Config, s: System, run: seq<Event>)
    requires Wedged(cfg, s)
    ensures Wedged(cfg, From(cfg, s, run)) && From(cfg, s, run).b == s.b
    ensures Admit(cfg, From(cfg, s, run).b, From(cfg, s, run).now).1 == ProbeBudgetExhausted
  {
    if run != [] {
      WedgedForever(cfg, s, run[..|run| - 1]);
    }
  }

  /** Some later run leaves HALF_OPEN. */
  ghost predicate CanLeave(cfg: Config, s: System) {
    exists run :: From(cfg, s, run).b.state != HALF_OPEN
  }

  lemma LeavesBy(cfg: Config, s: System, run: seq<Event>)
    requires From(cfg, s, run).b.state != HALF_OPEN
    ensures CanLeave(cfg, s)
  {
  }

  lemma FromOne(cfg: Config, s: System, e: Event)
    ensures From(cfg, s, [e]) == Step(cfg, s, e)
  {
    assert [e][..0] == [];
  }

  lemma FromTwo(cfg: Config, s: System, e: Event, f: Event)
    ensures From(cfg, s, [e, f]) == Step(cfg, Step(cfg, s, e), f)
  {
    FromOne(cfg, s, e);
    assert [e, f][..1] == [e];
  }

  /** In every reachable state: HALF_OPEN can be left exactly as long as some call is pending, stale ones included, or
      some probe of the budget was not cancelled. */
  lemma CanLeaveHalfOpenIff(cfg: Config, run: seq<Event>)
    requires cfg.Valid() && After(cfg, run).b.state == HALF_OPEN
    ensures var s := After(cfg, run); CanLeave(cfg, s) <==> s.pending != map[] || s.cancelled < cfg.maxProbes
  {
    hide From;
    BreakerHistory(cfg, run);
    var s := After(cfg, run);
    if s.pending != map[] {
      var id :| id in s.pending;
      FromOne(cfg, s, Succeed(id));
      LeavesBy(cfg, s, [Succeed(id)]);
    } else if s.cancelled < cfg.maxProbes {
      assert Probes(s.pending, s.window) == {};
      FromTwo(cfg, s, Arrive, Succeed(s.nextId));
      LeavesBy(cfg, s, [Arrive, Succeed(s.nextId)]);
    } else {
      assert Probes(s.pending, s.window) == {};
      forall later
        ensures From(cfg, s, later).b.state == HALF_OPEN
      {
        WedgedForever(cfg, s, later);
      }
    }
  }

  // ---------------------------------------------------------------- probe integrity over timed runs

  /** Time does not pass a pending call's deadline: `wait_for` ends it within `callTimeout`. */
  ghost predicate OnTime(cfg: Config, s: System) {
    forall id :: id in s.pending ==> s.now <= s.pending[id].admittedAt + cfg.callTimeout
  }

  ghost predicate Punctual(cfg: Config, run: seq<Event>) {
    OnTime(cfg, After(cfg, run)) && (run != [] ==> Punctual(cfg, run[..|run| - 1]))
  }

  lemma PunctualSnoc(cfg: Config, run: seq<Event>, e: Event)
    requires Punctual(cfg, run) && OnTime(cfg, Step(cfg, After(cfg, run), e))
    ensures Punctual(cfg, run + [e])
  {
    AfterSnoc(cfg, run, e);
    assert (run + [e])[..|run|] == run;
  }

  /** While OPEN, every pending call was admitted no later than the latest failure. */
  ghost predicate NoneAdmittedSince(s: System) {
    s.b.state == OPEN && s.b.openedAt.Some? ==>
      forall id :: id in s.pending ==> s.pending[id].admittedAt <= s.b.openedAt.value
  }

  ghost predicate OnlyOwnProbes(s: System) {
    s.b.state == HALF_OPEN ==> forall id :: id in s.pending ==> s.pending[id].window == Some(s.window)
  }

  lemma StepKeepsOwnProbes(cfg: Config, s: System, e: Event)
    requires cfg.Valid() && Inv(cfg, s) && OnTime(cfg, s) && cfg.callTimeout < cfg.openDuration
    requires NoneAdmittedSince(s) && OnlyOwnProbes(s)
    ensures NoneAdmittedSince(Step(cfg, s, e)) && OnlyOwnProbes(Step(cfg, s, e))
  {
    if e.Arrive? && s.b.state == OPEN && Step(cfg, s, e).b.state == HALF_OPEN {
      // Otherwise the call would have overrun: it was admitted before the latest failure.
      assert forall id :: id !in s.pending;
    }
  }

  lemma {:induction false} OwnProbesInv(cfg: Config, run: seq<Event>)
    requires cfg.Valid() && Punctual(cfg, run) && cfg.callTimeout < cfg.openDuration
    ensures NoneAdmittedSince(After(cfg, run)) && OnlyOwnProbes(After(cfg, run))
  {
    if run != [] {
      var before := run[..|run| - 1];
      OwnProbesInv(cfg, before);
      BreakerHistory(cfg, before);
      StepKeepsOwnProbes(cfg, After(cfg, before), run[|run| - 1]);
    }
  }

  /** In every punctual run a HALF_OPEN window is decided by its own probes only. */
  ghost predicate OnlyProbesDecide(cfg: Config) {
    forall run :: Punctual(cfg, run) ==> OnlyOwnProbes(After(cfg, run))
  }

  /** At time 0, after `k` calls that failed one by one while the first `others` calls stay in flight. */
  ghost predicate FailedSoFar(cfg: Config, run: seq<Event>, others: nat, k: nat) {
    var s := After(cfg, run);
    && Punctual(cfg, run)
    && s.b == (if k < cfg.threshold then Breaker(CLOSED, k, None, 0, None)
               else Breaker(OPEN, k, Some(0.0), 0, Some((CLOSED, OPEN))))
    && s.now == 0.0 && s.nextId == others + k && s.cancelled == 0
    && (forall id: nat :: id in s.pending <==> id < others)
    && (forall id :: id in s.pending ==> s.pending[id] == Pending(0.0, None))
  }

  lemma FailOnce(cfg: Config, run: seq<Event>, others: nat, k: nat) returns (run': seq<Event>)
    requires cfg.Valid() && FailedSoFar(cfg, run, others, k) && k < cfg.threshold
    ensures FailedSoFar(cfg, run', others, k + 1)
  {
    AfterSnoc(cfg, run, Arrive);
    PunctualSnoc(cfg, run, Arrive);
    run' := run + [Arrive];
    AfterSnoc(cfg, run', Fail(others + k));
    PunctualSnoc(cfg, run', Fail(others + k));
    run' := run' + [Fail(others + k)];
  }

  /** The breaker trips at time 0; with `stale`, one call admitted before that is still in flight. */
  lemma Trip(cfg: Config, stale: bool) returns (run: seq<Event>)
    requires cfg.Valid()
    ensures FailedSoFar(cfg, run, if stale then 1 else 0, cfg.threshold)
  {
    run := [];
    if stale {
      AfterSnoc(cfg, run, Arrive);
      PunctualSnoc(cfg, run, Arrive);
      run := run + [Arrive];
      assert After(cfg, run).pending == map[0 := Pending(0.0, None)];
    }
    var k := 0;
    while k < cfg.threshold
      invariant 0 <= k <= cfg.threshold && FailedSoFar(cfg, run, if stale then 1 else 0, k)
    {
      run := FailOnce(cfg, run, if stale then 1 else 0, k);
      k := k + 1;
    }
  }

  /** A call admitted while CLOSED outlives the open period when it may run at least that long. */
  lemma StaleCallReachesWindow(cfg: Config) returns (run: seq<Event>)
    requires cfg.Valid() && cfg.openDuration <= cfg.callTimeout
    ensures Punctual(cfg, run) && !OnlyOwnProbes(After(cfg, run))
    ensures 0 in After(cfg, run).pending && After(cfg, run).pending[0].window == None
  {
    run := Trip(cfg, true);
    AfterSnoc(cfg, run, Tick(cfg.openDuration));
    PunctualSnoc(cfg, run, Tick(cfg.openDuration));
    run := run + [Tick(cfg.openDuration)];
    var s := After(cfg, run);
    assert 0 in s.pending && s.nextId > 0;
    AfterSnoc(cfg, run, Arrive);
    PunctualSnoc(cfg, run, Arrive);
    run := run + [Arrive];
    assert After(cfg, run).b.state == HALF_OPEN && After(cfg, run).pending[0] == s.pending[0];
  }

  /** Probe integrity holds exactly for the configurations whose call timeout is below the open duration. */
  lemma ProbeIntegrity(cfg: Config)
    requires cfg.Valid()
    ensures OnlyProbesDecide(cfg) <==> cfg.callTimeout < cfg.openDuration
  {
    if cfg.callTimeout < cfg.openDuration {
      forall run | Punctual(cfg, run)
        ensures OnlyOwnProbes(After(cfg, run))
      {
        OwnProbesInv(cfg, run);
      }
    } else {
      var run := StaleCallReachesWindow(cfg);
    }
  }

  /** When calls end on time and their timeout is shorter than the open duration, HALF_OPEN can never be left again
      exactly when every probe of the window was cancelled. */
  lemma WedgedIffAllProbesCancelled(cfg: Config, run: seq<Event>)
    requires cfg.Valid() && Punctual(cfg, run) && cfg.callTimeout < cfg.openDuration
    requires After(cfg, run).b.state == HALF_OPEN
    ensures var s := After(cfg, run); !CanLeave(cfg, s) <==> s.cancelled == cfg.maxProbes
  {
    hide CanLeave;
    var s := After(cfg, run);
    BreakerHistory(cfg, run);
    OwnProbesInv(cfg, run);
    CanLeaveHalfOpenIff(cfg, run);
    assert s.pending.Keys == Probes(s.pending, s.window);
    if s.cancelled == cfg.maxProbes {
      assert s.pending.Keys == {};
    }
  }

  /** At the end of the open period, after `k` probes were admitted and cancelled one by one; `left` were pending
      before. */
  ghost predicate CancelledSoFar(cfg: Config, run: seq<Event>, left: map<nat, Pending>, k: nat) {
    var s := After(cfg, run);
    && Punctual(cfg, run) && s.pending == left && s.now == cfg.openDuration
    && (forall id :: id in left ==> id < s.nextId)
    && (k == 0 ==> s.b == Breaker(OPEN, cfg.threshold, Some(0.0), 0, Some((CLOSED, OPEN))))
    && (k > 0 ==> s.b.state == HALF_OPEN && s.b.inFlight == k && s.cancelled == k)
  }

  lemma CancelOne(cfg: Config, run: seq<Event>, left: map<nat, Pending>, k: nat) returns (run': seq<Event>)
    requires cfg.Valid() && CancelledSoFar(cfg, run, left, k) && k < cfg.maxProbes
    ensures CancelledSoFar(cfg, run', left, k + 1)
  {
    var id := After(cfg, run).nextId;
    AfterSnoc(cfg, run, Arrive);
    PunctualSnoc(cfg, run, Arrive);
    run' := run + [Arrive];
    AfterSnoc(cfg, run', Cancel(id));
    PunctualSnoc(cfg, run', Cancel(id));
    run' := run' + [Cancel(id)];
    assert left[id := After(cfg, run + [Arrive]).pending[id]] - {id} == left;
  }

  /** All probes of a window cancelled, with or without a call from before in flight. */
  lemma CancelAll(cfg: Config, stale: bool) returns (run: seq<Event>)
    requires cfg.Valid() && (stale ==> cfg.openDuration <= cfg.callTimeout)
    ensures CancelledSoFar(cfg, run, if stale then map[0 := Pending(0.0, None)] else map[], cfg.maxProbes)
  {
    run := Trip(cfg, stale);
    var left: map<nat, Pending> := if stale then map[0 := Pending(0.0, None)] else map[];
    assert After(cfg, run).pending == left;
    AfterSnoc(cfg, run, Tick(cfg.openDuration));
    PunctualSnoc(cfg, run, Tick(cfg.openDuration));
    run := run + [Tick(cfg.openDuration)];
    var k := 0;
    while k < cfg.maxProbes
      invariant 0 <= k <= cfg.maxProbes && CancelledSoFar(cfg, run, left, k)
    {
      run := CancelOne(cfg, run, left, k);
      k := k + 1;
    }
  }

  /** With cancellation every configuration can wedge. */
  lemma CancellationWedges(cfg: Config) returns (run: seq<Event>)
    requires cfg.Valid()
    ensures Punctual(cfg, run) && Wedged(cfg, After(cfg, run))
  {
    run := CancelAll(cfg, false);
  }

  /** Otherwise a stale call can rescue a breaker that has lost all its probes, however many there are. */
  lemma StaleCallRescues(cfg: Config) returns (run: seq<Event>)
    requires cfg.Valid() && cfg.openDuration <= cfg.callTimeout
    ensures var s := After(cfg, run);
            Punctual(cfg, run) && s.b.state == HALF_OPEN && s.cancelled == cfg.maxProbes && CanLeave(cfg, s)
  {
    hide CanLeave;
    run := CancelAll(cfg, true);
    assert 0 in After(cfg, run).pending;
    CanLeaveHalfOpenIff(cfg, run);
  }

  /** In every punctual run a HALF_OPEN window is lost exactly when all its probes were cancelled. */
  ghost predicate OnlyCancellationsWedge(cfg: Config) {
    forall run :: Punctual(cfg, run) && After(cfg, run).b.state == HALF_OPEN
      ==> (!CanLeave(cfg, After(cfg, run)) <==> After(cfg, run).cancelled == cfg.maxProbes)
  }

  /** So it is exactly for the configurations whose call timeout is below the open duration. */
  lemma OnlyCancellationsWedgeIff(cfg: Config)
    requires cfg.Valid()
    ensures OnlyCancellationsWedge(cfg) <==> cfg.callTimeout < cfg.openDuration
  {
    hide CanLeave, After, Punctual;
    if cfg.callTimeout < cfg.openDuration {
      forall run | Punctual(cfg, run) && After(cfg, run).b.state == HALF_OPEN
        ensures !CanLeave(cfg, After(cfg, run)) <==> After(cfg, run).cancelled == cfg.maxProbes
      {
        WedgedIffAllProbesCancelled(cfg, run);
      }
    } else {
      var run := StaleCallRescues(cfg);
    }
  }

  /** The probe that opened the window is still pending while the window lasts. */
  lemma {:induction false} FirstProbePending(cfg: Config, run: seq<Event>)
    requires cfg.Valid() && Uncancelled(run) && After(cfg, run).b.state == HALF_OPEN
    ensures exists id ::
              id in After(cfg, run).pending && After(cfg, run).pending[id].admittedAt == After(cfg, run).promotedAt
  {
    if run != [] {
      var s, e := After(cfg, run[..|run| - 1]), run[|run| - 1];
      BreakerHistory(cfg, run[..|run| - 1]);
      if s.b.state == HALF_OPEN {
        FirstProbePending(cfg, run[..|run| - 1]);
        var id :| id in s.pending && s.pending[id].admittedAt == s.promotedAt;
        assert id in After(cfg, run).pending;
      } else {
        assert s.nextId in After(cfg, run).pending;
      }
    }
  }

  /** So without cancellation HALF_OPEN lasts at most one call timeout. */
  lemma HalfOpenIsBrief(cfg: Config, run: seq<Event>)
    requires cfg.Valid() && Uncancelled(run) && Punctual(cfg, run) && After(cfg, run).b.state == HALF_OPEN
    ensures After(cfg, run).now <= After(cfg, run).promotedAt + cfg.callTimeout
  {
    FirstProbePending(cfg, run);
  }
}
