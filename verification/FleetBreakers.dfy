/** Every replica's breaker, seen from outside: when scripts are sent. */
module FleetBreakers {
  import opened Prelude
  import opened LocalLimiter
  import opened RedisBucket
  import opened SharedLedger
  import B = CircuitBreaker
  import opened Fleet
  import opened FleetOutcomes

  /** A call of replica `i` whose script is out, or whose reply is not used yet. */
  predicate AtRedis(w: World, i: nat, id: nat) {
    id in w.calls && w.calls[id].replica == i && (w.calls[id].phase.Sent? || w.calls[id].phase.Replied?)
  }

  // ---------------------------------------------------------------- a breaker of its own for each replica

  /** The events that reached the breaker of one replica, and which of its calls stands for which call of the fleet. */
  datatype Shadow = Shadow(events: seq<B.Event>, ids: map<nat, nat>)

  function Begun(t: real): B.System {
    B.START.(now := t, promotedAt := t)
  }

  function SystemOf(cfg: Settings, t0: int, events: seq<B.Event>): B.System {
    B.From(cfg.breaker, Begun(Seconds(t0)), events)
  }

  function Told(sh: Shadow, e: B.Event): Shadow {
    sh.(events := sh.events + [e])
  }

  /** What an event of the fleet means to the breaker of replica `i`: a call that enters arrives, a reply that is used
      is a success, a failure is a failure, and a call dropped at Redis is a cancellation. */
  function Noted(cfg: Settings, t0: int, w: World, sh: Shadow, i: nat, e: Event): Shadow {
    match e
    case Enter(id) =>
      if id in w.calls && w.calls[id].replica == i && w.calls[id].phase.Ready? then
        var next := SystemOf(cfg, t0, sh.events).nextId;
        var sh' := Told(sh, B.Arrive);
        if next in SystemOf(cfg, t0, sh'.events).pending then sh'.(ids := sh.ids[id := next]) else sh'
      else sh
    case Settle(id) =>
      if AtRedis(w, i, id) && w.calls[id].phase.Replied? && id in sh.ids
      then Told(sh, B.Succeed(sh.ids[id])).(ids := sh.ids - {id}) else sh
    case Fail(id, _) =>
      if AtRedis(w, i, id) && id in sh.ids then Told(sh, B.Fail(sh.ids[id])).(ids := sh.ids - {id}) else sh
    case Drop(id) =>
      if AtRedis(w, i, id) && id in sh.ids then Told(sh, B.Cancel(sh.ids[id])).(ids := sh.ids - {id}) else sh
    case Tick(ms) => Told(sh, B.Tick(Seconds(ms)))
    case _ => sh
  }

  function ShadowOf(cfg: Settings, focus: string, n: nat, t0: int, run: seq<Event>, i: nat): Shadow
    requires cfg.Valid()
  {
    if run == [] then Shadow([], map[])
    else
      var front := run[..|run| - 1];
      Noted(cfg, t0, After(cfg, focus, Initial(n, t0), front), ShadowOf(cfg, focus, n, t0, front, i), i, run[|run| - 1])
  }

  /** The breaker and the clock agree, and the calls at Redis are exactly those in flight through the breaker. */
  ghost predicate Mirrors(w: World, i: nat, s: B.System, ids: map<nat, nat>) {
    && i < |w.replicas| && s.b == w.replicas[i].breaker && s.now == Seconds(w.now)
    && (forall id: nat :: id in ids <==> AtRedis(w, i, id))
    && (forall id :: id in ids ==> ids[id] in s.pending)
    && (forall a, b :: a in ids && b in ids && ids[a] == ids[b] ==> a == b)
    && (forall p :: p in s.pending ==> exists id :: id in ids && ids[id] == p)
  }

  /** A call on its way to the second stage has its tenant token. */
  ghost predicate PaidUp(w: World) {
    forall id :: id in w.calls ==>
      match w.calls[id].phase
      case Ready(stage, paid) => stage == SessionStage ==> paid.Some?
      case Sent(stage, paid, _) => stage == SessionStage ==> paid.Some?
      case Replied(stage, paid, granted) => granted || stage == SessionStage ==> paid.Some?
      case _ => true
  }

  lemma StepPays(cfg: Settings, focus: string, w: World, e: Event)
    requires cfg.Valid() && PaidUp(w)
    ensures PaidUp(Step(cfg, focus, w, e))
  {
    hide Touch, AcquireBoth;
  }

  lemma {:induction false} RunPays(cfg: Settings, focus: string, n: nat, t0: int, run: seq<Event>)
    requires cfg.Valid()
    ensures PaidUp(After(cfg, focus, Initial(n, t0), run))
  {
    hide Step;
    if run != [] {
      RunPays(cfg, focus, n, t0, run[..|run| - 1]);
      StepPays(cfg, focus, After(cfg, focus, Initial(n, t0), run[..|run| - 1]), run[|run| - 1]);
    }
  }

  lemma ToldNext(cfg: Settings, t0: int, events: seq<B.Event>, e: B.Event)
    ensures SystemOf(cfg, t0, events + [e]) == B.Step(cfg.breaker, SystemOf(cfg, t0, events), e)
  {
    assert (events + [e])[..|events|] == events;
  }

  // ---------------------------------------------------------------- the shadow follows

  lemma Stays(w: World, w': World, i: nat, s: B.System, s': B.System, ids: map<nat, nat>)
    requires Mirrors(w, i, s, ids) && i < |w'.replicas|
    requires s'.b == w'.replicas[i].breaker && s'.now == Seconds(w'.now) && s'.pending.Keys == s.pending.Keys
    requires forall id: nat :: AtRedis(w', i, id) == AtRedis(w, i, id)
    ensures Mirrors(w', i, s', ids)
  {
  }

  lemma Leaves(w: World, w': World, i: nat, s: B.System, s': B.System, ids: map<nat, nat>, id: nat)
    requires Mirrors(w, i, s, ids) && i < |w'.replicas| && id in ids
    requires s'.b == w'.replicas[i].breaker && s'.now == Seconds(w'.now)
    requires s'.pending.Keys == s.pending.Keys - {ids[id]}
    requires forall k: nat :: AtRedis(w', i, k) <==> AtRedis(w, i, k) && k != id
    ensures Mirrors(w', i, s', ids - {id})
  {
    var ids' := ids - {id};
    forall p | p in s'.pending
      ensures exists k :: k in ids' && ids'[k] == p
    {
      var k :| k in ids && ids[k] == p;
      assert k in ids';
    }
  }

  lemma Joins(w: World, w': World, i: nat, s: B.System, s': B.System, ids: map<nat, nat>, id: nat)
    requires Mirrors(w, i, s, ids) && i < |w'.replicas| && id !in ids && s.nextId !in s.pending
    requires s'.b == w'.replicas[i].breaker && s'.now == Seconds(w'.now)
    requires s'.pending.Keys == s.pending.Keys + {s.nextId}
    requires forall k: nat :: AtRedis(w', i, k) <==> AtRedis(w, i, k) || k == id
    ensures Mirrors(w', i, s', ids[id := s.nextId])
  {
    var ids' := ids[id := s.nextId];
    forall p | p in s'.pending
      ensures exists k :: k in ids' && ids'[k] == p
    {
      if p == s.nextId {
        assert id in ids';
      } else {
        var k :| k in ids && ids[k] == p;
        assert k in ids' && ids'[k] == p;
      }
    }
  }

  lemma MirrorsFacts(w: World, i: nat, s: B.System, ids: map<nat, nat>)
    requires Mirrors(w, i, s, ids)
    ensures i < |w.replicas| && s.b == w.replicas[i].breaker && s.now == Seconds(w.now)
    ensures forall id: nat :: id in ids <==> AtRedis(w, i, id)
    ensures forall id :: id in ids ==> ids[id] in s.pending
  {
  }

  /** What events leave as it is for replica `i`. */
  ghost predicate SameAt(w: World, w': World, i: nat) {
    && i < |w.replicas| == |w'.replicas| && w'.replicas[i].breaker == w.replicas[i].breaker && w'.now == w.now
    && forall id: nat :: AtRedis(w', i, id) == AtRedis(w, i, id)
  }

  lemma ScriptsStay(cfg: Settings, focus: string, w: World, i: nat, e: Event)
    requires cfg.Valid() && Placed(w) && i < |w.replicas| && (e.RunScript? || e.Stray? || e.Resend? || e.Begin?)
    ensures SameAt(w, Step(cfg, focus, w, e), i)
  {
    hide Touch;
  }

  lemma OthersMoveOn(cfg: Settings, focus: string, w: World, i: nat, e: Event)
    requires cfg.Valid() && Placed(w) && i < |w.replicas|
    requires e.Fallback? || (e.Fail? && !AtRedis(w, i, e.id)) || (e.Drop? && !AtRedis(w, i, e.id))
    ensures SameAt(w, Step(cfg, focus, w, e), i)
  {
    hide AcquireBoth;
  }

  /** Events that are nothing to the breaker of replica `i`. */
  lemma ElsewhereStays(cfg: Settings, focus: string, t0: int, w: World, sh: Shadow, i: nat, e: Event)
    requires cfg.Valid() && Placed(w) && Mirrors(w, i, SystemOf(cfg, t0, sh.events), sh.ids)
    requires !e.Settle? && !e.Enter? && !e.Tick? && (e.Fail? || e.Drop? ==> !AtRedis(w, i, e.id))
    ensures Mirrors(Step(cfg, focus, w, e), i, SystemOf(cfg, t0, sh.events), sh.ids)
  {
    hide SystemOf, Mirrors, Step, Placed, AtRedis;
    var s := SystemOf(cfg, t0, sh.events);
    MirrorsFacts(w, i, s, sh.ids);
    if e.Fallback? || e.Fail? || e.Drop? {
      OthersMoveOn(cfg, focus, w, i, e);
    } else {
      ScriptsStay(cfg, focus, w, i, e);
    }
    Stays(w, Step(cfg, focus, w, e), i, s, s, sh.ids);
  }

  lemma FreshId(cfg: Settings, s: B.System)
    requires B.Inv(cfg.breaker, s)
    ensures s.nextId !in s.pending
  {
  }

  lemma EnterMoves(cfg: Settings, w: World, i: nat, id: nat)
    requires Placed(w) && i < |w.replicas|
    ensures var w', (b, a) := OnEnter(cfg, w, id), B.Admit(cfg.breaker, w.replicas[i].breaker, Seconds(w.now));
            && i < |w'.replicas| && w'.now == w.now
            && if id in w.calls && w.calls[id].replica == i && w.calls[id].phase.Ready? then
                 && w'.replicas[i].breaker == b
                 && forall k: nat :: AtRedis(w', i, k) <==> AtRedis(w, i, k) || (k == id && a == B.Admitted)
               else SameAt(w, w', i)
  {
    hide B.Admit;
  }

  lemma EnterMirrors(cfg: Settings, focus: string, t0: int, w: World, sh: Shadow, i: nat, id: nat)
    requires cfg.Valid() && Placed(w) && Mirrors(w, i, SystemOf(cfg, t0, sh.events), sh.ids)
    requires B.Inv(cfg.breaker, SystemOf(cfg, t0, sh.events))
    ensures var sh' := Noted(cfg, t0, w, sh, i, Enter(id));
            Mirrors(Step(cfg, focus, w, Enter(id)), i, SystemOf(cfg, t0, sh'.events), sh'.ids)
  {
    hide SystemOf, Mirrors, B.StateMeaning, B.Admit, OnEnter, Placed;
    var w' := OnEnter(cfg, w, id);
    var s := SystemOf(cfg, t0, sh.events);
    MirrorsFacts(w, i, s, sh.ids);
    EnterMoves(cfg, w, i, id);
    if id in w.calls && w.calls[id].replica == i && w.calls[id].phase.Ready? {
      ToldNext(cfg, t0, sh.events, B.Arrive);
      var s' := B.Step(cfg.breaker, s, B.Arrive);
      FreshId(cfg, s);
      if s.nextId in s'.pending {
        Joins(w, w', i, s, s', sh.ids, id);
      } else {
        Stays(w, w', i, s, s', sh.ids);
      }
    } else {
      Stays(w, w', i, s, s, sh.ids);
    }
  }

  lemma SettleMirrors(cfg: Settings, focus: string, t0: int, w: World, sh: Shadow, i: nat, id: nat)
    requires cfg.Valid() && Placed(w) && PaidUp(w) && Mirrors(w, i, SystemOf(cfg, t0, sh.events), sh.ids)
    ensures var sh' := Noted(cfg, t0, w, sh, i, Settle(id));
            Mirrors(Step(cfg, focus, w, Settle(id)), i, SystemOf(cfg, t0, sh'.events), sh'.ids)
  {
    hide SystemOf, Mirrors;
    var w' := OnSettle(w, id);
    var s := SystemOf(cfg, t0, sh.events);
    MirrorsFacts(w, i, s, sh.ids);
    if AtRedis(w, i, id) && w.calls[id].phase.Replied? {
      ToldNext(cfg, t0, sh.events, B.Succeed(sh.ids[id]));
      assert forall k: nat :: AtRedis(w', i, k) <==> AtRedis(w, i, k) && k != id;
      Leaves(w, w', i, s, B.Step(cfg.breaker, s, B.Succeed(sh.ids[id])), sh.ids, id);
    } else {
      assert forall k: nat :: AtRedis(w', i, k) == AtRedis(w, i, k);
      Stays(w, w', i, s, s, sh.ids);
    }
  }

  lemma FailMirrors(cfg: Settings, focus: string, t0: int, w: World, sh: Shadow, i: nat, id: nat, why: Failure)
    requires cfg.Valid() && Placed(w) && Mirrors(w, i, SystemOf(cfg, t0, sh.events), sh.ids)
    ensures var sh' := Noted(cfg, t0, w, sh, i, Fail(id, why));
            Mirrors(Step(cfg, focus, w, Fail(id, why)), i, SystemOf(cfg, t0, sh'.events), sh'.ids)
  {
    hide SystemOf, Mirrors;
    var w' := OnFail(cfg, w, id, why);
    var s := SystemOf(cfg, t0, sh.events);
    MirrorsFacts(w, i, s, sh.ids);
    if AtRedis(w, i, id) {
      ToldNext(cfg, t0, sh.events, B.Fail(sh.ids[id]));
      assert forall k: nat :: AtRedis(w', i, k) <==> AtRedis(w, i, k) && k != id;
      Leaves(w, w', i, s, B.Step(cfg.breaker, s, B.Fail(sh.ids[id])), sh.ids, id);
    } else {
      assert forall k: nat :: AtRedis(w', i, k) == AtRedis(w, i, k);
      Stays(w, w', i, s, s, sh.ids);
    }
  }

  lemma DropMirrors(cfg: Settings, focus: string, t0: int, w: World, sh: Shadow, i: nat, id: nat)
    requires cfg.Valid() && Mirrors(w, i, SystemOf(cfg, t0, sh.events), sh.ids) && AtRedis(w, i, id)
    ensures var sh' := Noted(cfg, t0, w, sh, i, Drop(id));
            Mirrors(Step(cfg, focus, w, Drop(id)), i, SystemOf(cfg, t0, sh'.events), sh'.ids)
  {
    hide SystemOf, Mirrors;
    var w' := Step(cfg, focus, w, Drop(id));
    var s := SystemOf(cfg, t0, sh.events);
    MirrorsFacts(w, i, s, sh.ids);
    ToldNext(cfg, t0, sh.events, B.Cancel(sh.ids[id]));
    assert forall k: nat :: AtRedis(w', i, k) <==> AtRedis(w, i, k) && k != id;
    Leaves(w, w', i, s, B.Step(cfg.breaker, s, B.Cancel(sh.ids[id])), sh.ids, id);
  }

  lemma TickMirrors(cfg: Settings, focus: string, t0: int, w: World, sh: Shadow, i: nat, ms: nat)
    requires cfg.Valid() && Mirrors(w, i, SystemOf(cfg, t0, sh.events), sh.ids)
    ensures var sh' := Noted(cfg, t0, w, sh, i, Tick(ms));
            Mirrors(Step(cfg, focus, w, Tick(ms)), i, SystemOf(cfg, t0, sh'.events), sh'.ids)
  {
    hide SystemOf, Mirrors;
    var w' := Step(cfg, focus, w, Tick(ms));
    var s := SystemOf(cfg, t0, sh.events);
    MirrorsFacts(w, i, s, sh.ids);
    ToldNext(cfg, t0, sh.events, B.Tick(Seconds(ms)));
    SecondsDifference(w.now, w.now + ms);
    assert forall k: nat :: AtRedis(w', i, k) == AtRedis(w, i, k);
    Stays(w, w', i, s, B.Step(cfg.breaker, s, B.Tick(Seconds(ms))), sh.ids);
  }

  lemma NoteMirrors(cfg: Settings, focus: string, t0: int, w: World, sh: Shadow, i: nat, e: Event)
    requires cfg.Valid() && Placed(w) && PaidUp(w) && Mirrors(w, i, SystemOf(cfg, t0, sh.events), sh.ids)
    requires B.Inv(cfg.breaker, SystemOf(cfg, t0, sh.events))
    ensures var sh' := Noted(cfg, t0, w, sh, i, e);
            Mirrors(Step(cfg, focus, w, e), i, SystemOf(cfg, t0, sh'.events), sh'.ids)
  {
    hide SystemOf, Mirrors, Step, Placed, PaidUp, B.Inv;
    match e
    case Enter(id) => EnterMirrors(cfg, focus, t0, w, sh, i, id);
    case Settle(id) => SettleMirrors(cfg, focus, t0, w, sh, i, id);
    case Fail(id, why) => FailMirrors(cfg, focus, t0, w, sh, i, id, why);
    case Drop(id) =>
      if AtRedis(w, i, id) {
        DropMirrors(cfg, focus, t0, w, sh, i, id);
      } else {
        ElsewhereStays(cfg, focus, t0, w, sh, i, e);
      }
    case Tick(ms) => TickMirrors(cfg, focus, t0, w, sh, i, ms);
    case _ => ElsewhereStays(cfg, focus, t0, w, sh, i, e);
  }

  lemma ShadowInv(cfg: Settings, t0: int, events: seq<B.Event>)
    requires cfg.Valid()
    ensures B.Inv(cfg.breaker, SystemOf(cfg, t0, events))
  {
    B.FromKeepsInv(cfg.breaker, Begun(Seconds(t0)), events);
  }

  /** Over every run of the fleet: each replica's breaker is in the state that its own events lead a breaker to, and its
      calls at Redis are exactly the calls in flight through that breaker. */
  lemma {:induction false} ShadowMirrors(cfg: Settings, focus: string, n: nat, t0: int, run: seq<Event>, i: nat)
    requires cfg.Valid() && i < n
    ensures var sh := ShadowOf(cfg, focus, n, t0, run, i);
            Mirrors(After(cfg, focus, Initial(n, t0), run), i, SystemOf(cfg, t0, sh.events), sh.ids)
  {
    hide Step, Noted, B.Step, B.Inv, Placed, PaidUp;
    if run != [] {
      var front := run[..|run| - 1];
      var w, sh := After(cfg, focus, Initial(n, t0), front), ShadowOf(cfg, focus, n, t0, front, i);
      ShadowMirrors(cfg, focus, n, t0, front, i);
      RunPlaces(cfg, focus, n, t0, front);
      RunPays(cfg, focus, n, t0, front);
      ShadowInv(cfg, t0, sh.events);
      NoteMirrors(cfg, focus, t0, w, sh, i, run[|run| - 1]);
    }
  }

  // ---------------------------------------------------------------- when a script is sent

  /** When the latest failure of a script of replica `i` was recorded. */
  function LatestFailure(cfg: Settings, focus: string, n: nat, t0: int, run: seq<Event>, i: nat): Option<int>
    requires cfg.Valid()
  {
    if run == [] then None
    else
      var front, e := run[..|run| - 1], run[|run| - 1];
      var w := After(cfg, focus, Initial(n, t0), front);
      if e.Fail? && AtRedis(w, i, e.id) then Some(w.now) else LatestFailure(cfg, focus, n, t0, front, i)
  }

  predicate StateIs(w: World, i: nat, state: B.State) {
    i < |w.replicas| && w.replicas[i].breaker.state == state
  }

  /** The event makes a call of replica `i` send a script. */
  predicate Sends(w: World, w': World, i: nat, e: Event) {
    && e.Enter? && e.id in w.calls && w.calls[e.id].replica == i && w.calls[e.id].phase.Ready?
    && AtRedis(w', i, e.id)
  }

  /** How many scripts replica `i` has sent since its breaker became HALF_OPEN, if it still is. */
  function SentInWindow(cfg: Settings, focus: string, n: nat, t0: int, run: seq<Event>, i: nat): nat
    requires cfg.Valid()
  {
    if run == [] then 0
    else
      var front := run[..|run| - 1];
      var w, w' := After(cfg, focus, Initial(n, t0), front), After(cfg, focus, Initial(n, t0), run);
      var before := if StateIs(w, i, B.HALF_OPEN) then SentInWindow(cfg, focus, n, t0, front, i) else 0;
      before + if Sends(w, w', i, run[|run| - 1]) then 1 else 0
  }

  /** What decides, in terms of what replica `i` has been through. */
  predicate Lets(cfg: Settings, focus: string, n: nat, t0: int, run: seq<Event>, i: nat)
    requires cfg.Valid() && i < |After(cfg, focus, Initial(n, t0), run).replicas|
  {
    var w := After(cfg, focus, Initial(n, t0), run);
    var failure := LatestFailure(cfg, focus, n, t0, run, i);
    match w.replicas[i].breaker.state
    case CLOSED => true
    case OPEN => failure.Some? && Seconds(w.now - failure.value) >= cfg.breaker.openDuration
    case HALF_OPEN => SentInWindow(cfg, focus, n, t0, run, i) < cfg.breaker.maxProbes
  }

  lemma NoteFails(cfg: Settings, t0: int, w: World, sh: Shadow, i: nat, e: Event)
    requires Mirrors(w, i, SystemOf(cfg, t0, sh.events), sh.ids)
    ensures SystemOf(cfg, t0, Noted(cfg, t0, w, sh, i, e).events).lastFailure
         == if e.Fail? && AtRedis(w, i, e.id) then Some(Seconds(w.now))
            else SystemOf(cfg, t0, sh.events).lastFailure
  {
    hide SystemOf, B.Admit, B.RecordSuccess, B.RecordFailure;
    var sh' := Noted(cfg, t0, w, sh, i, e);
    if sh'.events != sh.events {
      ToldNext(cfg, t0, sh.events, sh'.events[|sh.events|]);
    }
  }

  lemma {:induction false} LatestFailureAgrees(cfg: Settings, focus: string, n: nat, t0: int, run: seq<Event>, i: nat)
    requires cfg.Valid() && i < n
    ensures var failure := LatestFailure(cfg, focus, n, t0, run, i);
            SystemOf(cfg, t0, ShadowOf(cfg, focus, n, t0, run, i).events).lastFailure
            == if failure.Some? then Some(Seconds(failure.value)) else None
  {
    hide Step, Noted, B.Step, Mirrors;
    if run != [] {
      var front := run[..|run| - 1];
      LatestFailureAgrees(cfg, focus, n, t0, front, i);
      ShadowMirrors(cfg, focus, n, t0, front, i);
      NoteFails(cfg, t0, After(cfg, focus, Initial(n, t0), front), ShadowOf(cfg, focus, n, t0, front, i), i,
                run[|run| - 1]);
    }
  }

  lemma StepCounts(cfg: Settings, focus: string, w: World, i: nat, e: Event)
    requires cfg.Valid() && i < |w.replicas| && StateIs(Step(cfg, focus, w, e), i, B.HALF_OPEN)
    requires cfg.breaker.maxProbes >= 1
    ensures var w' := Step(cfg, focus, w, e);
            w'.replicas[i].breaker.inFlight
            == (if StateIs(w, i, B.HALF_OPEN) then w.replicas[i].breaker.inFlight else 0)
               + if Sends(w, w', i, e) then 1 else 0
  {
    hide Touch, AcquireBoth;
  }

  lemma {:induction false} WindowCounts(cfg: Settings, focus: string, n: nat, t0: int, run: seq<Event>, i: nat)
    requires cfg.Valid() && i < n && StateIs(After(cfg, focus, Initial(n, t0), run), i, B.HALF_OPEN)
    ensures After(cfg, focus, Initial(n, t0), run).replicas[i].breaker.inFlight
         == SentInWindow(cfg, focus, n, t0, run, i)
  {
    hide Step, Sends, Mirrors;
    if run != [] {
      var front := run[..|run| - 1];
      var w := After(cfg, focus, Initial(n, t0), front);
      ReplicaStays(cfg, focus, n, t0, front, i);
      if StateIs(w, i, B.HALF_OPEN) {
        WindowCounts(cfg, focus, n, t0, front, i);
      }
      StepCounts(cfg, focus, w, i, run[|run| - 1]);
    }
  }

  lemma ReplicaStays(cfg: Settings, focus: string, n: nat, t0: int, run: seq<Event>, i: nat)
    requires cfg.Valid() && i < n
    ensures i < |After(cfg, focus, Initial(n, t0), run).replicas|
  {
    hide SystemOf, ShadowOf;
    ShadowMirrors(cfg, focus, n, t0, run, i);
  }

  lemma LetsIffMayStart(cfg: Settings, focus: string, n: nat, t0: int, run: seq<Event>, i: nat)
    requires cfg.Valid() && i < n
    ensures i < |After(cfg, focus, Initial(n, t0), run).replicas|
    ensures Lets(cfg, focus, n, t0, run, i)
       <==> B.MayStart(cfg.breaker, SystemOf(cfg, t0, ShadowOf(cfg, focus, n, t0, run, i).events))
  {
    hide SystemOf, ShadowOf, LatestFailure, SentInWindow, B.Probes, After;
    var w := After(cfg, focus, Initial(n, t0), run);
    var s := SystemOf(cfg, t0, ShadowOf(cfg, focus, n, t0, run, i).events);
    ShadowMirrors(cfg, focus, n, t0, run, i);
    ShadowInv(cfg, t0, ShadowOf(cfg, focus, n, t0, run, i).events);
    LatestFailureAgrees(cfg, focus, n, t0, run, i);
    var failure := LatestFailure(cfg, focus, n, t0, run, i);
    if failure.Some? {
      SecondsDifference(failure.value, w.now);
    }
    if w.replicas[i].breaker.state == B.HALF_OPEN {
      WindowCounts(cfg, focus, n, t0, run, i);
    }
  }

  lemma EnterForks(cfg: Settings, focus: string, t0: int, w: World, sh: Shadow, i: nat, id: nat)
    requires cfg.Valid() && Placed(w) && Mirrors(w, i, SystemOf(cfg, t0, sh.events), sh.ids)
    requires B.Inv(cfg.breaker, SystemOf(cfg, t0, sh.events))
    requires id in w.calls && w.calls[id].replica == i && w.calls[id].phase.Ready?
    ensures var c := w.calls[id];
            OnEnter(cfg, w, id).calls
            == w.calls[id := c.(phase := if B.MayStart(cfg.breaker, SystemOf(cfg, t0, sh.events))
                                         then Sent(c.phase.stage, c.phase.paid, w.now) else FallingBack)]
  {
    hide SystemOf, Mirrors, B.Probes;
    var s := SystemOf(cfg, t0, sh.events);
    MirrorsFacts(w, i, s, sh.ids);
  }

  /** Over every run: a call that is ready at replica `i` sends its script, with the reading of this moment, exactly
      when what the replica has been through lets it; otherwise it falls back. */
  lemma SendsOrFallsBack(cfg: Settings, focus: string, n: nat, t0: int, run: seq<Event>, id: nat)
    requires cfg.Valid()
    requires var w := After(cfg, focus, Initial(n, t0), run);
             id in w.calls && w.calls[id].phase.Ready? && w.calls[id].replica < |w.replicas| == n
    ensures var w := After(cfg, focus, Initial(n, t0), run);
            var c := w.calls[id];
            After(cfg, focus, Initial(n, t0), run + [Enter(id)]).calls
            == w.calls[id := c.(phase := if Lets(cfg, focus, n, t0, run, c.replica)
                                         then Sent(c.phase.stage, c.phase.paid, w.now) else FallingBack)]
  {
    hide SystemOf, ShadowOf, Mirrors, Placed, B.Inv, B.MayStart, Lets, OnEnter;
    var w := After(cfg, focus, Initial(n, t0), run);
    var i := w.calls[id].replica;
    assert (run + [Enter(id)])[..|run|] == run;
    RunPlaces(cfg, focus, n, t0, run);
    ShadowMirrors(cfg, focus, n, t0, run, i);
    ShadowInv(cfg, t0, ShadowOf(cfg, focus, n, t0, run, i).events);
    LetsIffMayStart(cfg, focus, n, t0, run, i);
    EnterForks(cfg, focus, t0, w, ShadowOf(cfg, focus, n, t0, run, i), i, id);
  }

  /** In HALF_OPEN a replica has sent at least one script since the open period, and never more than `maxProbes`. */
  lemma HalfOpenSendsFew(cfg: Settings, focus: string, n: nat, t0: int, run: seq<Event>, i: nat)
    requires cfg.Valid() && i < n && StateIs(After(cfg, focus, Initial(n, t0), run), i, B.HALF_OPEN)
    ensures 1 <= SentInWindow(cfg, focus, n, t0, run, i) <= cfg.breaker.maxProbes
  {
    hide SystemOf, ShadowOf, SentInWindow, After;
    ShadowMirrors(cfg, focus, n, t0, run, i);
    ShadowInv(cfg, t0, ShadowOf(cfg, focus, n, t0, run, i).events);
    WindowCounts(cfg, focus, n, t0, run, i);
  }

  lemma TimePasses(cfg: Settings, focus: string, w: World, e: Event)
    requires cfg.Valid()
    ensures w.now <= Step(cfg, focus, w, e).now
  {
    hide Touch, AcquireBoth;
  }

  lemma {:induction false} LatestFailureIsPast(cfg: Settings, focus: string, n: nat, t0: int, run: seq<Event>, i: nat)
    requires cfg.Valid()
    ensures var failure := LatestFailure(cfg, focus, n, t0, run, i);
            failure.Some? ==> failure.value <= After(cfg, focus, Initial(n, t0), run).now
  {
    hide Step, AtRedis;
    if run != [] {
      LatestFailureIsPast(cfg, focus, n, t0, run[..|run| - 1], i);
      TimePasses(cfg, focus, After(cfg, focus, Initial(n, t0), run[..|run| - 1]), run[|run| - 1]);
    }
  }

  /** An open breaker that has not cooled down stays open, whatever it is told, and lets nothing join its calls. */
  lemma NoteWhileCooling(cfg: Settings, t0: int, w: World, sh: Shadow, i: nat, e: Event)
    requires cfg.Valid() && B.Inv(cfg.breaker, SystemOf(cfg, t0, sh.events))
    requires var s := SystemOf(cfg, t0, sh.events); s.b.state == B.OPEN && !B.Cooled(cfg.breaker, s)
    ensures var sh' := Noted(cfg, t0, w, sh, i, e);
            SystemOf(cfg, t0, sh'.events).b.state == B.OPEN && sh'.ids.Keys <= sh.ids.Keys
  {
    hide SystemOf, B.Inv, B.Step, B.Cooled;
    var s := SystemOf(cfg, t0, sh.events);
    var sh' := Noted(cfg, t0, w, sh, i, e);
    if sh'.events != sh.events {
      var b := sh'.events[|sh.events|];
      ToldNext(cfg, t0, sh.events, b);
      B.StateChangesAt(cfg.breaker, s, b);
      B.CallsInFlightAt(cfg.breaker, s, b);
      FreshId(cfg, s);
    }
  }

  /** One more event while an open breaker has not cooled down. */
  lemma CoolingStep(cfg: Settings, focus: string, n: nat, t0: int, run: seq<Event>, e: Event, i: nat, f: int)
    requires cfg.Valid() && i < n && StateIs(After(cfg, focus, Initial(n, t0), run), i, B.OPEN)
    requires var failure := LatestFailure(cfg, focus, n, t0, run, i); failure.Some? && f <= failure.value
    requires Seconds(After(cfg, focus, Initial(n, t0), run + [e]).now - f) < cfg.breaker.openDuration
    ensures StateIs(After(cfg, focus, Initial(n, t0), run + [e]), i, B.OPEN)
    ensures var failure := LatestFailure(cfg, focus, n, t0, run + [e], i); failure.Some? && f <= failure.value
    ensures forall id: nat :: AtRedis(After(cfg, focus, Initial(n, t0), run + [e]), i, id)
              ==> AtRedis(After(cfg, focus, Initial(n, t0), run), i, id)
  {
    hide SystemOf, B.Inv, Step, Noted, AtRedis, B.StateMeaning;
    var w, w' := After(cfg, focus, Initial(n, t0), run), After(cfg, focus, Initial(n, t0), run + [e]);
    var sh := ShadowOf(cfg, focus, n, t0, run, i);
    assert (run + [e])[..|run|] == run;
    TimePasses(cfg, focus, w, e);
    ShadowMirrors(cfg, focus, n, t0, run, i);
    ShadowMirrors(cfg, focus, n, t0, run + [e], i);
    ShadowInv(cfg, t0, sh.events);
    LatestFailureAgrees(cfg, focus, n, t0, run, i);
    LatestFailureIsPast(cfg, focus, n, t0, run, i);
    var failure := LatestFailure(cfg, focus, n, t0, run, i).value;
    SecondsDifference(failure, w.now);
    SoonerIsLess(w.now - failure, w'.now - f);
    NoteWhileCooling(cfg, t0, w, sh, i, e);
  }

  lemma SoonerIsLess(a: int, b: int)
    requires a <= b
    ensures Seconds(a) <= Seconds(b)
  {
  }

  /** Over every run, from an open breaker and until `openDuration` after the failure that is the latest then, a replica
      sends nothing: its calls at Redis are calls that are there already. */
  lemma {:induction false} CoolingSendsNothing(cfg: Settings, focus: string, n: nat, t0: int, run: seq<Event>,
                                               later: seq<Event>, i: nat)
    requires cfg.Valid() && i < n && StateIs(After(cfg, focus, Initial(n, t0), run), i, B.OPEN)
    requires var failure := LatestFailure(cfg, focus, n, t0, run, i);
             && failure.Some?
             && Seconds(After(cfg, focus, Initial(n, t0), run + later).now - failure.value) < cfg.breaker.openDuration
    ensures StateIs(After(cfg, focus, Initial(n, t0), run + later), i, B.OPEN)
    ensures forall id: nat :: AtRedis(After(cfg, focus, Initial(n, t0), run + later), i, id)
              ==> AtRedis(After(cfg, focus, Initial(n, t0), run), i, id)
    ensures var failure := LatestFailure(cfg, focus, n, t0, run + later, i);
            failure.Some? && LatestFailure(cfg, focus, n, t0, run, i).value <= failure.value
    decreases |later|
  {
    hide After, LatestFailure, AtRedis;
    if later == [] {
      assert run + later == run;
    } else {
      var front, e := later[..|later| - 1], later[|later| - 1];
      assert run + later == (run + front) + [e];
      AfterNext(cfg, focus, Initial(n, t0), run + front, e);
      TimePasses(cfg, focus, After(cfg, focus, Initial(n, t0), run + front), e);
      var f := LatestFailure(cfg, focus, n, t0, run, i).value;
      SoonerIsLess(After(cfg, focus, Initial(n, t0), run + front).now - f,
                  After(cfg, focus, Initial(n, t0), run + later).now - f);
      CoolingSendsNothing(cfg, focus, n, t0, run, front, i);
      CoolingStep(cfg, focus, n, t0, run + front, e, i, f);
    }
  }

  lemma AfterNext(cfg: Settings, focus: string, start: World, run: seq<Event>, e: Event)
    requires cfg.Valid()
    ensures After(cfg, focus, start, run + [e]) == Step(cfg, focus, After(cfg, focus, start, run), e)
  {
    hide Step;
    assert (run + [e])[..|run|] == run;
  }

  /** An open breaker always has a latest failure. */
  lemma OpenHasFailed(cfg: Settings, focus: string, n: nat, t0: int, run: seq<Event>, i: nat)
    requires cfg.Valid() && i < n && StateIs(After(cfg, focus, Initial(n, t0), run), i, B.OPEN)
    ensures LatestFailure(cfg, focus, n, t0, run, i).Some?
  {
    hide SystemOf, ShadowOf, LatestFailure, After;
    ShadowMirrors(cfg, focus, n, t0, run, i);
    ShadowInv(cfg, t0, ShadowOf(cfg, focus, n, t0, run, i).events);
    LatestFailureAgrees(cfg, focus, n, t0, run, i);
  }
}
