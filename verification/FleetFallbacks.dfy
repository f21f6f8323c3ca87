/** What the replicas' own limiters answer while Redis is out of reach. */
module FleetFallbacks {
  import opened Prelude
  import opened LocalLimiter
  import opened LimiterWindows
  import opened RedisBucket
  import opened SharedLedger
  import opened Fleet
  import opened FleetOutcomes
  import opened FleetBreakers

  predicate FallsBackAt(w: World, i: nat, e: Event) {
    && e.Fallback? && e.id in w.calls && w.calls[e.id].replica == i && w.calls[e.id].phase.FallingBack?
  }

  function LocalCall(w: World, id: nat): Call
    requires id in w.calls
  {
    Call(w.calls[id].tenant, w.calls[id].session, Seconds(w.now))
  }

  /** The calls that fell back at replica `i`, in order, with the moment they did. */
  function LocalCalls(cfg: Settings, focus: string, n: nat, t0: int, run: seq<Event>, i: nat): seq<Call>
    requires cfg.Valid()
  {
    if run == [] then []
    else
      var front, e := run[..|run| - 1], run[|run| - 1];
      var w := After(cfg, focus, Initial(n, t0), front);
      LocalCalls(cfg, focus, n, t0, front, i) + if FallsBackAt(w, i, e) then [LocalCall(w, e.id)] else []
  }

  lemma StepFallsBack(cfg: Settings, focus: string, w: World, i: nat, e: Event)
    requires cfg.Valid() && Placed(w) && i < |w.replicas|
    ensures var w' := Step(cfg, focus, w, e);
            var st := if w.replicas[i].fallback.Some? then w.replicas[i].fallback.value else EMPTY;
            && i < |w'.replicas|
            && w'.replicas[i].fallback
               == if FallsBackAt(w, i, e) then Some(AcquireBoth(cfg.limits, st, LocalCall(w, e.id)).0)
                  else w.replicas[i].fallback
  {
    hide Touch, AcquireBoth;
  }

  /** Over every run: a replica's limiter is what the calls that fell back to it made of it. */
  lemma {:induction false} FallbackIsRan(cfg: Settings, focus: string, n: nat, t0: int, run: seq<Event>, i: nat)
    requires cfg.Valid() && i < n
    ensures var w, calls := After(cfg, focus, Initial(n, t0), run), LocalCalls(cfg, focus, n, t0, run, i);
            && i < |w.replicas|
            && w.replicas[i].fallback == if calls == [] then None else Some(Ran(cfg.limits, EMPTY, calls))
  {
    hide Step, Placed, AcquireBoth, FallsBackAt;
    if run != [] {
      var front, e := run[..|run| - 1], run[|run| - 1];
      var w, calls := After(cfg, focus, Initial(n, t0), front), LocalCalls(cfg, focus, n, t0, front, i);
      FallbackIsRan(cfg, focus, n, t0, front, i);
      RunPlaces(cfg, focus, n, t0, front);
      StepFallsBack(cfg, focus, w, i, e);
      if FallsBackAt(w, i, e) {
        CallExists(w, i, e);
        RanNext(cfg.limits, EMPTY, calls, LocalCall(w, e.id));
      } else {
        assert calls + [] == calls;
      }
    }
  }

  lemma CallExists(w: World, i: nat, e: Event)
    requires FallsBackAt(w, i, e)
    ensures e.Fallback? && e.id in w.calls
  {
  }

  lemma {:induction false} LocalCallsInTime(cfg: Settings, focus: string, n: nat, t0: int, run: seq<Event>, i: nat)
    requires cfg.Valid()
    ensures var calls := LocalCalls(cfg, focus, n, t0, run, i);
            && InTime(calls)
            && forall j :: 0 <= j < |calls| ==> calls[j].at <= Seconds(After(cfg, focus, Initial(n, t0), run).now)
  {
    hide Step;
    if run != [] {
      var front, e := run[..|run| - 1], run[|run| - 1];
      var w := After(cfg, focus, Initial(n, t0), front);
      LocalCallsInTime(cfg, focus, n, t0, front, i);
      TimePasses(cfg, focus, w, e);
      SoonerIsLess(w.now, Step(cfg, focus, w, e).now);
    }
  }

  lemma FallbackForks(cfg: Settings, focus: string, w: World, i: nat, id: nat)
    requires cfg.Valid() && Placed(w) && FallsBackAt(w, i, Fallback(id))
    ensures i < |w.replicas|
    ensures var c := w.calls[id];
            var st := if w.replicas[i].fallback.Some? then w.replicas[i].fallback.value else EMPTY;
            Step(cfg, focus, w, Fallback(id)).calls
            == w.calls[id := c.(phase := if AcquireBoth(cfg.limits, st, LocalCall(w, id)).1 == Granted
                                         then Returned(Charge(Local(i), w.now, w.now), w.now) else Raised(Refused))]
  {
    hide AcquireBoth;
  }

  /** Over every run: a call that falls back is let through, and charged to its replica at this moment, exactly when all
      windows of both its tiers at that replica have room; otherwise it is refused. */
  lemma FallbackAnswersAsDue(cfg: Settings, focus: string, n: nat, t0: int, run: seq<Event>, i: nat, id: nat)
    requires cfg.Valid() && i < n && FallsBackAt(After(cfg, focus, Initial(n, t0), run), i, Fallback(id))
    ensures var w, calls := After(cfg, focus, Initial(n, t0), run), LocalCalls(cfg, focus, n, t0, run, i);
            var due := Due(cfg.limits, calls, Outcomes(cfg.limits, EMPTY, calls), LocalCall(w, id));
            After(cfg, focus, Initial(n, t0), run + [Fallback(id)]).calls
            == w.calls[id := w.calls[id].(phase :=
                 if due == Granted then Returned(Charge(Local(i), w.now, w.now), w.now) else Raised(Refused))]
  {
    hide After, Step, Placed, Due, AcquireBoth, LocalCalls;
    var w, calls := After(cfg, focus, Initial(n, t0), run), LocalCalls(cfg, focus, n, t0, run, i);
    var c := LocalCall(w, id);
    AfterNext(cfg, focus, Initial(n, t0), run, Fallback(id));
    RunPlaces(cfg, focus, n, t0, run);
    FallbackForks(cfg, focus, w, i, id);
    FallbackIsRan(cfg, focus, n, t0, run, i);
    LocalCallsInTime(cfg, focus, n, t0, run, i);
    AnsweredAsDue(cfg.limits, calls + [c], |calls|);
    RanNext(cfg.limits, EMPTY, calls, c);
    assert (calls + [c])[..|calls|] == calls;
    assert Outcomes(cfg.limits, EMPTY, calls + [c])[..|calls|] == Outcomes(cfg.limits, EMPTY, calls);
  }
}
