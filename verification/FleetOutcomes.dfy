/** How calls of the fleet end, and when the fallback covers an error. */
module FleetOutcomes {
  import opened Prelude
  import opened LocalLimiter
  import opened RedisBucket
  import opened SharedLedger
  import Breaker = CircuitBreaker
  import opened Fleet

  ghost predicate Placed(w: World) {
    && |w.local| == |w.replicas|
    && forall id :: id in w.calls ==> id < w.nextId && w.calls[id].replica < |w.replicas|
  }

  predicate HasRaised(w: World, id: nat, cause: Cause) {
    id in w.calls && w.calls[id].phase == Raised(cause)
  }

  /** The event that ends a call with an exception: a verdict of Redis or of the fallback against it, an error other
      than a connection error or a timeout while a script is out or its reply unused, or a cancellation before the
      end. */
  predicate Raises(cfg: Settings, w: World, e: Event, id: nat, cause: Cause) {
    && id in w.calls
    && var c := w.calls[id];
       match cause
       case Refused =>
         || (e == Settle(id) && c.phase.Replied? && !c.phase.granted)
         || (e == Fallback(id) && c.phase.FallingBack? && c.replica < |w.replicas|
             && FellBack(cfg, w.replicas[c.replica], c.replica, c, w.now).1 != Granted)
       case Escaped => e == Fail(id, OtherError) && (c.phase.Sent? || c.phase.Replied?)
       case Dropped => e == Drop(id) && !Finished(c.phase)
  }

  lemma StepPlaces(cfg: Settings, focus: string, w: World, e: Event)
    requires cfg.Valid() && Placed(w)
    ensures Placed(Step(cfg, focus, w, e))
  {
    hide Touch, AcquireBoth;
  }

  /** The event moves the call along. */
  predicate Concerns(e: Event, id: nat) {
    match e
    case Enter(i) => i == id
    case Resend(i) => i == id
    case RunScript(i, _) => i == id
    case Settle(i) => i == id
    case Fail(i, _) => i == id
    case Fallback(i) => i == id
    case Drop(i) => i == id
    case _ => false
  }

  lemma OthersStay(cfg: Settings, focus: string, w: World, e: Event, id: nat, cause: Cause)
    requires cfg.Valid() && Placed(w) && !Concerns(e, id)
    ensures HasRaised(Step(cfg, focus, w, e), id, cause) <==> HasRaised(w, id, cause)
    ensures !Raises(cfg, w, e, id, cause)
  {
    hide Touch, Entered, Settled, FailedWith, FellBack;
  }

  lemma ConcernedRaises(cfg: Settings, focus: string, w: World, e: Event, id: nat, cause: Cause)
    requires cfg.Valid() && Placed(w) && Concerns(e, id)
    ensures HasRaised(Step(cfg, focus, w, e), id, cause)
       <==> HasRaised(w, id, cause) || Raises(cfg, w, e, id, cause)
  {
    hide Touch, AcquireBoth;
  }

  lemma StepRaises(cfg: Settings, focus: string, w: World, e: Event, id: nat, cause: Cause)
    requires cfg.Valid() && Placed(w)
    ensures HasRaised(Step(cfg, focus, w, e), id, cause)
       <==> HasRaised(w, id, cause) || Raises(cfg, w, e, id, cause)
  {
    hide Step, Raises, Placed;
    if Concerns(e, id) {
      ConcernedRaises(cfg, focus, w, e, id, cause);
    } else {
      OthersStay(cfg, focus, w, e, id, cause);
    }
  }

  lemma {:induction false} RunPlaces(cfg: Settings, focus: string, n: nat, t0: int, run: seq<Event>)
    requires cfg.Valid()
    ensures Placed(After(cfg, focus, Initial(n, t0), run))
  {
    hide Step;
    if run != [] {
      RunPlaces(cfg, focus, n, t0, run[..|run| - 1]);
      StepPlaces(cfg, focus, After(cfg, focus, Initial(n, t0), run[..|run| - 1]), run[|run| - 1]);
    }
  }

  /** The k-th event of the run ended the call so. */
  ghost predicate RaisedBy(cfg: Settings, focus: string, start: World, run: seq<Event>, k: nat, id: nat, cause: Cause)
    requires cfg.Valid() && k < |run|
  {
    Raises(cfg, After(cfg, focus, start, run[..k]), run[k], id, cause)
  }

  /** Over every run: a call has raised for a cause exactly if some event of the run met it that way. In particular an
      error has escaped exactly if an error other than a connection error or a timeout met the call at Redis. */
  lemma {:induction false} RaisedIff(cfg: Settings, focus: string, n: nat, t0: int, run: seq<Event>, id: nat,
                                     cause: Cause)
    requires cfg.Valid()
    ensures HasRaised(After(cfg, focus, Initial(n, t0), run), id, cause)
       <==> exists k: nat :: k < |run| && RaisedBy(cfg, focus, Initial(n, t0), run, k, id, cause)
  {
    hide Step, Raises;
    if run != [] {
      var start, m := Initial(n, t0), |run| - 1;
      var front := run[..m];
      RaisedIff(cfg, focus, n, t0, front, id, cause);
      RunPlaces(cfg, focus, n, t0, front);
      StepRaises(cfg, focus, After(cfg, focus, start, front), run[m], id, cause);
      forall k: nat | k < m
        ensures RaisedBy(cfg, focus, start, front, k, id, cause) <==> RaisedBy(cfg, focus, start, run, k, id, cause)
      {
        assert front[..k] == run[..k];
      }
      assert RaisedBy(cfg, focus, start, run, m, id, cause)
        <==> Raises(cfg, After(cfg, focus, start, front), run[m], id, cause);
    }
  }

  /** As long as Redis fails by connection errors and timeouts only and no caller is cancelled, every finished call was
      let through or refused by a limiter. */
  lemma FallbackAnswers(cfg: Settings, focus: string, n: nat, t0: int, run: seq<Event>, id: nat)
    requires cfg.Valid() && forall k :: 0 <= k < |run| ==> !run[k].Drop? && (run[k].Fail? ==> run[k].why == Unavailable)
    requires var w := After(cfg, focus, Initial(n, t0), run); id in w.calls && Finished(w.calls[id].phase)
    ensures var phase := After(cfg, focus, Initial(n, t0), run).calls[id].phase;
            phase.Returned? || phase == Raised(Refused)
  {
    hide After, Step;
    forall cause, k: nat | k < |run| && cause != Refused
      ensures !RaisedBy(cfg, focus, Initial(n, t0), run, k, id, cause)
    {
    }
    RaisedIff(cfg, focus, n, t0, run, id, Escaped);
    RaisedIff(cfg, focus, n, t0, run, id, Dropped);
    var phase := After(cfg, focus, Initial(n, t0), run).calls[id].phase;
    if phase.Raised? {
      assert phase.cause != Escaped && phase.cause != Dropped;
    }
  }

  /** The shortest run in which an error escapes: a script that Redis answers with another error. */
  lemma ErrorEscapes(cfg: Settings, focus: string, n: nat, t0: int, tenant: string, session: string)
    requires cfg.Valid() && n > 0
    ensures HasRaised(After(cfg, focus, Initial(n, t0), [Begin(0, tenant, session), Enter(0), Fail(0, OtherError)]), 0,
                      Escaped)
  {
    var run := [Begin(0, tenant, session), Enter(0), Fail(0, OtherError)];
    var w0 := Initial(n, t0);
    var w1 := Step(cfg, focus, w0, run[0]);
    var w2 := Step(cfg, focus, w1, run[1]);
    assert w2.calls[0].phase.Sent?;
    assert run[..2] == [run[0], run[1]] && run[..2][..1] == [run[0]] && run[..1][..0] == [];
    assert After(cfg, focus, w0, []) == w0;
    assert After(cfg, focus, w0, [run[0]]) == w1;
    assert After(cfg, focus, w0, run[..2]) == w2;
  }
}
