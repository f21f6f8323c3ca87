/** The sink objects: the fields of QueuedSink with its submit, start and stop, and the drain loops, proved against the
    steps of the ledger. */
module QueuedSinks {
  import opened Prelude
  import opened AuditSink
  import opened Delivery

  /** What the drain task meets at one `queue.get`: events submitted and a stop requested while it waited,
      whether its time ran out, and what the attempts to deliver will do. */
  datatype Poll = Poll(arrivals: seq<AuditEvent>, stop: bool, expired: bool, env: seq<Attempt>)

  ghost predicate Reaches(a: Sink, b: Sink) {
    exists steps :: Run(a, steps) == b
  }

  lemma ReachesSelf(a: Sink)
    ensures Reaches(a, a)
  {
    assert Run(a, []) == a;
  }

  lemma ReachesNext(a: Sink, b: Sink, step: Step)
    requires Reaches(a, b)
    ensures Reaches(a, Apply(b, step))
  {
    var steps :| Run(a, steps) == b;
    assert (steps + [step])[..|steps|] == steps;
    assert Run(a, steps + [step]) == Apply(b, step);
  }

  lemma {:induction false} RunConcat(a: Sink, p: seq<Step>, q: seq<Step>)
    ensures Run(a, p + q) == Run(Run(a, p), q)
  {
    if q == [] {
      assert p + q == p;
    } else {
      var m := |q| - 1;
      RunConcat(a, p, q[..m]);
      assert (p + q)[..|p + q| - 1] == p + q[..m];
    }
  }

  lemma ReachesTransitive(a: Sink, b: Sink, c: Sink)
    requires Reaches(a, b) && Reaches(b, c)
    ensures Reaches(a, c)
  {
    var p :| Run(a, p) == b;
    var q :| Run(b, q) == c;
    RunConcat(a, p, q);
  }

  /** The step that a verdict of the retry loop amounts to. */
  function Settling(v: Verdict): Step {
    match v
    case Delivered => Step.Deliver
    case GaveUp => GiveUp
    case Interrupted => Interrupt
    case NeverTried => Skip
  }

  /** Stop was requested before the first attempt. */
  function AlreadyStopped(env: seq<Attempt>): (r: seq<Attempt>)
    ensures |r| == |env| && forall i :: 0 <= i < |env| ==> r[i] == env[i].(stopAfter := Some(0.0))
  {
    seq(|env|, i requires 0 <= i < |env| => env[i].(stopAfter := Some(0.0)))
  }

  /** How sending ends in this state. A stop already requested cuts the first backoff off at once. */
  function SendVerdict(s: Sink, base: real, env: seq<Attempt>): Verdict
    requires s.maxAttempts <= |env|
  {
    VerdictOf(if s.stopped then AlreadyStopped(env) else env, base, s.maxAttempts)
  }

  function AfterSend(s: Sink, v: Verdict): (r: Sink)
    ensures r.SameSettings(s)
  {
    Apply(if v == Interrupted then Apply(s, RequestStop) else s, Settling(v))
  }

  lemma SendReaches(s: Sink, v: Verdict)
    ensures Reaches(s, AfterSend(s, v))
  {
    ReachesSelf(s);
    ReachesNext(s, s, RequestStop);
    ReachesNext(s, if v == Interrupted then Apply(s, RequestStop) else s, Settling(v));
  }

  /** What a send leaves as it was. */
  lemma SendKeeps(s: Sink, v: Verdict)
    requires Enabled(if v == Interrupted then Apply(s, RequestStop) else s, Settling(v))
    ensures var s' := AfterSend(s, v);
            && s'.buf == [] && !s'.sending && s'.queue == s.queue && s'.task == s.task && (s.stopped ==> s'.stopped)
            && s'.ledger.taken == s.ledger.taken
  {
  }

  // ---------------------------------------------------------------- what the loops do

  predicate Plausible(p: Poll, maxAttempts: int) {
    && maxAttempts <= |p.env|
    && forall i :: 0 <= i < |p.env| && p.env[i].stopAfter.Some? ==> p.env[i].stopAfter.value >= 0.0
  }

  predicate AllPlausible(polls: seq<Poll>, maxAttempts: int) {
    forall j :: 0 <= j < |polls| ==> Plausible(polls[j], maxAttempts)
  }

  function SubmitAll(s: Sink, es: seq<AuditEvent>): (r: Sink)
    ensures r.SameSettings(s)
  {
    if es == [] then s else Apply(SubmitAll(s, es[..|es| - 1]), Submit(es[|es| - 1]))
  }

  /** The state after what others did during one wait. */
  function Met(s: Sink, p: Poll): (r: Sink)
    ensures r.SameSettings(s)
  {
    var s1 := SubmitAll(s, p.arrivals);
    if p.stop then Apply(s1, RequestStop) else s1
  }

  /** The time ran out, or there was nothing to get. */
  predicate NothingCame(s: Sink, p: Poll) {
    p.expired || s.queue.None? || s.queue.value == []
  }

  function DrainTurn(s: Sink, base: real, p: Poll): (r: Sink)
    requires s.maxAttempts <= |p.env|
    ensures r.SameSettings(s)
  {
    var s1 := Met(s, p);
    if NothingCame(s1, p) then s1
    else
      var s2 := Apply(s1, Take);
      AfterSend(s2, SendVerdict(s2, base, p.env))
  }

  /** The base loop from poll `k` on: the final state, and how many polls it used. */
  function Drained(s: Sink, base: real, polls: seq<Poll>, k: nat): (Sink, nat)
    requires AllPlausible(polls, s.maxAttempts)
    decreases |polls| - k
  {
    if k >= |polls| || (s.stopped && s.queue == Some([])) then (s, k)
    else Drained(DrainTurn(s, base, polls[k]), base, polls, k + 1)
  }

  /** The inner loop of the batched sinks. */
  function Gathered(s: Sink, polls: seq<Poll>, k: nat): (r: (Sink, nat))
    ensures r.0.SameSettings(s) && k <= r.1
    ensures k <= |polls| ==> r.1 <= |polls|
    decreases |polls| - k
  {
    if k >= |polls| || s.kind.PerEvent? || |s.buf| >= s.kind.batch then (s, k)
    else
      var s1 := Met(s, polls[k]);
      if NothingCame(s1, polls[k]) then (s1, k + 1) else Gathered(Apply(s1, Take), polls, k + 1)
  }

  function Flushed(s: Sink, base: real, env: seq<Attempt>): (r: Sink)
    requires s.maxAttempts <= |env|
    ensures r.SameSettings(s)
  {
    AfterSend(Apply(s, Flush), SendVerdict(Apply(s, Flush), base, env))
  }

  /** The outer loop of the batched sinks. */
  function BatchDrained(s: Sink, base: real, polls: seq<Poll>, k: nat): (Sink, nat)
    requires AllPlausible(polls, s.maxAttempts)
    decreases |polls| - k
  {
    if k >= |polls| || (s.stopped && s.queue == Some([]) && s.buf == []) then (s, k)
    else
      var (s1, k1) := Gathered(s, polls, k);
      if k1 == k then (s1, k)
      else BatchDrained(if s1.buf == [] then s1 else Flushed(s1, base, polls[k1 - 1].env), base, polls, k1)
  }

  /** The drain task between two turns. */
  predicate Idle(s: Sink) {
    s.task == Running && s.queue.Some? && !s.sending && s.buf == []
  }

  /** The batched drain task between two waits. */
  predicate Gathering(s: Sink) {
    s.kind.Batched? && s.task == Running && s.queue.Some? && !s.sending && |s.buf| <= s.kind.batch
  }

  lemma {:induction false} SubmitAllKeeps(s: Sink, es: seq<AuditEvent>)
    requires s.queue.Some?
    ensures var r := SubmitAll(s, es);
            r.queue.Some? && r.task == s.task && r.sending == s.sending && r.buf == s.buf
  {
    if es != [] {
      SubmitAllKeeps(s, es[..|es| - 1]);
    }
  }

  lemma MetKeepsIdle(s: Sink, p: Poll)
    requires s.queue.Some?
    ensures var r := Met(s, p); r.queue.Some? && r.task == s.task && r.sending == s.sending && r.buf == s.buf
  {
    SubmitAllKeeps(s, p.arrivals);
  }

  // ---------------------------------------------------------------- the loops take only steps of the ledger

  lemma {:induction false} SubmitAllReaches(s: Sink, es: seq<AuditEvent>)
    ensures Reaches(s, SubmitAll(s, es))
  {
    hide Reaches, Apply;
    if es == [] {
      ReachesSelf(s);
    } else {
      SubmitAllReaches(s, es[..|es| - 1]);
      ReachesNext(s, SubmitAll(s, es[..|es| - 1]), Submit(es[|es| - 1]));
    }
  }

  lemma MetReaches(s: Sink, p: Poll)
    ensures Reaches(s, Met(s, p))
  {
    hide Reaches, Apply, SubmitAll;
    SubmitAllReaches(s, p.arrivals);
    ReachesNext(s, SubmitAll(s, p.arrivals), RequestStop);
  }

  lemma TurnReaches(s: Sink, base: real, p: Poll)
    requires s.maxAttempts <= |p.env|
    ensures Reaches(s, DrainTurn(s, base, p))
  {
    hide Reaches, Apply, Met, AfterSend, VerdictOf;
    MetReaches(s, p);
    var s1 := Met(s, p);
    if !NothingCame(s1, p) {
      ReachesNext(s, s1, Take);
      var s2 := Apply(s1, Take);
      SendReaches(s2, SendVerdict(s2, base, p.env));
      ReachesTransitive(s, s2, AfterSend(s2, SendVerdict(s2, base, p.env)));
    }
  }

  /** Whatever the base loop meets, it does nothing but take, deliver and give up on events as the ledger says. */
  lemma {:induction false} DrainedReaches(s: Sink, base: real, polls: seq<Poll>, k: nat)
    requires AllPlausible(polls, s.maxAttempts)
    ensures Reaches(s, Drained(s, base, polls, k).0)
    decreases |polls| - k
  {
    hide Reaches, DrainTurn;
    if k >= |polls| || (s.stopped && s.queue == Some([])) {
      ReachesSelf(s);
    } else {
      var s1 := DrainTurn(s, base, polls[k]);
      TurnReaches(s, base, polls[k]);
      DrainedReaches(s1, base, polls, k + 1);
      ReachesTransitive(s, s1, Drained(s1, base, polls, k + 1).0);
    }
  }

  lemma {:induction false} GatheredReaches(s: Sink, polls: seq<Poll>, k: nat)
    ensures Reaches(s, Gathered(s, polls, k).0)
    decreases |polls| - k
  {
    hide Reaches, Apply, Met;
    if k >= |polls| || s.kind.PerEvent? || |s.buf| >= s.kind.batch {
      ReachesSelf(s);
    } else {
      var s1 := Met(s, polls[k]);
      MetReaches(s, polls[k]);
      if !NothingCame(s1, polls[k]) {
        ReachesNext(s, s1, Take);
        GatheredReaches(Apply(s1, Take), polls, k + 1);
        ReachesTransitive(s, Apply(s1, Take), Gathered(Apply(s1, Take), polls, k + 1).0);
      }
    }
  }

  lemma FlushedReaches(s: Sink, base: real, env: seq<Attempt>)
    requires s.maxAttempts <= |env|
    ensures Reaches(s, Flushed(s, base, env))
  {
    hide Reaches, Apply, AfterSend, VerdictOf;
    var s1 := Apply(s, Flush);
    ReachesSelf(s);
    ReachesNext(s, s, Flush);
    SendReaches(s1, SendVerdict(s1, base, env));
    ReachesTransitive(s, s1, Flushed(s, base, env));
  }

  /** The same for the batched loops. */
  lemma {:induction false} BatchDrainedReaches(s: Sink, base: real, polls: seq<Poll>, k: nat)
    requires AllPlausible(polls, s.maxAttempts)
    ensures Reaches(s, BatchDrained(s, base, polls, k).0)
    decreases |polls| - k
  {
    hide Reaches, Gathered, Flushed;
    if k >= |polls| || (s.stopped && s.queue == Some([]) && s.buf == []) {
      ReachesSelf(s);
    } else {
      var (s1, k1) := Gathered(s, polls, k);
      GatheredReaches(s, polls, k);
      if k1 > k {
        var s2 := if s1.buf == [] then s1 else Flushed(s1, base, polls[k1 - 1].env);
        if s1.buf != [] {
          FlushedReaches(s1, base, polls[k1 - 1].env);
          ReachesTransitive(s, s1, s2);
        }
        BatchDrainedReaches(s2, base, polls, k1);
        ReachesTransitive(s, s2, BatchDrained(s2, base, polls, k1).0);
      }
    }
  }

  class QueuedSink {
    const kind: Kind
    const maxsize: int
    const maxAttempts: int
    const backoffBase: real
    var preStart: seq<AuditEvent>
    var queue: Option<seq<AuditEvent>>
    var stopped: bool
    var task: Task
    var buf: seq<AuditEvent>
    var sending: bool
    var unfinished: int
    ghost var ledger: Ledger

    ghost function Value(): Sink
      reads this
    {
      Sink(kind, maxsize, maxAttempts, preStart, queue, stopped, task, buf, sending, unfinished, ledger)
    }

    /** What the configuration schema guarantees. */
    predicate Configured() {
      backoffBase >= 0.0 && (kind.Batched? ==> kind.batch >= 1)
    }

    constructor (kind: Kind, maxsize: int, maxAttempts: int, backoffBase: real)
      requires backoffBase >= 0.0 && (kind.Batched? ==> kind.batch >= 1)
      ensures Configured() && Value() == New(kind, maxsize, maxAttempts) && this.backoffBase == backoffBase
    {
      this.kind, this.maxsize, this.maxAttempts, this.backoffBase := kind, maxsize, maxAttempts, backoffBase;
      preStart, queue, stopped, task := [], None, false, NotStarted;
      buf, sending, unfinished, ledger := [], false, 0, BLANK;
    }

    method RecordDrop(e: AuditEvent)
      modifies this`ledger
      ensures ledger == old(ledger).(overflow := old(ledger).overflow + [e])
    {
      ledger := ledger.(overflow := ledger.overflow + [e]);
    }

    /** The body of submit. Nothing runs between the tries to put the event, so once the oldest is gone there
        is room. */
    method Put(e: AuditEvent) returns (raised: bool)
      modifies this
      ensures var r := Enqueue(old(Value()), e);
              raised == r.None? && Value() == if raised then old(Value()) else r.value
    {
      if queue.None? {
        if |preStart| >= maxsize {
          if preStart == [] {
            return true;
          }
          var evicted := preStart[0];
          preStart := preStart[1..];
          RecordDrop(evicted);
        }
        preStart := preStart + [e];
        return false;
      }
      if maxsize <= 0 || |queue.value| < maxsize {
        queue := Some(queue.value + [e]);
        unfinished := unfinished + 1;
        return false;
      }
      var evicted := queue.value[0];
      queue := Some(queue.value[1..]);
      RecordDrop(evicted);
      unfinished := unfinished - 1;
      queue := Some(queue.value + [e]);
      unfinished := unfinished + 1;
      return false;
    }

    method SubmitEvent(e: AuditEvent) returns (raised: bool)
      modifies this
      ensures raised <==> !Enabled(old(Value()), Submit(e))
      ensures Value() == Apply(old(Value()), Submit(e))
    {
      raised := Put(e);
      if !raised {
        ledger := ledger.(submitted := ledger.submitted + [e]);
      }
    }

    /** Flush what arrived before start into a new queue, then let the drain task run. */
    method StartSink()
      requires queue.None?
      modifies this
      ensures Value() == Apply(old(Value()), Start)
    {
      hide Enqueue;
      var buffered := preStart;
      queue, stopped, unfinished, preStart := Some([]), false, 0, [];
      ghost var base := Value();
      ghost var s0 := base.(task := Running);
      var i := 0;
      while i < |buffered|
        invariant 0 <= i <= |buffered|
        invariant Value().(task := Running) == EnqueueAll(s0, buffered[..i]) && queue.Some?
      {
        EnqueueIgnoresTask(Value(), buffered[i]);
        EnqueueKeepsQueue(Value(), buffered[i]);
        var raised := Put(buffered[i]);
        assert buffered[..i + 1][..i] == buffered[..i];
        i := i + 1;
      }
      assert buffered[..i] == buffered;
      task := Running;
    }

    /** The first half of stop; the rest waits for `join` or a timeout and then cancels the task. */
    method AskToStop()
      modifies this`stopped
      ensures Value() == Apply(old(Value()), RequestStop)
    {
      if queue.Some? {
        stopped := true;
      }
    }

    method CancelDrain()
      requires stopped && task == Running
      modifies this
      ensures Value() == Apply(old(Value()), CancelTask)
    {
      ledger := ledger.(cancelled := ledger.cancelled + buf);
      if kind.PerEvent? {
        unfinished := unfinished - |buf|;
      }
      buf, sending, task := [], false, Cancelled;
    }

    /** `queue.get`, and for the batched loops `task_done` at once. */
    method TakeNext()
      requires Enabled(Value(), Take)
      modifies this
      ensures Value() == Apply(old(Value()), Take)
    {
      var e := queue.value[0];
      queue := Some(queue.value[1..]);
      buf := buf + [e];
      ledger := ledger.(taken := ledger.taken + [e]);
      if kind.Batched? {
        unfinished := unfinished - 1;
      } else {
        sending := true;
        ledger := ledger.(batches := ledger.batches + [[e]]);
      }
    }

    method BeginSend()
      requires Enabled(Value(), Flush)
      modifies this
      ensures Value() == Apply(old(Value()), Flush)
    {
      sending := true;
      ledger := ledger.(batches := ledger.batches + [buf]);
    }

    /** Book the end of a delivery. */
    method Settle(v: Verdict)
      requires Enabled(Value(), Settling(v))
      modifies this
      ensures Value() == Apply(old(Value()), Settling(v))
    {
      if v == Delivered {
        ledger := ledger.(delivered := ledger.delivered + buf);
      } else if v == GaveUp || (v == Interrupted && kind.Batched?) {
        ledger := ledger.(failed := ledger.failed + buf);
      } else {
        ledger := ledger.(abandoned := ledger.abandoned + buf);
      }
      if kind.PerEvent? {
        unfinished := unfinished - |buf|;
      }
      buf, sending := [], false;
    }

    /** Run the retry loop on what is being sent and book how it ends; a stop during a backoff is seen there. */
    method Send(env: seq<Attempt>) returns (v: Verdict)
      requires Configured() && sending && maxAttempts <= |env| && queue.Some?
      requires forall i :: 0 <= i < |env| && env[i].stopAfter.Some? ==> env[i].stopAfter.value >= 0.0
      modifies this
      ensures v == SendVerdict(old(Value()), backoffBase, env)
      ensures Value() == AfterSend(old(Value()), v)
      ensures Enabled(if v == Interrupted then Apply(old(Value()), RequestStop) else old(Value()), Settling(v))
    {
      var attempts, waited;
      v, attempts, waited := DeliverWithRetry(maxAttempts, backoffBase, if stopped then AlreadyStopped(env) else env);
      if v == Interrupted {
        AskToStop();
      }
      Settle(v);
    }

    /** What others do while the drain task waits. */
    method Elsewhere(p: Poll)
      requires queue.Some?
      modifies this
      ensures Value() == Met(old(Value()), p)
    {
      hide Enqueue;
      ghost var before := Value();
      for i := 0 to |p.arrivals|
        invariant queue.Some? && Value() == SubmitAll(before, p.arrivals[..i])
      {
        assert p.arrivals[..i + 1][..i] == p.arrivals[..i];
        EnqueueKeepsQueue(Value(), p.arrivals[i]);
        var raised := SubmitEvent(p.arrivals[i]);
      }
      assert p.arrivals[..|p.arrivals|] == p.arrivals;
      if p.stop {
        AskToStop();
      }
    }

    /** One turn of QueuedSink's loop: wait for an event, deliver it, `task_done`. */
    method DrainOne(p: Poll)
      requires Configured() && kind.PerEvent? && Idle(Value()) && Plausible(p, maxAttempts)
      modifies this
      ensures Value() == DrainTurn(old(Value()), backoffBase, p) && Idle(Value())
    {
      MetKeepsIdle(Value(), p);
      Elsewhere(p);
      if !p.expired && queue.value != [] {
        TakeNext();
        ghost var s := Value();
        var v := Send(p.env);
        SendKeeps(s, v);
      }
    }

    /** QueuedSink's loop. It ends when a stop is requested and the queue is empty. */
    method DrainLoop(polls: seq<Poll>) returns (used: nat)
      requires Configured() && kind.PerEvent? && Idle(Value())
      requires AllPlausible(polls, maxAttempts)
      modifies this
      ensures (Value(), used) == Drained(old(Value()), backoffBase, polls, 0)
      ensures Idle(Value()) && used <= |polls| && (used < |polls| ==> stopped && queue == Some([]))
    {
      hide DrainTurn, Plausible;
      used := 0;
      while used < |polls| && (!stopped || queue != Some([]))
        invariant used <= |polls| && Idle(Value())
        invariant Drained(Value(), backoffBase, polls, used) == Drained(old(Value()), backoffBase, polls, 0)
      {
        DrainOne(polls[used]);
        used := used + 1;
      }
    }

    /** The inner loop of the batched sinks: take events until the batch is full or the time is up. */
    method Gather(polls: seq<Poll>, start: nat) returns (used: nat)
      requires Configured() && kind.Batched? && Idle(Value()) && start < |polls|
      modifies this
      ensures (Value(), used) == Gathered(old(Value()), polls, start)
      ensures start < used <= |polls| && Gathering(Value())
    {
      hide Met;
      used := start;
      var timeLeft := true;
      while timeLeft && |buf| < kind.batch && used < |polls|
        invariant start <= used <= |polls| && Gathering(Value()) && (used == start ==> timeLeft && buf == [])
        invariant Gathered(old(Value()), polls, start)
               == if timeLeft then Gathered(Value(), polls, used) else (Value(), used)
        decreases |polls| - used
      {
        var p := polls[used];
        used := used + 1;
        MetKeepsIdle(Value(), p);
        Elsewhere(p);
        if p.expired || queue.value == [] {
          timeLeft := false;
        } else {
          TakeNext();
        }
      }
    }

    method SendBatch(env: seq<Attempt>)
      requires Configured() && Gathering(Value()) && buf != [] && maxAttempts <= |env|
      requires forall i :: 0 <= i < |env| && env[i].stopAfter.Some? ==> env[i].stopAfter.value >= 0.0
      modifies this
      ensures Value() == Flushed(old(Value()), backoffBase, env) && Idle(Value())
    {
      BeginSend();
      ghost var s := Value();
      var v := Send(env);
      SendKeeps(s, v);
    }

    /** The loop of the batched sinks. It ends when a stop is requested and both queue and buffer are empty. */
    method BatchedDrainLoop(polls: seq<Poll>) returns (used: nat)
      requires Configured() && kind.Batched? && Idle(Value())
      requires AllPlausible(polls, maxAttempts)
      modifies this
      ensures (Value(), used) == BatchDrained(old(Value()), backoffBase, polls, 0)
      ensures Idle(Value()) && used <= |polls| && (used < |polls| ==> stopped && queue == Some([]))
    {
      hide Gathered, Flushed;
      used := 0;
      while used < |polls| && (!stopped || queue != Some([]) || buf != [])
        invariant used <= |polls| && Idle(Value())
        invariant BatchDrained(Value(), backoffBase, polls, used) == BatchDrained(old(Value()), backoffBase, polls, 0)
        decreases |polls| - used
      {
        used := Gather(polls, used);
        if buf != [] {
          SendBatch(polls[used - 1].env);
        }
      }
    }
  }

  lemma EnqueueKeepsQueue(s: Sink, e: AuditEvent)
    requires s.queue.Some?
    ensures Enqueue(s, e).Some? && Enqueue(s, e).value.queue.Some?
  {
  }

  lemma EnqueueIgnoresTask(s: Sink, e: AuditEvent)
    ensures Enqueue(s.(task := Running), e).None? <==> Enqueue(s, e).None?
    ensures Enqueue(s, e).Some? ==> Enqueue(s.(task := Running), e).value == Enqueue(s, e).value.(task := Running)
  {
  }
}
