/** The audit sinks' queue: QueuedSink of observability/sinks/base.py and its batched loops. */
module AuditSink {
  // HttpSink and WazuhIndexerSink put batched loops in its place. Everything between two awaits is one step.

  import opened Prelude

  datatype AuditEvent = AuditEvent(id: Option<string>, body: string)

  /** QueuedSink and FileSink deliver one event at a time; the other two gather batches. */
  datatype Kind = PerEvent | Batched(batch: int)

  datatype Task = NotStarted | Running | Exited | Cancelled

  /** Where every submitted event went, in order. `abandoned` are let go of without a record. `taken` and
      `batches` are what the drain task took from the queue and what it handed to the sender. */
  datatype Ledger = Ledger(
    submitted: seq<AuditEvent>,
    delivered: seq<AuditEvent>,
    overflow: seq<AuditEvent>,
    failed: seq<AuditEvent>,
    abandoned: seq<AuditEvent>,
    cancelled: seq<AuditEvent>,
    taken: seq<AuditEvent>,
    batches: seq<seq<AuditEvent>>)

  const BLANK := Ledger([], [], [], [], [], [], [], [])

  datatype Sink = Sink(
    kind: Kind,
    maxsize: int,
    maxAttempts: int,
    preStart: seq<AuditEvent>,
    queue: Option<seq<AuditEvent>>,
    stopped: bool,
    task: Task,
    buf: seq<AuditEvent>,
    sending: bool,
    unfinished: int,
    ledger: Ledger)
  {
    /** The events still waiting: in the queue, or in the buffer that stands in for it before start. */
    function Waiting(): seq<AuditEvent> {
      if queue.Some? then queue.value else preStart
    }

    predicate SameSettings(other: Sink) {
      kind == other.kind && maxsize == other.maxsize && maxAttempts == other.maxAttempts
    }

    predicate QueueFull() {
      queue.Some? && maxsize > 0 && |queue.value| >= maxsize
    }
  }

  function New(kind: Kind, maxsize: int, maxAttempts: int): Sink {
    Sink(kind, maxsize, maxAttempts, [], None, false, NotStarted, [], false, 0, BLANK)
  }

  /** What submit does with an event; None stands for the IndexError of popping an empty list. */
  function Enqueue(s: Sink, e: AuditEvent): (r: Option<Sink>)
    ensures r.Some? ==> r.value.SameSettings(s)
  {
    if s.queue.None? then
      if |s.preStart| < s.maxsize then Some(s.(preStart := s.preStart + [e]))
      else if s.preStart == [] then None
      else Some(s.(preStart := s.preStart[1..] + [e],
                   ledger := s.ledger.(overflow := s.ledger.overflow + [s.preStart[0]])))
    else if !s.QueueFull() then
      Some(s.(queue := Some(s.queue.value + [e]), unfinished := s.unfinished + 1))
    else
      Some(s.(queue := Some(s.queue.value[1..] + [e]),
              ledger := s.ledger.(overflow := s.ledger.overflow + [s.queue.value[0]])))
  }

  function EnqueueAll(s: Sink, events: seq<AuditEvent>): (r: Sink)
    ensures r.SameSettings(s)
  {
    if events == [] then s
    else
      var before := EnqueueAll(s, events[..|events| - 1]);
      var r := Enqueue(before, events[|events| - 1]);
      if r.Some? then r.value else before
  }

  datatype Step =
    | Submit(e: AuditEvent)
    | Start
    | Take
    | Flush
    | Deliver
    | GiveUp
    | Interrupt
    | Skip
    | RequestStop
    | CancelTask
    | Exit

  predicate Enabled(s: Sink, step: Step) {
    match step
    case Submit(e) => Enqueue(s, e).Some?
    case Start => s.queue.None?
    case Take =>
      && s.task == Running && s.queue.Some? && s.queue.value != [] && !s.sending
      && (s.kind.Batched? ==> |s.buf| < s.kind.batch)
    case Flush => s.task == Running && s.kind.Batched? && s.buf != [] && !s.sending
    case Deliver => s.sending && s.maxAttempts >= 1
    case GiveUp => s.sending && s.maxAttempts >= 1
    case Interrupt => s.sending && s.maxAttempts >= 2 && s.stopped
    case Skip => s.sending && s.maxAttempts <= 0
    case RequestStop => s.queue.Some?
    case CancelTask => s.stopped && s.task == Running
    case Exit => s.task == Running && s.stopped && s.queue == Some([]) && s.buf == []
  }

  /** The delivery of `buf` is over, one way or another; the base loop now calls `task_done`. */
  function Settled(s: Sink, ledger: Ledger): Sink {
    s.(buf := [], sending := false, unfinished := s.unfinished - (if s.kind.PerEvent? then |s.buf| else 0),
       ledger := ledger)
  }

  function Apply(s: Sink, step: Step): (r: Sink)
    ensures r.SameSettings(s)
  {
    if !Enabled(s, step) then s
    else
      var l := s.ledger;
      match step
      case Submit(e) =>
        var s' := Enqueue(s, e).value;
        s'.(ledger := s'.ledger.(submitted := l.submitted + [e]))
      case Start =>
        EnqueueAll(s.(queue := Some([]), preStart := [], unfinished := 0, stopped := false, task := Running),
                   s.preStart)
      case Take =>
        var e := s.queue.value[0];
        var s' := s.(queue := Some(s.queue.value[1..]), buf := s.buf + [e], ledger := l.(taken := l.taken + [e]));
        if s.kind.Batched? then s'.(unfinished := s.unfinished - 1)
        else s'.(sending := true, ledger := s'.ledger.(batches := l.batches + [[e]]))
      case Flush => s.(sending := true, ledger := l.(batches := l.batches + [s.buf]))
      case Deliver => Settled(s, l.(delivered := l.delivered + s.buf))
      case GiveUp => Settled(s, l.(failed := l.failed + s.buf))
      case Interrupt =>
        // The base loop returns without recording a drop; the batched ones record one for each event.
        Settled(s, if s.kind.PerEvent? then l.(abandoned := l.abandoned + s.buf) else l.(failed := l.failed + s.buf))
      case Skip => Settled(s, l.(abandoned := l.abandoned + s.buf))
      case RequestStop => s.(stopped := true)
      case CancelTask => Settled(s, l.(cancelled := l.cancelled + s.buf)).(task := Cancelled)
      case Exit => s.(task := Exited)
  }

  function Run(s: Sink, steps: seq<Step>): Sink {
    if steps == [] then s else Apply(Run(s, steps[..|steps| - 1]), steps[|steps| - 1])
  }

  // ---------------------------------------------------------------- subsequences

  /** `a` is what is left of `b` after removing some elements. */
  ghost predicate Sub<T(!new)>(a: seq<T>, b: seq<T>)
    decreases |b|
  {
    a == [] || (b != [] && (Sub(a, b[..|b| - 1]) || (a[|a| - 1] == b[|b| - 1] && Sub(a[..|a| - 1], b[..|b| - 1]))))
  }

  lemma SubSnoc<T(!new)>(a: seq<T>, b: seq<T>, x: T)
    requires Sub(a, b)
    ensures Sub(a, b + [x]) && Sub(a + [x], b + [x])
  {
    assert (b + [x])[..|b|] == b && (a + [x])[..|a|] == a;
  }

  lemma {:induction false} SubReflexive<T(!new)>(a: seq<T>)
    ensures Sub(a, a)
  {
    if a != [] {
      SubReflexive(a[..|a| - 1]);
    }
  }

  lemma {:induction false} SubTransitive<T(!new)>(a: seq<T>, b: seq<T>, c: seq<T>)
    requires Sub(a, b) && Sub(b, c)
    ensures Sub(a, c)
    decreases |c|
  {
    if a == [] || b == [] {
    } else if Sub(b, c[..|c| - 1]) {
      SubTransitive(a, b, c[..|c| - 1]);
    } else if Sub(a, b[..|b| - 1]) {
      SubTransitive(a, b[..|b| - 1], c[..|c| - 1]);
    } else {
      SubTransitive(a[..|a| - 1], b[..|b| - 1], c[..|c| - 1]);
    }
  }

  lemma {:induction false} SubAppend<T(!new)>(a: seq<T>, b: seq<T>, c: seq<T>)
    requires Sub(a, b)
    ensures Sub(a + c, b + c)
  {
    if c == [] {
      assert a + c == a && b + c == b;
    } else {
      var m := |c| - 1;
      SubAppend(a, b, c[..m]);
      SubSnoc(a + c[..m], b + c[..m], c[m]);
      assert a + c == a + c[..m] + [c[m]] && b + c == b + c[..m] + [c[m]];
    }
  }

  /** Removing one element from the middle. */
  lemma SubDropOne<T(!new)>(a: seq<T>, x: T, c: seq<T>, b: seq<T>)
    requires Sub(a + [x] + c, b)
    ensures Sub(a + c, b)
  {
    SubReflexive(a);
    SubSnoc(a, a, x);
    SubAppend(a, a + [x], c);
    SubTransitive(a + c, a + [x] + c, b);
  }

  lemma {:induction false} SubFront<T(!new)>(a: seq<T>, c: seq<T>)
    ensures Sub(a, a + c)
  {
    if c == [] {
      assert a + c == a;
      SubReflexive(a);
    } else {
      var m := |c| - 1;
      SubFront(a, c[..m]);
      SubSnoc(a, a + c[..m], c[m]);
      assert a + c == a + c[..m] + [c[m]];
    }
  }

  function Flatten<T>(parts: seq<seq<T>>): seq<T> {
    if parts == [] then [] else Flatten(parts[..|parts| - 1]) + parts[|parts| - 1]
  }

  // ---------------------------------------------------------------- what every step keeps

  /** Each submitted event is in exactly one place. */
  ghost predicate Conserved(s: Sink) {
    var l := s.ledger;
    forall e ::
      Count(l.submitted, e) == Count(l.delivered, e) + Count(l.overflow, e) + Count(l.failed, e) + Count(l.abandoned, e)
                               + Count(l.cancelled, e) + Count(s.buf, e) + Count(s.Waiting(), e)
  }

  /** How often `x` occurs in `a`. */
  function Count<T(==)>(a: seq<T>, x: T): nat {
    multiset(a)[x]
  }

  lemma CountConcat<T>(a: seq<T>, b: seq<T>)
    ensures forall x :: Count(a + b, x) == Count(a, x) + Count(b, x)
  {
  }

  lemma CountNothing<T>()
    ensures forall x: T :: Count([], x) == 0
  {
  }

  lemma CountHead<T>(a: seq<T>)
    requires a != []
    ensures forall x :: Count(a, x) == Count([a[0]], x) + Count(a[1..], x)
  {
    assert a == [a[0]] + a[1..];
    CountConcat([a[0]], a[1..]);
  }

  ghost predicate IsSuffix<T>(a: seq<T>, b: seq<T>) {
    |a| <= |b| && b[|b| - |a|..] == a
  }

  ghost predicate Ordered(s: Sink) {
    var l := s.ledger;
    && IsSuffix(s.Waiting(), l.submitted)
    && Sub(l.taken + s.Waiting(), l.submitted)
    && Sub(l.overflow + s.Waiting(), l.submitted)
    && Sub(l.delivered + s.buf, l.taken)
  }

  ghost predicate Counted(s: Sink) {
    && s.unfinished == (if s.queue.Some? then |s.queue.value| else 0) + (if s.kind.PerEvent? then |s.buf| else 0)
    && (s.maxsize >= 1 ==> |s.Waiting()| <= s.maxsize)
    && (s.queue.None? ==> s.buf == [] && !s.sending && s.task == NotStarted && (s.maxsize <= 0 ==> s.preStart == []))
    && (s.buf != [] ==> s.task == Running)
  }

  function MaxBatch(kind: Kind): int {
    if kind.PerEvent? then 1 else kind.batch
  }

  /** `sent` is everything handed to the sender so far; the buffer continues it. */
  ghost predicate Continues(s: Sink, sent: seq<AuditEvent>) {
    && sent <= s.ledger.taken
    && (s.task != Cancelled ==> sent + (if s.sending then [] else s.buf) == s.ledger.taken)
    && (s.sending ==> s.buf != [])
    && (s.kind.PerEvent? ==> (s.sending <==> s.buf != []))
    && (s.buf != [] ==> |s.buf| <= MaxBatch(s.kind))
  }

  ghost predicate BatchSizes(s: Sink) {
    forall i :: 0 <= i < |s.ledger.batches| ==> 1 <= |s.ledger.batches[i]| <= MaxBatch(s.kind)
  }

  ghost predicate BatchesMade(s: Sink) {
    Continues(s, Flatten(s.ledger.batches)) && BatchSizes(s)
  }

  ghost predicate Inv(s: Sink) {
    Conserved(s) && Ordered(s) && Counted(s) && BatchesMade(s)
  }

  lemma SuffixAfterAppend<T>(a: seq<T>, b: seq<T>, x: T)
    requires IsSuffix(a, b)
    ensures IsSuffix(a + [x], b + [x])
    ensures a != [] ==> IsSuffix(a[1..] + [x], b + [x]) && IsSuffix(a[1..], b)
  {
    if a != [] {
      assert b[|b| - |a| + 1..] == a[1..];
    }
  }

  /** The waiting events before and after an event joins and, if it must, the oldest leaves. */
  lemma EnqueueWaiting(s: Sink, e: AuditEvent)
    requires Inv(s) && Enqueue(s, e).Some?
    ensures var s' := Enqueue(s, e).value;
            && s' == s.(preStart := s'.preStart, queue := s'.queue, unfinished := s'.unfinished, ledger := s'.ledger)
            && s'.ledger == s.ledger.(overflow := s'.ledger.overflow) && Counted(s') && s'.queue.Some? == s.queue.Some?
            && ((s'.Waiting() == s.Waiting() + [e] && s'.ledger.overflow == s.ledger.overflow)
                || (s.Waiting() != [] && s.maxsize >= 1 && |s.Waiting()| == s.maxsize
                    && s'.Waiting() == s.Waiting()[1..] + [e]
                    && s'.ledger.overflow == s.ledger.overflow + [s.Waiting()[0]]))
  {
  }

  lemma SubmitKeepsConserved(s: Sink, e: AuditEvent)
    requires Inv(s) && Enabled(s, Submit(e))
    ensures Conserved(Apply(s, Submit(e)))
  {
    EnqueueWaiting(s, e);
    var s' := Apply(s, Submit(e));
    var w := s.Waiting();
    CountConcat(s.ledger.submitted, [e]);
    if s'.ledger.overflow == s.ledger.overflow {
      CountConcat(w, [e]);
    } else {
      CountHead(w);
      CountConcat(w[1..], [e]);
      CountConcat(s.ledger.overflow, [w[0]]);
    }
  }

  /** A queue that an event joins, and that may lose its head for it, keeps its place behind `front`. */
  lemma JoinKeepsSub(front: seq<AuditEvent>, w: seq<AuditEvent>, e: AuditEvent, submitted: seq<AuditEvent>)
    requires Sub(front + w, submitted)
    ensures Sub(front + (w + [e]), submitted + [e])
    ensures w != [] ==> Sub(front + (w[1..] + [e]), submitted + [e])
    ensures w != [] ==> Sub(front + [w[0]] + (w[1..] + [e]), submitted + [e])
  {
    SubSnoc(front + w, submitted, e);
    assert front + w + [e] == front + (w + [e]);
    if w != [] {
      assert w == [w[0]] + w[1..];
      assert front + (w + [e]) == front + [w[0]] + (w[1..] + [e]);
      SubDropOne(front, w[0], w[1..] + [e], submitted + [e]);
    }
  }

  lemma SubmitKeepsOrdered(s: Sink, e: AuditEvent)
    requires Inv(s) && Enabled(s, Submit(e))
    ensures Ordered(Apply(s, Submit(e)))
  {
    EnqueueWaiting(s, e);
    SuffixAfterAppend(s.Waiting(), s.ledger.submitted, e);
    JoinKeepsSub(s.ledger.taken, s.Waiting(), e, s.ledger.submitted);
    JoinKeepsSub(s.ledger.overflow, s.Waiting(), e, s.ledger.submitted);
  }

  lemma SubmitKeepsInv(s: Sink, e: AuditEvent)
    requires Inv(s) && Enabled(s, Submit(e))
    ensures Inv(Apply(s, Submit(e)))
  {
    EnqueueWaiting(s, e);
    SubmitKeepsConserved(s, e);
    SubmitKeepsOrdered(s, e);
  }

  /** Flushing the buffer into the new queue keeps every event and drops none. */
  lemma {:induction false} FlushedAll(s: Sink, events: seq<AuditEvent>)
    requires s.queue == Some([]) && s.unfinished == 0 && (s.maxsize <= 0 || |events| <= s.maxsize)
    ensures EnqueueAll(s, events) == s.(queue := Some(events), unfinished := |events|)
  {
    if events != [] {
      var m := |events| - 1;
      FlushedAll(s, events[..m]);
      assert events[..m] + [events[m]] == events;
    }
  }

  lemma StartKeepsInv(s: Sink)
    requires Inv(s) && Enabled(s, Start)
    ensures Inv(Apply(s, Start))
    ensures Apply(s, Start).queue == Some(s.preStart) && Apply(s, Start).ledger == s.ledger
  {
    FlushedAll(s.(queue := Some([]), preStart := [], unfinished := 0, stopped := false, task := Running), s.preStart);
  }

  lemma TakeKeepsConserved(s: Sink)
    requires Conserved(s) && Enabled(s, Take)
    ensures Conserved(Apply(s, Take))
  {
    hide Count;
    CountHead(s.queue.value);
    CountConcat(s.buf, [s.queue.value[0]]);
  }

  lemma TakeKeepsOrdered(s: Sink)
    requires Ordered(s) && Enabled(s, Take)
    ensures Ordered(Apply(s, Take))
  {
    hide Sub, IsSuffix;
    var l, q := s.ledger, s.queue.value;
    var e := q[0];
    assert q == [e] + q[1..];
    SuffixAfterAppend(q, l.submitted, e);
    assert l.taken + q == l.taken + [e] + q[1..];
    assert l.overflow + q == l.overflow + [e] + q[1..];
    SubDropOne(l.overflow, e, q[1..], l.submitted);
    SubSnoc(l.delivered + s.buf, l.taken, e);
    assert l.delivered + s.buf + [e] == l.delivered + (s.buf + [e]);
  }

  lemma FlattenSnoc<T>(parts: seq<seq<T>>, part: seq<T>)
    ensures Flatten(parts + [part]) == Flatten(parts) + part
  {
    assert (parts + [part])[..|parts|] == parts;
  }

  lemma TakeContinues(s: Sink, sent: seq<AuditEvent>)
    requires Counted(s) && Continues(s, sent) && Enabled(s, Take)
    ensures Continues(Apply(s, Take), if s.kind.PerEvent? then sent + [s.queue.value[0]] else sent)
  {
    var e := s.queue.value[0];
    assert sent + s.buf + [e] == sent + (s.buf + [e]);
    assert sent + [e] + [] == sent + [e];
  }

  lemma TakeKeepsCounted(s: Sink)
    requires Counted(s) && BatchesMade(s) && Enabled(s, Take)
    ensures Counted(Apply(s, Take))
  {
  }

  lemma TakeKeepsBatches(s: Sink)
    requires Counted(s) && BatchesMade(s) && Enabled(s, Take)
    ensures BatchesMade(Apply(s, Take))
  {
    hide Flatten;
    TakeContinues(s, Flatten(s.ledger.batches));
    if s.kind.PerEvent? {
      FlattenSnoc(s.ledger.batches, [s.queue.value[0]]);
      assert Apply(s, Take).ledger.batches == s.ledger.batches + [[s.queue.value[0]]];
    } else {
      assert Apply(s, Take).ledger.batches == s.ledger.batches;
    }
  }

  lemma TakeKeepsInv(s: Sink)
    requires Inv(s) && Enabled(s, Take)
    ensures Inv(Apply(s, Take))
  {
    TakeKeepsConserved(s);
    TakeKeepsOrdered(s);
    TakeKeepsCounted(s);
    TakeKeepsBatches(s);
  }

  lemma FlushContinues(s: Sink, sent: seq<AuditEvent>)
    requires Counted(s) && Continues(s, sent) && Enabled(s, Flush)
    ensures Continues(Apply(s, Flush), sent + s.buf)
  {
    assert sent + s.buf + [] == sent + s.buf;
  }

  lemma FlushKeepsInv(s: Sink)
    requires Inv(s) && Enabled(s, Flush)
    ensures Inv(Apply(s, Flush))
  {
    FlattenSnoc(s.ledger.batches, s.buf);
    FlushContinues(s, Flatten(s.ledger.batches));
  }

  /** The steps that end a delivery. */
  predicate Settles(step: Step) {
    step.Deliver? || step.GiveUp? || step.Interrupt? || step.Skip?
  }

  /** Dropping `buf` from the end keeps what was delivered in order. */
  lemma DeliveredStaysOrdered(l: Ledger, buf: seq<AuditEvent>)
    requires Sub(l.delivered + buf, l.taken)
    ensures Sub(l.delivered + [], l.taken) && Sub(l.delivered + buf + [], l.taken)
  {
    assert l.delivered + buf + [] == l.delivered + buf && l.delivered + [] == l.delivered;
    SubFront(l.delivered, buf);
    SubTransitive(l.delivered, l.delivered + buf, l.taken);
  }

  lemma SettleKeepsConserved(s: Sink, step: Step)
    requires Conserved(s) && Enabled(s, step) && (Settles(step) || step.CancelTask?)
    ensures Conserved(Apply(s, step))
  {
    hide Count;
    CountNothing<AuditEvent>();
    var l, l' := s.ledger, Apply(s, step).ledger;
    if l'.delivered != l.delivered {
      CountConcat(l.delivered, s.buf);
    } else if l'.failed != l.failed {
      CountConcat(l.failed, s.buf);
    } else if l'.abandoned != l.abandoned {
      CountConcat(l.abandoned, s.buf);
    } else {
      CountConcat(l.cancelled, s.buf);
    }
  }

  lemma SettleKeepsRest(s: Sink, step: Step)
    requires Inv(s) && Enabled(s, step) && (Settles(step) || step.CancelTask?)
    ensures Ordered(Apply(s, step)) && Counted(Apply(s, step))
  {
    DeliveredStaysOrdered(s.ledger, s.buf);
  }

  lemma SettleKeepsSizes(s: Sink, step: Step)
    requires BatchSizes(s) && Enabled(s, step) && (Settles(step) || step.CancelTask?)
    ensures BatchSizes(Apply(s, step)) && Apply(s, step).ledger.batches == s.ledger.batches
  {
  }

  lemma SettleKeepsBatches(s: Sink, step: Step)
    requires BatchesMade(s) && Counted(s) && Enabled(s, step) && (Settles(step) || step.CancelTask?)
    ensures BatchesMade(Apply(s, step))
  {
    hide Flatten, BatchSizes;
    var sent := Flatten(s.ledger.batches);
    assert sent + [] == sent;
    SettleKeepsSizes(s, step);
  }

  lemma StepKeepsInv(s: Sink, step: Step)
    requires Inv(s)
    ensures Inv(Apply(s, step))
  {
    if Enabled(s, step) {
      match step
      case Submit(e) => SubmitKeepsInv(s, e);
      case Start => StartKeepsInv(s);
      case Take => TakeKeepsInv(s);
      case Flush => FlushKeepsInv(s);
      case RequestStop =>
      case Exit =>
      case _ =>
        SettleKeepsConserved(s, step);
        SettleKeepsRest(s, step);
        SettleKeepsBatches(s, step);
    }
  }

  /** Conservation and order, in every reachable state: each submitted event is in exactly one of delivered,
      overflow-dropped, failed, abandoned, cancelled, in the drain task's hands, or waiting; the waiting events
      are exactly the last ones submitted and at most `maxsize`; what was taken, dropped and delivered keeps the
      order of submission; the join counter counts the queue and, for the base loop, the event in flight; the
      batches handed to the sender cut up the sequence of taken events, each of size 1..batch. */
  lemma {:induction false} SinkInvariant(kind: Kind, maxsize: int, maxAttempts: int, steps: seq<Step>)
    ensures Inv(Run(New(kind, maxsize, maxAttempts), steps))
  {
    if steps != [] {
      SinkInvariant(kind, maxsize, maxAttempts, steps[..|steps| - 1]);
      StepKeepsInv(Run(New(kind, maxsize, maxAttempts), steps[..|steps| - 1]), steps[|steps| - 1]);
    }
  }

  /** What was delivered, is being delivered or still waits is in the order of submission. */
  lemma DeliveredInOrder(kind: Kind, maxsize: int, maxAttempts: int, steps: seq<Step>)
    ensures var s := Run(New(kind, maxsize, maxAttempts), steps);
            Sub(s.ledger.delivered + s.buf + s.Waiting(), s.ledger.submitted)
  {
    SinkInvariant(kind, maxsize, maxAttempts, steps);
    var s := Run(New(kind, maxsize, maxAttempts), steps);
    SubAppend(s.ledger.delivered + s.buf, s.ledger.taken, s.Waiting());
    SubTransitive(s.ledger.delivered + s.buf + s.Waiting(), s.ledger.taken + s.Waiting(), s.ledger.submitted);
  }

  /** Starting flushes the buffer into the queue and drops nothing. */
  lemma StartNeverDrops(kind: Kind, maxsize: int, maxAttempts: int, steps: seq<Step>)
    ensures var s := Run(New(kind, maxsize, maxAttempts), steps);
            s.queue.None? ==> Apply(s, Start).queue == Some(s.preStart) && Apply(s, Start).ledger == s.ledger
  {
    SinkInvariant(kind, maxsize, maxAttempts, steps);
    var s := Run(New(kind, maxsize, maxAttempts), steps);
    if s.queue.None? {
      StartKeepsInv(s);
    }
  }

  /** An event is dropped for overflow only when `maxsize` events wait, and then it is the oldest. */
  lemma OverflowDropsOldest(s: Sink, e: AuditEvent)
    requires Inv(s) && Enabled(s, Submit(e))
    ensures var s' := Apply(s, Submit(e));
            if s.maxsize >= 1 && |s.Waiting()| == s.maxsize
            then s'.ledger.overflow == s.ledger.overflow + [s.Waiting()[0]] && s'.Waiting() == s.Waiting()[1..] + [e]
            else s'.ledger.overflow == s.ledger.overflow && s'.Waiting() == s.Waiting() + [e]
  {
    EnqueueWaiting(s, e);
  }

  /** Submit raises only before start on a sink whose `maxsize` is not positive. */
  lemma SubmitRaisesOnlyUnbuffered(kind: Kind, maxsize: int, maxAttempts: int, steps: seq<Step>, e: AuditEvent)
    ensures var s := Run(New(kind, maxsize, maxAttempts), steps);
            !Enabled(s, Submit(e)) <==> s.queue.None? && maxsize <= 0
  {
    hide Conserved, Ordered, BatchesMade, Run;
    SinkInvariant(kind, maxsize, maxAttempts, steps);
    RunKeepsSettings(kind, maxsize, maxAttempts, steps);
  }

  // ---------------------------------------------------------------- shutdown

  /** With the base loop, once `join` returns nothing is left to lose: cancelling the task cancels no event. */
  lemma JoinCoversTheBaseLoop(maxsize: int, maxAttempts: int, steps: seq<Step>)
    ensures var s := Run(New(PerEvent, maxsize, maxAttempts), steps);
            s.queue.Some? ==>
              (s.unfinished == 0 <==> s.Waiting() == [] && s.buf == [])
              && (s.unfinished == 0 ==> Apply(s, CancelTask).ledger.cancelled == s.ledger.cancelled)
  {
    hide Conserved, Ordered, BatchesMade, Run;
    SinkInvariant(PerEvent, maxsize, maxAttempts, steps);
    RunKeepsSettings(PerEvent, maxsize, maxAttempts, steps);
  }

  /** With the batched loops `join` covers the queue only. */
  lemma JoinCoversOnlyTheQueueWhenBatched(batch: int, maxsize: int, maxAttempts: int, steps: seq<Step>)
    ensures var s := Run(New(Batched(batch), maxsize, maxAttempts), steps);
            s.queue.Some? ==> (s.unfinished == 0 <==> s.Waiting() == [])
  {
    hide Conserved, Ordered, BatchesMade, Run;
    SinkInvariant(Batched(batch), maxsize, maxAttempts, steps);
    RunKeepsSettings(Batched(batch), maxsize, maxAttempts, steps);
  }

  /** So stop can cancel a batch that `join` no longer counts, and no drop is recorded for it. */
  lemma BatchedStopCanLoseEvents(batch: int, maxsize: int, maxAttempts: int, e: AuditEvent) returns (steps: seq<Step>)
    requires batch >= 1 && maxsize >= 1
    ensures var s := Run(New(Batched(batch), maxsize, maxAttempts), steps);
            && s.unfinished == 0 && Enabled(s, CancelTask)
            && Apply(s, CancelTask).ledger.cancelled == [e]
            && Apply(s, CancelTask).ledger.failed == [] && Apply(s, CancelTask).ledger.delivered == []
  {
    var s0 := New(Batched(batch), maxsize, maxAttempts);
    steps := [Start, Submit(e), Take, RequestStop];
    var s1 := Apply(s0, Start);
    var s2 := Apply(s1, Submit(e));
    var s3 := Apply(s2, Take);
    assert s3.buf == [e];
    assert steps[..3] == [Start, Submit(e), Take] && steps[..3][..2] == [Start, Submit(e)]
      && steps[..3][..2][..1] == [Start];
    assert Run(s0, []) == s0;
    assert Run(s0, [Start]) == s1;
    assert Run(s0, [Start, Submit(e)]) == s2;
    assert Run(s0, [Start, Submit(e), Take]) == s3;
  }

  ghost predicate CancelledIfAny(s: Sink) {
    s.task != Cancelled ==> s.ledger.cancelled == []
  }

  lemma OthersCancelNothing(s: Sink, step: Step)
    requires CancelledIfAny(s) && !step.Start?
    ensures CancelledIfAny(Apply(s, step))
  {
    hide EnqueueAll;
  }

  lemma StartCancelsNothing(s: Sink)
    requires CancelledIfAny(s) && (s.queue.None? ==> s.task == NotStarted && Apply(s, Start).ledger == s.ledger)
    ensures CancelledIfAny(Apply(s, Start))
  {
    hide Enqueue, EnqueueAll;
  }

  lemma {:induction false} CancelledOnlyByCancelling(kind: Kind, maxsize: int, maxAttempts: int, steps: seq<Step>)
    ensures CancelledIfAny(Run(New(kind, maxsize, maxAttempts), steps))
  {
    hide Apply, Conserved, Ordered, BatchesMade;
    if steps != [] {
      var front, step := steps[..|steps| - 1], steps[|steps| - 1];
      CancelledOnlyByCancelling(kind, maxsize, maxAttempts, front);
      if step.Start? {
        SinkInvariant(kind, maxsize, maxAttempts, front);
        StartNeverDrops(kind, maxsize, maxAttempts, front);
        StartCancelsNothing(Run(New(kind, maxsize, maxAttempts), front));
      } else {
        OthersCancelNothing(Run(New(kind, maxsize, maxAttempts), front), step);
      }
    }
  }

  /** Each submitted event was delivered, dropped for overflow, given up on or let go of by its delivery. */
  ghost predicate Accounted(l: Ledger) {
    forall e ::
      Count(l.submitted, e)
      == Count(l.delivered, e) + Count(l.overflow, e) + Count(l.failed, e) + Count(l.abandoned, e)
  }

  /** A stop whose `join` returned cancels exactly the batch in hand: with the batched loops some event is lost without
      any account if and only if there is one. */
  lemma StopLosesExactlyTheBatch(batch: int, maxsize: int, maxAttempts: int, steps: seq<Step>)
    requires var s := Run(New(Batched(batch), maxsize, maxAttempts), steps);
             s.unfinished == 0 && Enabled(s, CancelTask)
    ensures var s := Run(New(Batched(batch), maxsize, maxAttempts), steps);
            var s' := Apply(s, CancelTask);
            s'.Waiting() == [] && s'.ledger.cancelled == s.buf && (Accounted(s'.ledger) <==> s.buf == [])
  {
    hide Ordered, BatchesMade, Run;
    SinkInvariant(Batched(batch), maxsize, maxAttempts, steps);
    RunKeepsSettings(Batched(batch), maxsize, maxAttempts, steps);
    CancelledOnlyByCancelling(Batched(batch), maxsize, maxAttempts, steps);
    var s := Run(New(Batched(batch), maxsize, maxAttempts), steps);
    assert s.Waiting() == [];
    if s.buf != [] {
      assert Count(s.buf, s.buf[0]) > 0;
    }
  }

  lemma {:induction false} RunKeepsSettings(kind: Kind, maxsize: int, maxAttempts: int, steps: seq<Step>)
    ensures var s := Run(New(kind, maxsize, maxAttempts), steps);
            s.kind == kind && s.maxsize == maxsize && s.maxAttempts == maxAttempts
  {
    hide Apply;
    if steps != [] {
      RunKeepsSettings(kind, maxsize, maxAttempts, steps[..|steps| - 1]);
    }
  }
}
