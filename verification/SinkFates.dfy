/** Where the sinks book what they send, told by the attempts. */
module SinkFates {
  import opened Prelude
  import opened AuditSink
  import opened Delivery
  import opened QueuedSinks

  // ---------------------------------------------------------------- what the attempts come to

  /** Exactly `n` attempts are made: those before the last failed, with their backoffs waited out, and the last one
      succeeded, was the `m`-th, or was followed by a backoff that stop cut off. */
  predicate Made(env: seq<Attempt>, base: real, m: int, n: int) {
    && 1 <= n <= m <= |env|
    && (forall i :: 0 <= i < n - 1 ==> !env[i].ok && !CutOff(env[i], base, i + 1))
    && (env[n - 1].ok || n == m || CutOff(env[n - 1], base, n))
  }

  ghost predicate Succeeded(env: seq<Attempt>, base: real, m: int) {
    exists n :: Made(env, base, m, n) && env[n - 1].ok
  }

  predicate AllFailed(env: seq<Attempt>, base: real, m: int) {
    && 1 <= m <= |env| && (forall i :: 0 <= i < m ==> !env[i].ok)
    && (forall i :: 0 <= i < m - 1 ==> !CutOff(env[i], base, i + 1))
  }

  ghost predicate CutShort(env: seq<Attempt>, base: real, m: int) {
    exists n :: Made(env, base, m, n) && n < m && !env[n - 1].ok
  }

  lemma MadeOnce(env: seq<Attempt>, base: real, m: int, a: int, b: int)
    requires Made(env, base, m, a) && Made(env, base, m, b)
    ensures a == b
  {
  }

  /** The four ways a delivery can end exclude one another, and one of them comes true. */
  lemma VerdictTold(env: seq<Attempt>, base: real, m: int)
    requires m <= |env|
    ensures VerdictOf(env, base, m) == Delivered <==> Succeeded(env, base, m)
    ensures VerdictOf(env, base, m) == GaveUp <==> AllFailed(env, base, m)
    ensures VerdictOf(env, base, m) == Interrupted <==> CutShort(env, base, m)
    ensures VerdictOf(env, base, m) == NeverTried <==> m <= 0
  {
    hide Backoff;
    if m >= 1 {
      var last := EndOf(env, base, m, 0);
      forall i | 0 <= i < last
        ensures !env[i].ok && !CutOff(env[i], base, i + 1)
      {
        assert !EndsAt(env, base, m, i);
      }
      assert Made(env, base, m, last + 1);
      forall n | Made(env, base, m, n)
        ensures n == last + 1
      {
        MadeOnce(env, base, m, n, last + 1);
      }
      if AllFailed(env, base, m) {
        assert Made(env, base, m, m);
      }
    }
  }

  // ---------------------------------------------------------------- where a batch belongs

  /** A batch handed to the sender, and what its attempts met. */
  datatype Handed = Handed(batch: seq<AuditEvent>, env: seq<Attempt>)

  datatype Place = InDelivered | InFailed | InAbandoned

  /** A batch is delivered if its last attempt succeeded; it failed, with a record of the drop for each event, if all
      attempts failed or stop cut a batched sink off; otherwise it is let go of. */
  ghost function PlaceOf(kind: Kind, base: real, m: int, h: Handed): Place {
    if Succeeded(h.env, base, m) then InDelivered
    else if AllFailed(h.env, base, m) || (kind.Batched? && CutShort(h.env, base, m)) then InFailed
    else InAbandoned
  }

  /** The last case told outright: no attempt is made at all, or stop cut the base loop off. */
  lemma LetGoIff(kind: Kind, base: real, m: int, h: Handed)
    requires m <= |h.env|
    ensures PlaceOf(kind, base, m, h) == InAbandoned <==> m <= 0 || (kind.PerEvent? && CutShort(h.env, base, m))
  {
    hide Succeeded, CutShort, AllFailed, VerdictOf;
    VerdictTold(h.env, base, m);
  }

  /** The events of the batches that belong in one place, in order. */
  ghost function Belonging(hs: seq<Handed>, kind: Kind, base: real, m: int, place: Place): seq<AuditEvent> {
    if hs == [] then []
    else (if PlaceOf(kind, base, m, hs[0]) == place then hs[0].batch else []) + Belonging(hs[1..], kind, base, m, place)
  }

  function BatchesOf(hs: seq<Handed>): seq<seq<AuditEvent>> {
    if hs == [] then [] else [hs[0].batch] + BatchesOf(hs[1..])
  }

  /** The ledger grows by what was handed over, each batch in its place, and by nothing else. */
  ghost predicate Books(s: Sink, s': Sink, base: real, hs: seq<Handed>) {
    && s'.ledger.batches == s.ledger.batches + BatchesOf(hs)
    && s'.ledger.delivered == s.ledger.delivered + Belonging(hs, s.kind, base, s.maxAttempts, InDelivered)
    && s'.ledger.failed == s.ledger.failed + Belonging(hs, s.kind, base, s.maxAttempts, InFailed)
    && s'.ledger.abandoned == s.ledger.abandoned + Belonging(hs, s.kind, base, s.maxAttempts, InAbandoned)
    && s'.ledger.cancelled == s.ledger.cancelled && s'.SameSettings(s)
  }

  // ---------------------------------------------------------------- the loops

  /** What the attempts meet when a stop was requested before the first. */
  function Attempted(s: Sink, env: seq<Attempt>): seq<Attempt> {
    if s.stopped then AlreadyStopped(env) else env
  }

  /** The events that the base loop hands over one by one from poll `k` on. */
  function HandedOneByOne(s: Sink, base: real, polls: seq<Poll>, k: nat): seq<Handed>
    requires AllPlausible(polls, s.maxAttempts)
    decreases |polls| - k
  {
    if k >= |polls| || (s.stopped && s.queue == Some([])) then []
    else
      var s1 := Met(s, polls[k]);
      var rest := HandedOneByOne(DrainTurn(s, base, polls[k]), base, polls, k + 1);
      if NothingCame(s1, polls[k]) then rest
      else [Handed([s1.queue.value[0]], Attempted(s1, polls[k].env))] + rest
  }

  /** The batches that a batched loop hands over. */
  function HandedInBatches(s: Sink, base: real, polls: seq<Poll>, k: nat): seq<Handed>
    requires AllPlausible(polls, s.maxAttempts)
    decreases |polls| - k
  {
    if k >= |polls| || (s.stopped && s.queue == Some([]) && s.buf == []) then []
    else
      var (s1, k1) := Gathered(s, polls, k);
      if k1 == k then []
      else if s1.buf == [] then HandedInBatches(s1, base, polls, k1)
      else
        var env := polls[k1 - 1].env;
        [Handed(s1.buf, Attempted(s1, env))] + HandedInBatches(Flushed(s1, base, env), base, polls, k1)
  }

  lemma BooksNothing(s: Sink, s': Sink, base: real)
    requires s'.ledger.batches == s.ledger.batches && s'.ledger.delivered == s.ledger.delivered
    requires s'.ledger.failed == s.ledger.failed && s'.ledger.abandoned == s.ledger.abandoned
    requires s'.ledger.cancelled == s.ledger.cancelled && s'.SameSettings(s)
    ensures Books(s, s', base, [])
  {
  }

  lemma {:induction false} BelongingConcat(a: seq<Handed>, b: seq<Handed>, kind: Kind, base: real, m: int, place: Place)
    ensures Belonging(a + b, kind, base, m, place)
         == Belonging(a, kind, base, m, place) + Belonging(b, kind, base, m, place)
    decreases |a|
  {
    hide PlaceOf;
    if a == [] {
      assert a + b == b;
    } else {
      assert (a + b)[1..] == a[1..] + b;
      BelongingConcat(a[1..], b, kind, base, m, place);
      var first := if PlaceOf(kind, base, m, a[0]) == place then a[0].batch else [];
      Chained(first, first + Belonging(a[1..], kind, base, m, place), Belonging(a + b, kind, base, m, place),
              Belonging(a[1..], kind, base, m, place), Belonging(b, kind, base, m, place));
    }
  }

  lemma {:induction false} BatchesConcat(a: seq<Handed>, b: seq<Handed>)
    ensures BatchesOf(a + b) == BatchesOf(a) + BatchesOf(b)
    decreases |a|
  {
    if a == [] {
      assert a + b == b;
    } else {
      assert (a + b)[1..] == a[1..] + b;
      BatchesConcat(a[1..], b);
    }
  }

  lemma BooksChain(s: Sink, s1: Sink, s2: Sink, base: real, a: seq<Handed>, b: seq<Handed>)
    requires Books(s, s1, base, a) && Books(s1, s2, base, b)
    ensures Books(s, s2, base, a + b)
  {
    hide Belonging, BatchesOf;
    BatchesConcat(a, b);
    BelongingConcat(a, b, s.kind, base, s.maxAttempts, InDelivered);
    BelongingConcat(a, b, s.kind, base, s.maxAttempts, InFailed);
    BelongingConcat(a, b, s.kind, base, s.maxAttempts, InAbandoned);
    assert s2.kind == s1.kind == s.kind && s2.maxAttempts == s1.maxAttempts == s.maxAttempts;
    Chained(s.ledger.batches, s1.ledger.batches, s2.ledger.batches, BatchesOf(a), BatchesOf(b));
    Chained(s.ledger.delivered, s1.ledger.delivered, s2.ledger.delivered,
            Belonging(a, s.kind, base, s.maxAttempts, InDelivered),
            Belonging(b, s.kind, base, s.maxAttempts, InDelivered));
    Chained(s.ledger.failed, s1.ledger.failed, s2.ledger.failed,
            Belonging(a, s.kind, base, s.maxAttempts, InFailed), Belonging(b, s.kind, base, s.maxAttempts, InFailed));
    Chained(s.ledger.abandoned, s1.ledger.abandoned, s2.ledger.abandoned,
            Belonging(a, s.kind, base, s.maxAttempts, InAbandoned),
            Belonging(b, s.kind, base, s.maxAttempts, InAbandoned));
  }

  lemma Chained<T>(x: seq<T>, x1: seq<T>, x2: seq<T>, a: seq<T>, b: seq<T>)
    requires x1 == x + a && x2 == x1 + b
    ensures x2 == x + (a + b)
  {
  }

  lemma {:induction false} SubmitAllBooksNothing(s: Sink, es: seq<AuditEvent>, base: real)
    ensures Books(s, SubmitAll(s, es), base, [])
  {
    if es == [] {
      BooksNothing(s, s, base);
    } else {
      SubmitAllBooksNothing(s, es[..|es| - 1], base);
    }
  }

  lemma MetBooksNothing(s: Sink, p: Poll, base: real)
    ensures Books(s, Met(s, p), base, [])
  {
    hide SubmitAll;
    SubmitAllBooksNothing(s, p.arrivals, base);
  }

  lemma CutNeedsTwo(env: seq<Attempt>, base: real, m: int)
    ensures CutShort(env, base, m) ==> m >= 2
  {
  }

  /** Sending books the batch where it belongs. */
  lemma SendBooks(s: Sink, base: real, env: seq<Attempt>)
    requires s.sending && s.queue.Some? && s.maxAttempts <= |env|
    ensures var s', h := AfterSend(s, SendVerdict(s, base, env)), Handed(s.buf, Attempted(s, env));
            && s'.ledger.delivered
               == s.ledger.delivered + Belonging([h], s.kind, base, s.maxAttempts, InDelivered)
            && s'.ledger.failed == s.ledger.failed + Belonging([h], s.kind, base, s.maxAttempts, InFailed)
            && s'.ledger.abandoned
               == s.ledger.abandoned + Belonging([h], s.kind, base, s.maxAttempts, InAbandoned)
            && s'.ledger.batches == s.ledger.batches && s'.ledger.cancelled == s.ledger.cancelled
  {
    hide Succeeded, CutShort, AllFailed, VerdictOf;
    VerdictTold(Attempted(s, env), base, s.maxAttempts);
    CutNeedsTwo(Attempted(s, env), base, s.maxAttempts);
  }

  /** One turn of the base loop. */
  lemma TurnBooks(s: Sink, base: real, p: Poll)
    requires s.kind.PerEvent? && Idle(s) && Plausible(p, s.maxAttempts)
    ensures Idle(DrainTurn(s, base, p))
    ensures var s1 := Met(s, p);
            && s1.queue.Some?
            && Books(s, DrainTurn(s, base, p), base,
                     if NothingCame(s1, p) then [] else [Handed([s1.queue.value[0]], Attempted(s1, p.env))])
  {
    hide Met, Belonging, AfterSend, SendVerdict, AlreadyStopped;
    var s1 := Met(s, p);
    MetKeepsIdle(s, p);
    MetBooksNothing(s, p, base);
    if !NothingCame(s1, p) {
      var s2 := Apply(s1, Take);
      var h := Handed(s2.buf, Attempted(s2, p.env));
      assert s2.buf == [s1.queue.value[0]];
      SendBooks(s2, base, p.env);
      SendStaysIdle(s2, base, p.env);
      OneBatch(h);
      assert s2.ledger.batches == s1.ledger.batches + [h.batch];
      assert Books(s1, AfterSend(s2, SendVerdict(s2, base, p.env)), base, [h]);
      BooksChain(s, s1, AfterSend(s2, SendVerdict(s2, base, p.env)), base, [], [h]);
      assert [] + [h] == [h];
    }
  }

  /** A turn takes the oldest event that waits, unless its time ran out or none does. */
  lemma TurnTakesTheOldest(s: Sink, base: real, p: Poll)
    requires s.kind.PerEvent? && Idle(s) && Plausible(p, s.maxAttempts)
    ensures var q, s' := Met(s, p).Waiting(), DrainTurn(s, base, p);
            if p.expired || q == [] then s'.ledger.taken == s.ledger.taken && s'.Waiting() == q
            else s'.ledger.taken == s.ledger.taken + [q[0]] && s'.Waiting() == q[1..]
  {
    hide Met, SendVerdict, AfterSend;
    MetKeepsIdle(s, p);
    MetTakesNothing(s, p);
    var s1 := Met(s, p);
    if !p.expired && s1.queue.value != [] {
      var s2 := Apply(s1, Take);
      SendEnds(s2, base, p.env);
    }
  }

  lemma SendEnds(s: Sink, base: real, env: seq<Attempt>)
    requires s.sending && s.queue.Some? && s.maxAttempts <= |env|
    ensures var s' := AfterSend(s, SendVerdict(s, base, env));
            s'.queue == s.queue && s'.ledger.taken == s.ledger.taken
  {
    hide VerdictOf;
  }

  lemma {:induction false} SubmitAllTakesNothing(s: Sink, es: seq<AuditEvent>)
    ensures SubmitAll(s, es).ledger.taken == s.ledger.taken
  {
    if es != [] {
      SubmitAllTakesNothing(s, es[..|es| - 1]);
    }
  }

  lemma MetTakesNothing(s: Sink, p: Poll)
    ensures Met(s, p).ledger.taken == s.ledger.taken
  {
    hide SubmitAll;
    SubmitAllTakesNothing(s, p.arrivals);
  }

  /** So does each wait of the batched loops, as long as the batch is not full. */
  lemma GatherTakesTheOldest(s: Sink, polls: seq<Poll>, k: nat)
    requires s.kind.Batched? && s.task == Running && s.queue.Some? && !s.sending && |s.buf| < s.kind.batch
    requires k < |polls|
    ensures var s1, q := Met(s, polls[k]), Met(s, polls[k]).Waiting();
            if polls[k].expired || q == [] then Gathered(s, polls, k) == (s1, k + 1)
            else
              var s2 := s1.(queue := Some(q[1..]), buf := s.buf + [q[0]], unfinished := s1.unfinished - 1,
                            ledger := s1.ledger.(taken := s.ledger.taken + [q[0]]));
              Gathered(s, polls, k) == Gathered(s2, polls, k + 1)
  {
    hide Met;
    MetKeepsIdle(s, polls[k]);
    MetTakesNothing(s, polls[k]);
  }

  lemma OneBatch(h: Handed)
    ensures BatchesOf([h]) == [h.batch]
  {
  }

  lemma SendStaysIdle(s: Sink, base: real, env: seq<Attempt>)
    requires s.sending && s.queue.Some? && s.task == Running && s.maxAttempts <= |env|
    ensures Idle(AfterSend(s, SendVerdict(s, base, env)))
  {
    hide VerdictOf, Succeeded, CutShort, AllFailed;
    VerdictTold(Attempted(s, env), base, s.maxAttempts);
    CutNeedsTwo(Attempted(s, env), base, s.maxAttempts);
    FailedNeedsOne(Attempted(s, env), base, s.maxAttempts);
  }

  lemma FailedNeedsOne(env: seq<Attempt>, base: real, m: int)
    ensures Succeeded(env, base, m) || AllFailed(env, base, m) ==> m >= 1
  {
  }

  /** The base loop, whatever it meets: each event it hands over is booked by what its attempts came to. */
  lemma {:induction false} BaseLoopBooks(s: Sink, base: real, polls: seq<Poll>, k: nat)
    requires s.kind.PerEvent? && Idle(s) && AllPlausible(polls, s.maxAttempts)
    ensures Books(s, Drained(s, base, polls, k).0, base, HandedOneByOne(s, base, polls, k))
    decreases |polls| - k
  {
    hide Books, DrainTurn, Met, Attempted, Idle;
    if k >= |polls| || (s.stopped && s.queue == Some([])) {
      BooksNothing(s, s, base);
    } else {
      assert Plausible(polls[k], s.maxAttempts);
      var s1, s' := Met(s, polls[k]), DrainTurn(s, base, polls[k]);
      TurnBooks(s, base, polls[k]);
      BaseLoopBooks(s', base, polls, k + 1);
      var rest := HandedOneByOne(s', base, polls, k + 1);
      var now := if NothingCame(s1, polls[k]) then [] else [Handed([s1.queue.value[0]], Attempted(s1, polls[k].env))];
      BooksChain(s, s', Drained(s', base, polls, k + 1).0, base, now, rest);
      assert [] + rest == rest;
    }
  }

  lemma TakeBooksNothing(s: Sink, base: real)
    requires s.kind.Batched?
    ensures Books(s, Apply(s, Take), base, [])
  {
    BooksNothing(s, Apply(s, Take), base);
  }

  /** Gathering hands nothing over, and leaves the task ready to. */
  lemma {:induction false} GatheredBooksNothing(s: Sink, base: real, polls: seq<Poll>, k: nat)
    requires s.kind.Batched? && s.task == Running && s.queue.Some? && !s.sending
    ensures var s1 := Gathered(s, polls, k).0;
            Books(s, s1, base, []) && s1.task == Running && s1.queue.Some? && !s1.sending
    decreases |polls| - k
  {
    hide Books, Met;
    if k >= |polls| || |s.buf| >= s.kind.batch {
      BooksNothing(s, s, base);
    } else {
      var s1 := Met(s, polls[k]);
      MetKeepsIdle(s, polls[k]);
      MetBooksNothing(s, polls[k], base);
      if !NothingCame(s1, polls[k]) {
        var s2 := Apply(s1, Take);
        TakeBooksNothing(s1, base);
        GatheredBooksNothing(s2, base, polls, k + 1);
        var none: seq<Handed> := [];
        assert none + none == none;
        BooksChain(s, s1, s2, base, none, none);
        BooksChain(s, s2, Gathered(s2, polls, k + 1).0, base, none, none);
      }
    }
  }

  /** A batch that is sent is booked by what its attempts came to. */
  lemma FlushBooks(s: Sink, base: real, env: seq<Attempt>)
    requires s.kind.Batched? && s.task == Running && s.queue.Some? && !s.sending && s.buf != []
    requires s.maxAttempts <= |env|
    ensures Idle(Flushed(s, base, env))
    ensures Books(s, Flushed(s, base, env), base, [Handed(s.buf, Attempted(s, env))])
  {
    hide Belonging, AfterSend, SendVerdict, AlreadyStopped;
    var s1 := Apply(s, Flush);
    SendBooks(s1, base, env);
    SendStaysIdle(s1, base, env);
    OneBatch(Handed(s.buf, Attempted(s, env)));
  }

  /** The batched loops, whatever they meet: each batch they hand over is booked by what its attempts came to. */
  lemma {:induction false} BatchedLoopBooks(s: Sink, base: real, polls: seq<Poll>, k: nat)
    requires s.kind.Batched? && Idle(s) && AllPlausible(polls, s.maxAttempts)
    ensures Books(s, BatchDrained(s, base, polls, k).0, base, HandedInBatches(s, base, polls, k))
    decreases |polls| - k
  {
    hide Books, Gathered, Flushed, Attempted;
    if k >= |polls| || (s.stopped && s.queue == Some([]) && s.buf == []) {
      BooksNothing(s, s, base);
    } else {
      var (s1, k1) := Gathered(s, polls, k);
      GatheredBooksNothing(s, base, polls, k);
      if k1 > k {
        if s1.buf == [] {
          BatchedLoopBooks(s1, base, polls, k1);
          var rest := HandedInBatches(s1, base, polls, k1);
          BooksChain(s, s1, BatchDrained(s1, base, polls, k1).0, base, [], rest);
          assert [] + rest == rest;
        } else {
          assert Plausible(polls[k1 - 1], s.maxAttempts);
          var env := polls[k1 - 1].env;
          var s2 := Flushed(s1, base, env);
          var now := [Handed(s1.buf, Attempted(s1, env))];
          FlushBooks(s1, base, env);
          BatchedLoopBooks(s2, base, polls, k1);
          BooksChain(s, s1, s2, base, [], now);
          BooksChain(s, s2, BatchDrained(s2, base, polls, k1).0, base, [] + now,
                     HandedInBatches(s2, base, polls, k1));
          assert [] + now == now;
        }
      }
    }
  }
}
