/** Counting the calls that return at one instant: exactly when N + 1 buckets' worth is the most, and the run in which
    one more returns. */
module FleetInstants {
  import opened Prelude
  import opened TokenBuckets
  import opened LocalLimiter
  import opened RedisBucket
  import opened Readings
  import opened SharedLedger
  import Breaker = CircuitBreaker
  import opened Fleet
  import opened FleetBounds
  import opened FleetRuns

  /** At any instant at most (N + 1) * c calls return that lasted at most `d` milliseconds. */
  ghost predicate InstantBound(cfg: Settings, focus: string, n: nat, d: nat)
    requires cfg.Valid()
  {
    forall t0, run, t
      | && TimelyRun(cfg, focus, Initial(n, t0), run, HalfTtl(cfg.limits.For(focus)))
        && InOrder(After(cfg, focus, Initial(n, t0), run).shared, ByReading)
      :: |ReturnedIn(After(cfg, focus, Initial(n, t0), run), focus, t, t, d)|
         <= (n + 1) * cfg.limits.For(focus).tenant.capacity
  }

  /** Sessions of their own, so that only the tenant's buckets limit. */
  function Name(id: nat): (s: string)
    ensures |s| == id
  {
    seq(id, _ => 'x')
  }

  lemma NamesDiffer(prefix: string, tenant: string, a: nat, b: nat)
    requires a != b
    ensures SessionKeyName(prefix, tenant, Name(a)) != SessionKeyName(prefix, tenant, Name(b))
    ensures (tenant, Name(a)) != (tenant, Name(b))
  {
    assert |SessionKeyName(prefix, tenant, Name(a))| != |SessionKeyName(prefix, tenant, Name(b))|;
    assert |Name(a)| != |Name(b)|;
  }

  function Fresh(n: nat): seq<Replica> {
    seq(n, _ => Replica(Breaker.INITIAL, None))
  }

  /** `j` calls hold shared tokens taken at `taken(id)`, and no session bucket exists yet. */
  ghost predicate Holding(cfg: Settings, focus: string, n: nat, w: World, j: nat, now: int, c: int, d: int) {
    && w.now == now && w.replicas == Fresh(n) && |w.local| == n && w.nextId == j
    && (forall id: nat :: id in w.calls <==> id < j)
    && (forall id: nat :: id < j ==>
          var at := if id < c then 0 else d;
          w.calls[id] == Acquiring(0, focus, Name(id), at, Ready(SessionStage, Some(Charge(Shared, at, at)))))
    && (forall id: nat :: SessionKeyName(cfg.prefix, focus, Name(id)) !in w.store)
  }

  /** The bucket after `j` of its tokens were taken at millisecond 0. */
  ghost predicate Drained(cfg: Settings, focus: string, w: World, j: nat, c: int) {
    Stored(w, TenantKey(cfg.prefix, focus)) == if j == 0 then None else Some(Hash((c - j) as real, 0))
  }

  lemma HoldOne(cfg: Settings, focus: string, n: nat, run: seq<Event>, j: nat, now: int, c: int, d: int)
      returns (longer: seq<Event>)
    requires cfg.Valid() && n > 0 && TimelyRun(cfg, focus, Initial(n, 0), run, 0)
    requires Holding(cfg, focus, n, After(cfg, focus, Initial(n, 0), run), j, now, c, d)
    requires now == if j < c then 0 else d
    requires var w := After(cfg, focus, Initial(n, 0), run);
             Script(cfg.limits.For(focus).tenant, Stored(w, TenantKey(cfg.prefix, focus)), now, 1).1
    ensures TimelyRun(cfg, focus, Initial(n, 0), longer, 0)
    ensures Holding(cfg, focus, n, After(cfg, focus, Initial(n, 0), longer), j + 1, now, c, d)
    ensures var w, w' := After(cfg, focus, Initial(n, 0), run), After(cfg, focus, Initial(n, 0), longer);
            Stored(w', TenantKey(cfg.prefix, focus))
            == Some(Script(cfg.limits.For(focus).tenant, Stored(w, TenantKey(cfg.prefix, focus)), now, 1).0)
  {
    hide After, TimelyRun, Script, Initial;
    longer := TakesToken(cfg, focus, Initial(n, 0), run, Name(j), 0);
    forall id: nat
      ensures SessionKeyName(cfg.prefix, focus, Name(id)) != TenantKey(cfg.prefix, focus)
    {
      TenantKeysAreDistinct(cfg.prefix, focus, focus, Name(id));
    }
  }

  /** All of the bucket at millisecond 0, and the token that came back by millisecond `d`. */
  lemma HoldAll(cfg: Settings, focus: string, n: nat, d: nat) returns (run: seq<Event>)
    requires cfg.Valid() && n > 0 && Earned(cfg.limits.For(focus).tenant, Seconds(d)) >= 1.0
    ensures var c := cfg.limits.For(focus).tenant.capacity;
            && TimelyRun(cfg, focus, Initial(n, 0), run, 0)
            && Holding(cfg, focus, n, After(cfg, focus, Initial(n, 0), run), c + 1, d, c, d)
  {
    hide After, TimelyRun, Script, Initial, Earned;
    var rate, start := cfg.limits.For(focus).tenant, Initial(n, 0);
    var c := rate.capacity;
    run := [];
    NothingRun(cfg, focus, start, 0);
    StartsHolding(cfg, focus, n, c, d);
    var j := 0;
    while j < c
      invariant 0 <= j <= c && TimelyRun(cfg, focus, start, run, 0)
      invariant Holding(cfg, focus, n, After(cfg, focus, start, run), j, 0, c, d)
      invariant Drained(cfg, focus, After(cfg, focus, start, run), j, c)
    {
      SameReading(rate, Stored(After(cfg, focus, start, run), TenantKey(cfg.prefix, focus)), 0);
      run := HoldOne(cfg, focus, n, run, j, 0, c, d);
      j := j + 1;
    }
    run := Then(cfg, focus, start, run, Tick(d), 0);
    OneCameBack(rate, d);
    run := HoldOne(cfg, focus, n, run, c, d, c, d);
  }

  lemma StartsHolding(cfg: Settings, focus: string, n: nat, c: int, d: int)
    ensures Holding(cfg, focus, n, Initial(n, 0), 0, 0, c, d) && Drained(cfg, focus, Initial(n, 0), 0, c)
  {
  }

  lemma OneCameBack(rate: Rate, d: nat)
    requires rate.Valid() && Earned(rate, Seconds(d)) >= 1.0
    ensures Script(rate, Some(Hash((rate.capacity - rate.capacity) as real, 0)), d, 1).1
  {
    assert Refilled(rate, Hash(0.0, 0), d) == MinReal(rate.capacity as real, 0.0 + Earned(rate, Seconds(d)));
  }

  // ---------------------------------------------------------------- they all return at once

  /** At millisecond `d`: the calls up to `j` have returned just now, none later than `d` after it began. */
  ghost predicate AllBack(w: World, focus: string, j: nat, d: int) {
    && w.now == d && (forall id: nat :: id < j ==> id in w.calls)
    && (forall id: nat :: id < j ==>
          w.calls[id].tenant == focus && 0 <= w.calls[id].startedAt && w.calls[id].phase.Returned?
          && w.calls[id].phase.at == d)
  }

  ghost predicate Leaving(cfg: Settings, focus: string, n: nat, w: World, j: nat, total: nat, c: int, d: int) {
    && w.replicas == Fresh(n) && |w.local| == n && w.nextId == total && AllBack(w, focus, j, d)
    && (forall id: nat :: id in w.calls <==> id < total)
    && (forall id: nat :: j <= id < total ==>
          var at := if id < c then 0 else d;
          w.calls[id] == Acquiring(0, focus, Name(id), at, Ready(SessionStage, Some(Charge(Shared, at, at)))))
    && (forall id: nat :: j <= id ==> SessionKeyName(cfg.prefix, focus, Name(id)) !in w.store)
  }

  lemma LeaveOne(cfg: Settings, focus: string, n: nat, run: seq<Event>, j: nat, total: nat, c: int, d: nat)
      returns (longer: seq<Event>)
    requires cfg.Valid() && n > 0 && j < total && TimelyRun(cfg, focus, Initial(n, 0), run, 0)
    requires Leaving(cfg, focus, n, After(cfg, focus, Initial(n, 0), run), j, total, c, d)
    ensures TimelyRun(cfg, focus, Initial(n, 0), longer, 0)
    ensures Leaving(cfg, focus, n, After(cfg, focus, Initial(n, 0), longer), j + 1, total, c, d)
  {
    hide After, TimelyRun, Script, Initial;
    SameReading(cfg.limits.For(focus).session, None, d);
    longer := Returns(cfg, focus, Initial(n, 0), run, j, 0);
    forall id: nat | j + 1 <= id
      ensures SessionKeyName(cfg.prefix, focus, Name(id)) != SessionKeyName(cfg.prefix, focus, Name(j))
    {
      NamesDiffer(cfg.prefix, focus, id, j);
    }
  }

  lemma LeaveAll(cfg: Settings, focus: string, n: nat, d: nat) returns (run: seq<Event>)
    requires cfg.Valid() && n > 0 && Earned(cfg.limits.For(focus).tenant, Seconds(d)) >= 1.0
    ensures var total := cfg.limits.For(focus).tenant.capacity + 1;
            && TimelyRun(cfg, focus, Initial(n, 0), run, 0)
            && Filling(focus, After(cfg, focus, Initial(n, 0), run), n, 0, 0, total,
                       cfg.limits.For(focus).tenant.capacity, d)
  {
    hide After, TimelyRun, Initial, Earned;
    var c := cfg.limits.For(focus).tenant.capacity;
    run := HoldAll(cfg, focus, n, d);
    var j := 0;
    while j < c + 1
      invariant 0 <= j <= c + 1 && TimelyRun(cfg, focus, Initial(n, 0), run, 0)
      invariant Leaving(cfg, focus, n, After(cfg, focus, Initial(n, 0), run), j, c + 1, c, d)
    {
      run := LeaveOne(cfg, focus, n, run, j, c + 1, c, d);
      j := j + 1;
    }
  }

  // ---------------------------------------------------------------- every replica's own bucket

  /** Replicas below `i` have been drained, replica `i` has given `m` tokens just now, the others are untouched. */
  ghost predicate Filling(focus: string, w: World, n: nat, i: nat, m: nat, total: nat, c: int, d: int) {
    && |w.replicas| == |w.local| == n && w.nextId == total && AllBack(w, focus, total, d)
    && (forall id: nat :: id in w.calls <==> id < total)
    && (forall k :: i < k < n ==> w.replicas[k].fallback == None)
    && (i < n ==> if m == 0 then w.replicas[i].fallback == None
                  else w.replicas[i].fallback.Some? && Given(focus, w.replicas[i].fallback.value, m, total, c, d))
  }

  ghost predicate Given(focus: string, st: Buckets, m: nat, total: nat, c: int, d: int) {
    && focus in st.tenants && st.tenants[focus] == Bucket((c - m) as real, Seconds(d))
    && forall id: nat :: total <= id ==> (focus, Name(id)) !in st.sessions
  }

  /** One more acquire from a local limiter at the same moment. */
  lemma GivesOne(cfg: Settings, focus: string, fallback: Option<Buckets>, m: nat, total: nat, d: int)
    requires cfg.Valid() && m < cfg.limits.For(focus).tenant.capacity
    requires var c := cfg.limits.For(focus).tenant.capacity;
             if m == 0 then fallback == None else fallback.Some? && Given(focus, fallback.value, m, total, c, d)
    ensures var st := if fallback.Some? then fallback.value else EMPTY;
            var (st', o) := AcquireBoth(cfg.limits, st, Call(focus, Name(total), Seconds(d)));
            o == Granted && Given(focus, st', m + 1, total + 1, cfg.limits.For(focus).tenant.capacity, d)
  {
    hide Earned;
    var st := if fallback.Some? then fallback.value else EMPTY;
    var (st', o) := AcquireBoth(cfg.limits, st, Call(focus, Name(total), Seconds(d)));
    assert (focus, Name(total)) !in st.sessions;
    forall id: nat | total + 1 <= id
      ensures (focus, Name(id)) !in st'.sessions
    {
      NamesDiffer("", focus, id, total);
    }
  }

  /** A call finds its breaker open, or Redis unavailable: either way it falls back. */
  lemma FallsBack(cfg: Settings, focus: string, start: World, run: seq<Event>, i: nat, session: string)
      returns (longer: seq<Event>)
    requires cfg.Valid() && TimelyRun(cfg, focus, start, run, 0) && i < |After(cfg, focus, start, run).replicas|
    ensures TimelyRun(cfg, focus, start, longer, 0)
    ensures var w, w' := After(cfg, focus, start, run), After(cfg, focus, start, longer);
            && w'.now == w.now && w'.local == w.local && w'.nextId == w.nextId + 1 && |w'.replicas| == |w.replicas|
            && w'.calls == w.calls[w.nextId := Acquiring(i, focus, session, w.now, FallingBack)]
            && (forall k :: 0 <= k < |w.replicas| ==> w'.replicas[k].fallback == w.replicas[k].fallback)
  {
    hide After, TimelyRun;
    var id := After(cfg, focus, start, run).nextId;
    longer := Then(cfg, focus, start, run, Begin(i, focus, session), 0);
    longer := Then(cfg, focus, start, longer, Enter(id), 0);
    if After(cfg, focus, start, longer).calls[id].phase.Sent? {
      longer := Then(cfg, focus, start, longer, Fail(id, Unavailable), 0);
    }
  }

  lemma FillOne(cfg: Settings, focus: string, n: nat, run: seq<Event>, i: nat, m: nat, total: nat, d: nat)
      returns (longer: seq<Event>)
    requires cfg.Valid() && i < n && m < cfg.limits.For(focus).tenant.capacity
             && TimelyRun(cfg, focus, Initial(n, 0), run, 0)
    requires Filling(focus, After(cfg, focus, Initial(n, 0), run), n, i, m, total,
                     cfg.limits.For(focus).tenant.capacity, d)
    ensures TimelyRun(cfg, focus, Initial(n, 0), longer, 0)
    ensures Filling(focus, After(cfg, focus, Initial(n, 0), longer), n, i, m + 1, total + 1,
                    cfg.limits.For(focus).tenant.capacity, d)
  {
    hide After, TimelyRun, Initial, AcquireBoth, Given;
    var w := After(cfg, focus, Initial(n, 0), run);
    GivesOne(cfg, focus, w.replicas[i].fallback, m, total, d);
    longer := FallsBack(cfg, focus, Initial(n, 0), run, i, Name(total));
    longer := Then(cfg, focus, Initial(n, 0), longer, Fallback(total), 0);
  }

  /** The calls back once `i` replicas are drained. */
  function Back(c: nat, i: nat): nat {
    if i == 0 then c + 1 else Back(c, i - 1) + c
  }

  lemma {:induction false} BackIs(c: nat, i: nat)
    ensures Back(c, i) == (i + 1) * c + 1
  {
    if i > 0 {
      BackIs(c, i - 1);
      assert (i + 1) * c == i * c + c;
    }
  }

  /** All N + 1 buckets, and one token more, return at millisecond `d`. */
  lemma OneTooMany(cfg: Settings, focus: string, n: nat, d: nat) returns (run: seq<Event>)
    requires cfg.Valid() && n > 0 && Earned(cfg.limits.For(focus).tenant, Seconds(d)) >= 1.0
    ensures TimelyRun(cfg, focus, Initial(n, 0), run, 0)
    ensures |ReturnedIn(After(cfg, focus, Initial(n, 0), run), focus, d, d, d)|
         >= (n + 1) * cfg.limits.For(focus).tenant.capacity + 1
  {
    hide After, TimelyRun, Initial, Earned, Given;
    var c := cfg.limits.For(focus).tenant.capacity;
    run := LeaveAll(cfg, focus, n, d);
    var i := 0;
    while i < n
      invariant 0 <= i <= n && TimelyRun(cfg, focus, Initial(n, 0), run, 0)
      invariant Filling(focus, After(cfg, focus, Initial(n, 0), run), n, i, 0, Back(c, i), c, d)
    {
      var m := 0;
      while m < c
        invariant 0 <= m <= c && TimelyRun(cfg, focus, Initial(n, 0), run, 0)
        invariant Filling(focus, After(cfg, focus, Initial(n, 0), run), n, i, m, Back(c, i) + m, c, d)
      {
        run := FillOne(cfg, focus, n, run, i, m, Back(c, i) + m, d);
        m := m + 1;
      }
      i := i + 1;
    }
    BackIs(c, n);
    CountBack(After(cfg, focus, Initial(n, 0), run), focus, Back(c, n), d);
  }

  lemma CountBack(w: World, focus: string, total: nat, d: nat)
    requires AllBack(w, focus, total, d)
    ensures |ReturnedIn(w, focus, d, d, d)| >= total
  {
    UpToSize(0, total);
    assert UpTo(0, total) <= ReturnedIn(w, focus, d, d, d);
    SubsetSize(UpTo(0, total), ReturnedIn(w, focus, d, d, d));
  }

  /** For a real bound on a whole number. */
  lemma WholeCalls(count: nat, c: int, n: nat, earned: real)
    requires c >= 0 && earned < 1.0 && count as real <= (c as real + earned) + n as real * c as real
    ensures count <= (n + 1) * c
  {
    assert n as real * c as real == (n * c) as real;
    assert count as real < (c + n * c + 1) as real;
    assert (n + 1) * c == n * c + c;
  }

  lemma Thousandths(a: real, b: real)
    ensures (a / 1000.0 * b) * 1000.0 == b * a
  {
    var x := a / 1000.0;
    assert x * 1000.0 == a;
    assert (x * b) * 1000.0 == b * (x * 1000.0);
  }

  lemma EarnedBelowOne(rate: Rate, d: nat)
    ensures Earned(rate, Seconds(d)) < 1.0 <==> rate.refill * d as real < 1000.0
  {
    hide Earned;
    EarnedInThousandths(rate, d);
  }

  lemma EarnedInThousandths(rate: Rate, d: nat)
    ensures Earned(rate, Seconds(d)) * 1000.0 == rate.refill * d as real
  {
    Thousandths(d as real, rate.refill);
  }

  lemma NoneAbove(cfg: Settings, focus: string, n: nat, t0: int, run: seq<Event>, t: int, d: nat)
    requires cfg.Valid() && Earned(cfg.limits.For(focus).tenant, Seconds(d)) < 1.0
    requires TimelyRun(cfg, focus, Initial(n, t0), run, HalfTtl(cfg.limits.For(focus)))
    requires InOrder(After(cfg, focus, Initial(n, t0), run).shared, ByReading)
    ensures |ReturnedIn(After(cfg, focus, Initial(n, t0), run), focus, t, t, d)|
         <= (n + 1) * cfg.limits.For(focus).tenant.capacity
  {
    hide After, TimelyRun, Initial, ReturnedIn, Earned;
    var rate := cfg.limits.For(focus).tenant;
    FleetBoundByReturn(cfg, focus, n, t0, run, t, t, d);
    EarnedAdds(rate, d, 0);
    NothingYet(rate);
    assert t - t + d == d && t - t == 0;
    WholeCalls(|ReturnedIn(After(cfg, focus, Initial(n, t0), run), focus, t, t, d)|, rate.capacity, n,
               Earned(rate, Seconds(d)));
  }

  lemma NoneEverAbove(cfg: Settings, focus: string, n: nat, d: nat)
    requires cfg.Valid() && Earned(cfg.limits.For(focus).tenant, Seconds(d)) < 1.0
    ensures InstantBound(cfg, focus, n, d)
  {
    hide After, TimelyRun, Initial, ReturnedIn, Earned, InOrder;
    forall t0, run, t
      | && TimelyRun(cfg, focus, Initial(n, t0), run, HalfTtl(cfg.limits.For(focus)))
        && InOrder(After(cfg, focus, Initial(n, t0), run).shared, ByReading)
      ensures |ReturnedIn(After(cfg, focus, Initial(n, t0), run), focus, t, t, d)|
           <= (n + 1) * cfg.limits.For(focus).tenant.capacity
    {
      NoneAbove(cfg, focus, n, t0, run, t, d);
    }
  }

  lemma SomeAbove(cfg: Settings, focus: string, n: nat, d: nat)
    requires cfg.Valid() && n > 0 && Earned(cfg.limits.For(focus).tenant, Seconds(d)) >= 1.0
    ensures !InstantBound(cfg, focus, n, d)
  {
    hide After, TimelyRun, Initial, ReturnedIn, Earned, InOrder;
    var run := OneTooMany(cfg, focus, n, d);
    TtlCoversBothBuckets(cfg.limits.For(focus));
    FleetBoundPrompt(cfg, focus, n, 0, run, 0, 0);
    TimelierRun(cfg, focus, Initial(n, 0), run, 0, HalfTtl(cfg.limits.For(focus)));
    var count := |ReturnedIn(After(cfg, focus, Initial(n, 0), run), focus, d, d, d)|;
    assert count > (n + 1) * cfg.limits.For(focus).tenant.capacity;
  }

  /** At one instant the calls that return, having lasted at most `d` milliseconds each, never exceed N + 1 buckets
      exactly when less than one token comes back in `d` milliseconds: r * d < 1000. */
  lemma InstantBoundIff(cfg: Settings, focus: string, n: nat, d: nat)
    requires cfg.Valid() && n > 0
    ensures InstantBound(cfg, focus, n, d) <==> cfg.limits.For(focus).tenant.refill * d as real < 1000.0
  {
    hide InstantBound, Earned;
    EarnedBelowOne(cfg.limits.For(focus).tenant, d);
    if Earned(cfg.limits.For(focus).tenant, Seconds(d)) < 1.0 {
      NoneEverAbove(cfg, focus, n, d);
    } else {
      SomeAbove(cfg, focus, n, d);
    }
  }
}
