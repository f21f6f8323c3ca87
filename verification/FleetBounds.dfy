/** How many calls of one tenant a fleet of N replicas lets through: (N + 1) * (c + r * (t - s)), and on which clock.
    The shared bucket gives one share, each replica's fallback another; every call let through is charged to one. */
module FleetBounds {
  import opened Prelude
  import opened TokenBuckets
  import opened LocalLimiter
  import opened RedisBucket
  import opened SharedLedger
  import opened Fleet

  // ---------------------------------------------------------------- the local shares

  /** The calls whose tokens a local ledger took in [s, t]. */
  function Holders(tokens: seq<Token>, s: int, t: int): set<nat> {
    if tokens == [] then {}
    else
      var k := tokens[|tokens| - 1];
      Holders(tokens[..|tokens| - 1], s, t) + if s <= k.at <= t then {k.id} else {}
  }

  function AllHolders(local: seq<seq<Token>>, s: int, t: int): set<nat> {
    if local == [] then {} else AllHolders(local[..|local| - 1], s, t) + Holders(local[|local| - 1], s, t)
  }

  lemma {:induction false} HoldersAreSpent(tokens: seq<Token>, s: int, t: int)
    ensures |Holders(tokens, s, t)| <= Spent(AsRequests(tokens), Seconds(s), Seconds(t))
  {
    if tokens != [] {
      var m := |tokens| - 1;
      HoldersAreSpent(tokens[..m], s, t);
      assert AsRequests(tokens)[..m] == AsRequests(tokens[..m]);
      SecondsDifference(s, tokens[m].at);
      SecondsDifference(tokens[m].at, t);
    }
  }

  lemma {:induction false} HoldersHold(tokens: seq<Token>, s: int, t: int, id: nat, at: int)
    requires Token(id, at) in tokens && s <= at <= t
    ensures id in Holders(tokens, s, t)
  {
    var m := |tokens| - 1;
    if tokens[m] != Token(id, at) {
      assert tokens == tokens[..m] + [tokens[m]];
      HoldersHold(tokens[..m], s, t, id, at);
    }
  }

  lemma {:induction false} AllHoldersHold(local: seq<seq<Token>>, s: int, t: int, i: nat, id: nat)
    requires i < |local| && id in Holders(local[i], s, t)
    ensures id in AllHolders(local, s, t)
  {
    if i < |local| - 1 {
      AllHoldersHold(local[..|local| - 1], s, t, i, id);
    }
  }

  lemma AccountsBoundsHolders(rate: Rate, b: Bucket, tokens: seq<Token>, s: int, t: int)
    requires Accounts(rate, b, AsRequests(tokens)) && s <= t
    ensures |Holders(tokens, s, t)| as real <= rate.Allowance(Seconds(t - s))
  {
    HoldersAreSpent(tokens, s, t);
    SecondsDifference(s, t);
    SecondsDifference(t, s);
    assert Spent(AsRequests(tokens), Seconds(s), Seconds(t)) as real <= rate.Allowance(Seconds(t) - Seconds(s));
  }

  lemma LocalHolders(cfg: Settings, focus: string, w: World, i: nat, s: int, t: int, lag: int)
    requires cfg.Valid() && Inv(cfg, focus, w, lag) && s <= t && i < |w.replicas|
    ensures |Holders(w.local[i], s, t)| as real <= cfg.limits.For(focus).tenant.Allowance(Seconds(t - s))
  {
    assert LocalAccounts(cfg, focus, w.replicas[i], w.local[i], w.now);
    var st := if w.replicas[i].fallback.Some? then w.replicas[i].fallback.value else EMPTY;
    if focus in st.tenants {
      AccountsBoundsHolders(cfg.limits.For(focus).tenant, st.tenants[focus], w.local[i], s, t);
    } else {
      assert w.local[i] == [];
      AllowanceGrows(cfg.limits.For(focus).tenant, 0.0, Seconds(t - s));
    }
  }

  lemma {:induction false} AllHoldersBounded(local: seq<seq<Token>>, s: int, t: int, a: real)
    requires forall i :: 0 <= i < |local| ==> |Holders(local[i], s, t)| as real <= a
    ensures |AllHolders(local, s, t)| as real <= Shares(|local|, a)
  {
    if local != [] {
      var m := |local| - 1;
      AllHoldersBounded(local[..m], s, t, a);
      assert |AllHolders(local, s, t)| <= |AllHolders(local[..m], s, t)| + |Holders(local[m], s, t)|;
    }
  }

  /** One share of the shared bucket and N of the replicas' own. */
  lemma AllShares(count: real, taken: real, first: real, a: real, n: nat)
    requires count <= taken + Shares(n, a) && taken <= first
    ensures count <= first + n as real * a
    ensures first == a ==> count <= (n + 1) as real * a
  {
    SharesMultiply(n, a);
    SharesMultiply(n + 1, a);
  }

  // ---------------------------------------------------------------- everything together

  function ChargedAt(charge: Charge, c: Clock): int {
    if c == ByRun then charge.at else charge.reading
  }

  /** The calls of `focus` let through so far on a token taken in [s, t]. */
  function LetThrough(w: World, focus: string, c: Clock, s: int, t: int): set<nat> {
    set id | id in w.calls && w.calls[id].tenant == focus && w.calls[id].phase.Returned?
             && s <= ChargedAt(w.calls[id].phase.charge, c) <= t
  }

  /** Every call let through holds a token of the shared bucket or of its own replica's. */
  lemma EveryCallHoldsAToken(cfg: Settings, focus: string, w: World, c: Clock, s: int, t: int, lag: int)
    requires cfg.Valid() && Inv(cfg, focus, w, lag)
    ensures LetThrough(w, focus, c, s, t) <= Takers(w.shared, c, s, t) + AllHolders(w.local, s, t)
  {
    hide SharedAccounts, LocalAccounts;
    forall id | id in LetThrough(w, focus, c, s, t)
      ensures id in Takers(w.shared, c, s, t) + AllHolders(w.local, s, t)
    {
      assert CallBooked(w, focus, id);
      var charge := w.calls[id].phase.charge;
      match charge.source
      case Shared =>
        TakerTakes(w.shared, c, s, t, Entry(Some(id), charge.at, charge.reading, true));
      case Local(i) =>
        HoldersHold(w.local[i], s, t, id, charge.at);
        AllHoldersHold(w.local, s, t, i, id);
    }
  }

  lemma SubsetSize<T>(a: set<T>, b: set<T>)
    requires a <= b
    ensures |a| <= |b|
  {
    assert b == a + (b - a);
  }

  /** A set of calls with shared tokens of one window and local ones of another. */
  lemma SharesAddUp(cfg: Settings, focus: string, w: World, ids: set<nat>, c: Clock, u: int, v: int, s: int, t: int,
                    lag: int)
    requires cfg.Valid() && Inv(cfg, focus, w, lag) && s <= t
    requires ids <= Takers(w.shared, c, u, v) + AllHolders(w.local, s, t)
    ensures |ids| as real <= Taken(w.shared, c, u, v) as real
                             + Shares(|w.replicas|, cfg.limits.For(focus).tenant.Allowance(Seconds(t - s)))
  {
    hide SharedAccounts, LocalAccounts, CallBooked;
    var a := cfg.limits.For(focus).tenant.Allowance(Seconds(t - s));
    var h, l := Takers(w.shared, c, u, v), AllHolders(w.local, s, t);
    SubsetSize(ids, h + l);
    TakersAreFew(w.shared, c, u, v);
    forall i | 0 <= i < |w.local|
      ensures |Holders(w.local[i], s, t)| as real <= a
    {
      LocalHolders(cfg, focus, w, i, s, t, lag);
    }
    AllHoldersBounded(w.local, s, t, a);
  }

  lemma SharedOrdered(cfg: Settings, focus: string, w: World, s: int, t: int, span: int, lag: int)
    requires cfg.Valid() && Inv(cfg, focus, w, lag) && InOrder(w.shared, ByReading) && 0 <= span == t - s
    ensures Taken(w.shared, ByReading, s, t) as real <= cfg.limits.For(focus).tenant.Allowance(Seconds(span))
  {
    var name := TenantKey(cfg.prefix, focus);
    var h := if name in w.store then Some(w.store[name].hash) else None;
    OrderedBound(cfg.limits.For(focus).tenant, w.shared, h, s, t);
  }

  // ---------------------------------------------------------------- readings in order

  /** For every run of the fleet, whatever the replies, timeouts, open breakers and fallbacks, in which the readings
      that reach the tenant's key never step back: the calls let through on tokens whose readings lie in a window
      [s, t] number at most (N + 1) * (c + r * (t - s)). A script may lag half its key's time to live behind its
      reading. */
  lemma FleetBound(cfg: Settings, focus: string, n: nat, t0: int, run: seq<Event>, s: int, t: int)
    requires cfg.Valid() && s <= t && TimelyRun(cfg, focus, Initial(n, t0), run, HalfTtl(cfg.limits.For(focus)))
    requires InOrder(After(cfg, focus, Initial(n, t0), run).shared, ByReading)
    ensures |LetThrough(After(cfg, focus, Initial(n, t0), run), focus, ByReading, s, t)| as real
         <= (n + 1) as real * cfg.limits.For(focus).tenant.Allowance(Seconds(t - s))
  {
    hide Inv, After, TimelyRun, LetThrough;
    var lag := HalfTtl(cfg.limits.For(focus));
    var w := After(cfg, focus, Initial(n, t0), run);
    RunKeepsInv(cfg, focus, n, t0, run, lag);
    EveryCallHoldsAToken(cfg, focus, w, ByReading, s, t, lag);
    SharesAddUp(cfg, focus, w, LetThrough(w, focus, ByReading, s, t), ByReading, s, t, s, t, lag);
    SharedOrdered(cfg, focus, w, s, t, t - s, lag);
    var a := cfg.limits.For(focus).tenant.Allowance(Seconds(t - s));
    AllShares(|LetThrough(w, focus, ByReading, s, t)| as real, Taken(w.shared, ByReading, s, t) as real, a, a, n);
  }

  /** Scripts that run the moment their readings are taken keep the readings in order: the bound holds in every such
      run, and the two clocks agree. */
  lemma FleetBoundPrompt(cfg: Settings, focus: string, n: nat, t0: int, run: seq<Event>, s: int, t: int)
    requires cfg.Valid() && s <= t && TimelyRun(cfg, focus, Initial(n, t0), run, 0)
    ensures InOrder(After(cfg, focus, Initial(n, t0), run).shared, ByReading)
    ensures |LetThrough(After(cfg, focus, Initial(n, t0), run), focus, ByReading, s, t)| as real
         <= (n + 1) as real * cfg.limits.For(focus).tenant.Allowance(Seconds(t - s))
  {
    hide After, LetThrough;
    TtlCoversBothBuckets(cfg.limits.For(focus));
    RunKeepsInv(cfg, focus, n, t0, run, 0);
    PromptIsOrdered(cfg, focus, After(cfg, focus, Initial(n, t0), run));
    TimelierRun(cfg, focus, Initial(n, t0), run, 0, HalfTtl(cfg.limits.For(focus)));
    FleetBound(cfg, focus, n, t0, run, s, t);
  }

  lemma PromptIsOrdered(cfg: Settings, focus: string, w: World)
    requires cfg.Valid() && Inv(cfg, focus, w, 0)
    ensures InOrder(w.shared, ByReading)
  {
    forall i | 0 < i < |w.shared|
      ensures w.shared[i - 1].reading <= w.shared[i].reading
    {
      assert At(w.shared[i - 1], ByRun) <= At(w.shared[i], ByRun);
    }
  }

  lemma {:induction false} TimelierRun(cfg: Settings, focus: string, start: World, run: seq<Event>, a: int, b: int)
    requires cfg.Valid() && a <= b && TimelyRun(cfg, focus, start, run, a)
    ensures TimelyRun(cfg, focus, start, run, b)
  {
    hide After, Step;
    if run != [] {
      TimelierRun(cfg, focus, start, run[..|run| - 1], a, b);
    }
  }

  // ---------------------------------------------------------------- readings in any order

  lemma SharedInAnyOrder(cfg: Settings, focus: string, w: World, s: int, t: int, lag: int)
    requires cfg.Valid() && Inv(cfg, focus, w, lag) && s <= t && 0 <= lag
    ensures Taken(w.shared, ByRun, s, t) as real
         <= cfg.limits.For(focus).tenant.Allowance(Seconds(t - s + lag + BackIn(w.shared, ByRun, s, t)))
  {
    hide Served, InOrder, Trails, Taken, BackIn;
    var name := TenantKey(cfg.prefix, focus);
    var h := if name in w.store then Some(w.store[name].hash) else None;
    RunBound(cfg.limits.For(focus).tenant, w.shared, h, s, t, lag);
  }

  /** With readings in any order: the calls let through on tokens taken at moments of [s, t] number at most
      c + r * (t - s + lag + back), `back` being what the readings went back in the window, and N local shares. */
  lemma FleetBoundInAnyOrder(cfg: Settings, focus: string, n: nat, t0: int, run: seq<Event>, s: int, t: int, lag: int)
    requires cfg.Valid() && s <= t && 0 <= lag <= HalfTtl(cfg.limits.For(focus))
    requires TimelyRun(cfg, focus, Initial(n, t0), run, lag)
    ensures var w := After(cfg, focus, Initial(n, t0), run);
            var rate := cfg.limits.For(focus).tenant;
            |LetThrough(w, focus, ByRun, s, t)| as real
            <= rate.Allowance(Seconds(t - s + lag + BackIn(w.shared, ByRun, s, t)))
               + n as real * rate.Allowance(Seconds(t - s))
  {
    hide Inv, After, TimelyRun, LetThrough, Taken, BackIn, Takers, AllHolders;
    var w := After(cfg, focus, Initial(n, t0), run);
    RunKeepsInv(cfg, focus, n, t0, run, lag);
    EveryCallHoldsAToken(cfg, focus, w, ByRun, s, t, lag);
    SharesAddUp(cfg, focus, w, LetThrough(w, focus, ByRun, s, t), ByRun, s, t, s, t, lag);
    SharedInAnyOrder(cfg, focus, w, s, t, lag);
    var rate := cfg.limits.For(focus).tenant;
    AllShares(|LetThrough(w, focus, ByRun, s, t)| as real, Taken(w.shared, ByRun, s, t) as real,
              rate.Allowance(Seconds(t - s + lag + BackIn(w.shared, ByRun, s, t))), rate.Allowance(Seconds(t - s)), n);
  }

  // ---------------------------------------------------------------- whole calls

  /** The calls of `focus` that both began and returned in [s, t]. */
  function Within(w: World, focus: string, s: int, t: int): set<nat> {
    set id | id in w.calls && w.calls[id].tenant == focus && w.calls[id].phase.Returned?
             && s <= w.calls[id].startedAt && w.calls[id].phase.at <= t
  }

  /** The calls of `focus` that returned in [s, t], each within `d` milliseconds of starting. */
  function ReturnedIn(w: World, focus: string, s: int, t: int, d: nat): set<nat> {
    set id | id in w.calls && w.calls[id].tenant == focus && w.calls[id].phase.Returned?
             && s <= w.calls[id].phase.at <= t && w.calls[id].phase.at - w.calls[id].startedAt <= d
  }

  lemma WithinHolds(cfg: Settings, focus: string, w: World, s: int, t: int, lag: int)
    requires cfg.Valid() && Inv(cfg, focus, w, lag)
    ensures Within(w, focus, s, t) <= LetThrough(w, focus, ByReading, s, t)
  {
    hide SharedAccounts, LocalAccounts;
    forall id | id in Within(w, focus, s, t)
      ensures id in LetThrough(w, focus, ByReading, s, t)
    {
      assert CallBooked(w, focus, id);
    }
  }

  /** The same bound for the calls that a window contains from start to return. */
  lemma FleetBoundWithin(cfg: Settings, focus: string, n: nat, t0: int, run: seq<Event>, s: int, t: int)
    requires cfg.Valid() && s <= t && TimelyRun(cfg, focus, Initial(n, t0), run, HalfTtl(cfg.limits.For(focus)))
    requires InOrder(After(cfg, focus, Initial(n, t0), run).shared, ByReading)
    ensures |Within(After(cfg, focus, Initial(n, t0), run), focus, s, t)| as real
         <= (n + 1) as real * cfg.limits.For(focus).tenant.Allowance(Seconds(t - s))
  {
    hide Inv, After, TimelyRun, LetThrough, Within;
    var w := After(cfg, focus, Initial(n, t0), run);
    RunKeepsInv(cfg, focus, n, t0, run, HalfTtl(cfg.limits.For(focus)));
    WithinHolds(cfg, focus, w, s, t, HalfTtl(cfg.limits.For(focus)));
    SubsetSize(Within(w, focus, s, t), LetThrough(w, focus, ByReading, s, t));
    FleetBound(cfg, focus, n, t0, run, s, t);
  }

  lemma ReturnedHolds(cfg: Settings, focus: string, w: World, s: int, t: int, d: nat, lag: int)
    requires cfg.Valid() && Inv(cfg, focus, w, lag)
    ensures ReturnedIn(w, focus, s, t, d) <= Takers(w.shared, ByReading, s - d, t) + AllHolders(w.local, s, t)
  {
    hide SharedAccounts, LocalAccounts;
    forall id | id in ReturnedIn(w, focus, s, t, d)
      ensures id in Takers(w.shared, ByReading, s - d, t) + AllHolders(w.local, s, t)
    {
      assert CallBooked(w, focus, id);
      var charge := w.calls[id].phase.charge;
      match charge.source
      case Shared =>
        TakerTakes(w.shared, ByReading, s - d, t, Entry(Some(id), charge.at, charge.reading, true));
      case Local(i) =>
        HoldersHold(w.local[i], s, t, id, charge.at);
        AllHoldersHold(w.local, s, t, i, id);
    }
  }

  lemma StateBoundByReturn(cfg: Settings, focus: string, w: World, s: int, t: int, d: nat, first: real, a: real,
                           lag: int)
    requires cfg.Valid() && Inv(cfg, focus, w, lag) && InOrder(w.shared, ByReading) && s <= t
    requires first == cfg.limits.For(focus).tenant.Allowance(Seconds(t - s + d))
    requires a == cfg.limits.For(focus).tenant.Allowance(Seconds(t - s))
    ensures |ReturnedIn(w, focus, s, t, d)| as real <= first + |w.replicas| as real * a
  {
    hide *;
    ReturnedHolds(cfg, focus, w, s, t, d, lag);
    SharesAddUp(cfg, focus, w, ReturnedIn(w, focus, s, t, d), ByReading, s - d, t, s, t, lag);
    SharedOrdered(cfg, focus, w, s - d, t, t - s + d, lag);
    AllShares(|ReturnedIn(w, focus, s, t, d)| as real, Taken(w.shared, ByReading, s - d, t) as real, first, a,
              |w.replicas|);
  }

  /** Counted by return, only the shared window is extended, by the longest call: a local token is taken the moment the
      call returns. */
  lemma FleetBoundByReturn(cfg: Settings, focus: string, n: nat, t0: int, run: seq<Event>, s: int, t: int, d: nat)
    requires cfg.Valid() && s <= t && TimelyRun(cfg, focus, Initial(n, t0), run, HalfTtl(cfg.limits.For(focus)))
    requires InOrder(After(cfg, focus, Initial(n, t0), run).shared, ByReading)
    ensures var rate := cfg.limits.For(focus).tenant;
            |ReturnedIn(After(cfg, focus, Initial(n, t0), run), focus, s, t, d)| as real
            <= rate.Allowance(Seconds(t - s + d)) + n as real * rate.Allowance(Seconds(t - s))
  {
    hide Inv, After, TimelyRun, ReturnedIn;
    var lag, rate := HalfTtl(cfg.limits.For(focus)), cfg.limits.For(focus).tenant;
    RunKeepsInv(cfg, focus, n, t0, run, lag);
    StateBoundByReturn(cfg, focus, After(cfg, focus, Initial(n, t0), run), s, t, d,
                       rate.Allowance(Seconds(t - s + d)), rate.Allowance(Seconds(t - s)), lag);
  }
}
