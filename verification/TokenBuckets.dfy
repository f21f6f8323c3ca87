/** The token bucket of rate_limit/token_bucket.py, over real arithmetic. */
module TokenBuckets {
  import opened Prelude

  /** What a bucket is configured with. */
  datatype Rate = Rate(capacity: int, refill: real) {
    predicate Valid() {
      capacity > 0 && refill > 0.0
    }

    /** The tokens a window of `dt` seconds may spend. */
    function Allowance(dt: real): real {
      capacity as real + refill * dt
    }
  }

  /** The two fields a bucket updates. */
  datatype Bucket = Bucket(tokens: real, last: real)

  predicate InRange(rate: Rate, b: Bucket) {
    0.0 <= b.tokens <= rate.capacity as real
  }

  function Full(rate: Rate, now: real): Bucket {
    Bucket(rate.capacity as real, now)
  }

  /** The tokens that come back in `dt` seconds. */
  function Earned(rate: Rate, dt: real): real {
    dt * rate.refill
  }

  function Refresh(rate: Rate, b: Bucket, now: real): Bucket {
    var elapsed := now - b.last;
    Bucket(
      if elapsed > 0.0 then MinReal(rate.capacity as real, b.tokens + Earned(rate, elapsed)) else b.tokens,
      now)
  }

  function Acquire(rate: Rate, b: Bucket, now: real, n: int): (Bucket, bool) {
    var ready := Refresh(rate, b, now);
    if ready.tokens >= n as real then (ready.(tokens := ready.tokens - n as real), true)
    else (ready, false)
  }

  lemma AllowanceGrows(rate: Rate, a: real, b: real)
    requires rate.Valid() && a <= b
    ensures rate.Allowance(a) <= rate.Allowance(b)
    ensures rate.Allowance(0.0) == rate.capacity as real
  {
    MulMonotone(rate.refill, a, b);
  }

  lemma AllowanceAdds(rate: Rate, a: real, b: real)
    ensures rate.Allowance(a + b) == rate.Allowance(a) + Earned(rate, b)
  {
    MulDistributes(rate.refill, a, b);
  }

  /** A full bucket cannot be told from one created at the moment of the call. */
  lemma FullIsAgeless(rate: Rate, b: Bucket, now: real, n: int)
    requires rate.Valid() && b.tokens == rate.capacity as real
    ensures Acquire(rate, b, now, n) == Acquire(rate, Full(rate, now), now, n)
  {
    hide Earned;
    if now - b.last > 0.0 {
      EarnedNonNegative(rate, now - b.last);
    }
  }

  class TokenBucket {
    const rate: Rate
    var tokens: real
    var last: real

    ghost function Value(): Bucket
      reads this
    {
      Bucket(tokens, last)
    }

    constructor Start(rate: Rate, now: real)
      requires rate.Valid()
      ensures this.rate == rate && Value() == Full(rate, now)
    {
      this.rate := rate;
      tokens := rate.capacity as real;
      last := now;
    }

    /** The constructor's two checks; the source raises ValueError. */
    static method Create(capacity: int, refill: real, now: real) returns (r: Result<TokenBucket, string>)
      ensures r.Err? <==> capacity <= 0 || refill <= 0.0
      ensures r.Err? ==> r.error == if capacity <= 0 then "capacity must be > 0" else "refill_per_sec must be > 0"
      ensures r.Ok? ==> fresh(r.value) && r.value.rate == Rate(capacity, refill)
                        && r.value.Value() == Full(Rate(capacity, refill), now)
    {
      if capacity <= 0 {
        return Err("capacity must be > 0");
      }
      if refill <= 0.0 {
        return Err("refill_per_sec must be > 0");
      }
      var b := new TokenBucket.Start(Rate(capacity, refill), now);
      return Ok(b);
    }

    method RefreshTokens(now: real)
      modifies this
      ensures Value() == Refresh(rate, old(Value()), now)
    {
      var elapsed := now - last;
      if elapsed > 0.0 {
        tokens := MinReal(rate.capacity as real, tokens + elapsed * rate.refill);
      }
      last := now;
    }

    method TryAcquire(now: real, n: int := 1) returns (granted: bool)
      modifies this
      ensures (Value(), granted) == Acquire(rate, old(Value()), now, n)
    {
      RefreshTokens(now);
      if tokens >= n as real {
        tokens := tokens - n as real;
        return true;
      }
      return false;
    }
  }

  // ---------------------------------------------------------------- accounting

  /** A request for `n` tokens at clock reading `at`. */
  datatype Request = Request(at: real, n: nat)

  /** Tokens the log spends at readings in [s, t]. */
  function Spent(log: seq<Request>, s: real, t: real): nat {
    if log == [] then 0
    else
      var g := log[|log| - 1];
      Spent(log[..|log| - 1], s, t) + if s <= g.at <= t then g.n else 0
  }

  ghost predicate Before(log: seq<Request>, now: real) {
    forall i :: 0 <= i < |log| ==> log[i].at <= now
  }

  /** No window of the log spends more than its allowance. */
  ghost predicate WithinEveryWindow(rate: Rate, log: seq<Request>) {
    forall s, t :: s <= t ==> Spent(log, s, t) as real <= rate.Allowance(t - s)
  }

  /** What a bucket in state `b` knows about the grants in `log`: they are all in the past, every
      window up to now is within its allowance, and what is left of a window's allowance is at least
      the tokens the bucket still holds. */
  ghost predicate Accounts(rate: Rate, b: Bucket, log: seq<Request>) {
    && InRange(rate, b)
    && Before(log, b.last)
    && WithinEveryWindow(rate, log)
    && forall s :: s <= b.last ==> Spent(log, s, b.last) as real + b.tokens <= rate.Allowance(b.last - s)
  }

  /** Some window start `s` no earlier than `t0` has exactly the bucket's tokens left. */
  ghost predicate Exhausts(rate: Rate, b: Bucket, log: seq<Request>, t0: real) {
    exists s :: t0 <= s <= b.last && Spent(log, s, b.last) as real + b.tokens == rate.Allowance(b.last - s)
  }

  lemma {:induction false} SpentAfter(log: seq<Request>, s: real, t: real, u: real)
    requires Before(log, t) && t <= u
    ensures Spent(log, s, u) == Spent(log, s, t)
  {
    if log != [] {
      SpentAfter(log[..|log| - 1], s, t, u);
    }
  }

  lemma {:induction false} SpentNowhere(log: seq<Request>, s: real, t: real)
    requires t < s
    ensures Spent(log, s, t) == 0
  {
    if log != [] {
      SpentNowhere(log[..|log| - 1], s, t);
    }
  }

  lemma SpentSnoc(log: seq<Request>, g: Request, s: real, t: real)
    ensures Spent(log + [g], s, t) == Spent(log, s, t) + if s <= g.at <= t then g.n else 0
  {
    assert (log + [g])[..|log|] == log;
  }

  lemma {:induction false} NothingSpentYet(rate: Rate, b: Bucket)
    requires rate.Valid() && InRange(rate, b)
    ensures Accounts(rate, b, [])
  {
    forall s, t | s <= t
      ensures Spent([], s, t) as real + b.tokens <= rate.Allowance(t - s)
    {
      AllowanceGrows(rate, 0.0, t - s);
    }
  }

  lemma RefreshBounds(rate: Rate, b: Bucket, now: real)
    requires rate.Valid() && InRange(rate, b) && b.last <= now
    ensures InRange(rate, Refresh(rate, b, now)) && Refresh(rate, b, now).last == now
    ensures b.tokens <= Refresh(rate, b, now).tokens <= b.tokens + Earned(rate, now - b.last)
  {
    hide Earned;
    EarnedNonNegative(rate, now - b.last);
    ClampBounds(b.tokens, Earned(rate, now - b.last), rate.capacity as real);
  }

  lemma EarnedNonNegative(rate: Rate, dt: real)
    requires rate.Valid() && dt >= 0.0
    ensures Earned(rate, dt) >= 0.0
  {
    MulNonNegative(dt, rate.refill);
  }

  lemma ClampBounds(tokens: real, gain: real, cap: real)
    requires 0.0 <= gain && 0.0 <= tokens <= cap
    ensures 0.0 <= tokens <= MinReal(cap, tokens + gain) <= cap
    ensures MinReal(cap, tokens + gain) <= tokens + gain
  {
  }

  lemma WindowGains(rate: Rate, a: real, dt: real, spent: real, tokens: real, tokens': real, gain: real)
    requires gain == Earned(rate, dt) && tokens' <= tokens + gain
    requires spent + tokens <= rate.Allowance(a)
    ensures spent + tokens' <= rate.Allowance(a + dt)
  {
    AllowanceAdds(rate, a, dt);
  }

  lemma RefreshWindow(rate: Rate, b: Bucket, log: seq<Request>, now: real, s: real)
    requires rate.Valid() && Accounts(rate, b, log) && b.last <= now && s <= now
    ensures Spent(log, s, now) as real + Refresh(rate, b, now).tokens <= rate.Allowance(now - s)
  {
    RefreshBounds(rate, b, now);
    SpentAfter(log, s, b.last, now);
    if s <= b.last {
      WindowGains(rate, b.last - s, now - b.last, Spent(log, s, b.last) as real, b.tokens,
                  Refresh(rate, b, now).tokens, Earned(rate, now - b.last));
      assert (b.last - s) + (now - b.last) == now - s;
    } else {
      SpentNowhere(log, s, b.last);
      AllowanceGrows(rate, 0.0, now - s);
    }
  }

  lemma RefreshAccounts(rate: Rate, b: Bucket, log: seq<Request>, now: real)
    requires rate.Valid() && Accounts(rate, b, log) && b.last <= now
    ensures Accounts(rate, Refresh(rate, b, now), log)
  {
    RefreshBounds(rate, b, now);
    forall s | s <= now
      ensures Spent(log, s, now) as real + Refresh(rate, b, now).tokens <= rate.Allowance(now - s)
    {
      RefreshWindow(rate, b, log, now, s);
    }
  }

  /** Granting what the tokens cover keeps the account. */
  lemma GrantAccounts(rate: Rate, b: Bucket, log: seq<Request>, n: nat)
    requires rate.Valid() && Accounts(rate, b, log) && n as real <= b.tokens
    ensures Accounts(rate, b.(tokens := b.tokens - n as real), log + [Request(b.last, n)])
  {
    var g := Request(b.last, n);
    forall s, t | s <= t
      ensures Spent(log + [g], s, t) as real <= rate.Allowance(t - s)
    {
      SpentSnoc(log, g, s, t);
      if s <= b.last <= t {
        SpentAfter(log, s, b.last, t);
        AllowanceGrows(rate, b.last - s, t - s);
        assert Spent(log, s, b.last) as real + b.tokens <= rate.Allowance(b.last - s);
      } else {
        assert Spent(log, s, t) as real <= rate.Allowance(t - s);
      }
    }
    forall s | s <= b.last
      ensures Spent(log + [g], s, b.last) as real + (b.tokens - n as real) <= rate.Allowance(b.last - s)
    {
      SpentSnoc(log, g, s, b.last);
    }
  }

  lemma AcquireAccounts(rate: Rate, b: Bucket, log: seq<Request>, now: real, n: nat)
    requires rate.Valid() && Accounts(rate, b, log) && b.last <= now
    ensures var (b', granted) := Acquire(rate, b, now, n);
            Accounts(rate, b', if granted then log + [Request(now, n)] else log)
  {
    RefreshAccounts(rate, b, log, now);
    var f := Refresh(rate, b, now);
    if n as real <= f.tokens {
      GrantAccounts(rate, f, log, n);
    }
  }

  lemma RefreshExhausts(rate: Rate, b: Bucket, log: seq<Request>, t0: real, now: real)
    requires rate.Valid() && Accounts(rate, b, log) && Exhausts(rate, b, log, t0) && b.last <= now
    ensures Exhausts(rate, Refresh(rate, b, now), log, t0)
  {
    hide Earned, Spent;
    var f := Refresh(rate, b, now);
    var s :| t0 <= s <= b.last && Spent(log, s, b.last) as real + b.tokens == rate.Allowance(b.last - s);
    RefreshAccounts(rate, b, log, now);
    SpentAfter(log, s, b.last, now);
    AllowanceAdds(rate, b.last - s, now - b.last);
    assert now - s == (b.last - s) + (now - b.last);
    if f.tokens == rate.capacity as real {
      // The refill was clamped: from here on the window that starts now is the tight one.
      AllowanceGrows(rate, 0.0, 0.0);
      assert Spent(log, now, now) as real + f.tokens <= rate.Allowance(now - now);
    } else {
      assert Spent(log, s, now) as real + f.tokens == rate.Allowance(now - s);
    }
  }

  lemma AcquireExhausts(rate: Rate, b: Bucket, log: seq<Request>, t0: real, now: real, n: nat)
    requires rate.Valid() && Accounts(rate, b, log) && Exhausts(rate, b, log, t0) && b.last <= now
    ensures var (b', granted) := Acquire(rate, b, now, n);
            Exhausts(rate, b', if granted then log + [Request(now, n)] else log, t0)
  {
    RefreshExhausts(rate, b, log, t0, now);
    var f := Refresh(rate, b, now);
    var s :| t0 <= s <= now && Spent(log, s, now) as real + f.tokens == rate.Allowance(now - s);
    SpentSnoc(log, Request(now, n), s, now);
    var (b', granted) := Acquire(rate, b, now, n);
    var log' := if granted then log + [Request(now, n)] else log;
    assert Spent(log', s, now) as real + b'.tokens == rate.Allowance(now - s);
  }

  /** A refusal always has a window to blame. */
  lemma RefusalHasWitness(rate: Rate, b: Bucket, log: seq<Request>, t0: real, now: real, n: nat) returns (s: real)
    requires rate.Valid() && Accounts(rate, b, log) && Exhausts(rate, b, log, t0) && b.last <= now
    requires !Acquire(rate, b, now, n).1
    ensures t0 <= s <= now && Spent(log, s, now) as real + n as real > rate.Allowance(now - s)
  {
    RefreshExhausts(rate, b, log, t0, now);
    var f := Refresh(rate, b, now);
    s :| t0 <= s <= now && Spent(log, s, now) as real + f.tokens == rate.Allowance(now - s);
  }

  // ---------------------------------------------------------------- whole runs

  /** Clock readings never decrease along a run that starts at `t0`. */
  ghost predicate Monotone(t0: real, reqs: seq<Request>) {
    && (forall i :: 0 <= i < |reqs| ==> t0 <= reqs[i].at)
    && (forall i, j :: 0 <= i < j < |reqs| ==> reqs[i].at <= reqs[j].at)
  }

  /** The bucket created full at `t0` after serving `reqs`, and the requests it granted. */
  function AfterRequests(rate: Rate, t0: real, reqs: seq<Request>): (Bucket, seq<Request>) {
    if reqs == [] then (Full(rate, t0), [])
    else
      var (b, log) := AfterRequests(rate, t0, reqs[..|reqs| - 1]);
      var q := reqs[|reqs| - 1];
      var (b', granted) := Acquire(rate, b, q.at, q.n);
      (b', if granted then log + [q] else log)
  }

  lemma {:induction false} AfterAccounts(rate: Rate, t0: real, reqs: seq<Request>)
    requires rate.Valid() && Monotone(t0, reqs)
    ensures var (b, log) := AfterRequests(rate, t0, reqs);
            && Accounts(rate, b, log) && Exhausts(rate, b, log, t0)
            && b.last == if reqs == [] then t0 else reqs[|reqs| - 1].at
  {
    if reqs == [] {
      NothingSpentYet(rate, Full(rate, t0));
      assert Spent([], t0, t0) == 0;
    } else {
      AfterAccounts(rate, t0, reqs[..|reqs| - 1]);
      var (b, log) := AfterRequests(rate, t0, reqs[..|reqs| - 1]);
      var q := reqs[|reqs| - 1];
      AcquireAccounts(rate, b, log, q.at, q.n);
      AcquireExhausts(rate, b, log, t0, q.at, q.n);
    }
  }

  /** Every window [s, t] of every run grants at most c + r * (t - s). */
  lemma WindowBound(rate: Rate, t0: real, reqs: seq<Request>, s: real, t: real)
    requires rate.Valid() && Monotone(t0, reqs) && s <= t
    ensures Spent(AfterRequests(rate, t0, reqs).1, s, t) as real <= rate.Allowance(t - s)
  {
    AfterAccounts(rate, t0, reqs);
  }

  /** Adding a request for `n` at `now` keeps every window that ends now within its allowance. */
  ghost predicate WindowsAllow(rate: Rate, log: seq<Request>, t0: real, now: real, n: nat) {
    forall s :: t0 <= s <= now ==> Spent(log, s, now) as real + n as real <= rate.Allowance(now - s)
  }

  lemma GrantKeepsWindows(rate: Rate, b: Bucket, log: seq<Request>, t0: real, now: real, n: nat)
    requires rate.Valid() && Accounts(rate, b, log) && b.last <= now
    requires Acquire(rate, b, now, n).1
    ensures WindowsAllow(rate, log, t0, now, n)
  {
    AcquireAccounts(rate, b, log, now, n);
    var g := Request(now, n);
    forall s | t0 <= s <= now
      ensures Spent(log, s, now) as real + n as real <= rate.Allowance(now - s)
    {
      SpentSnoc(log, g, s, now);
      assert Spent(log + [g], s, now) as real <= rate.Allowance(now - s);
    }
  }

  /** The bucket decides exactly by the windows: the next request is granted iff adding it keeps every
      window that ends now within its allowance. */
  lemma GrantedIffWindowsAllow(rate: Rate, t0: real, reqs: seq<Request>, q: Request)
    requires rate.Valid() && Monotone(t0, reqs + [q])
    ensures Acquire(rate, AfterRequests(rate, t0, reqs).0, q.at, q.n).1
            <==> WindowsAllow(rate, AfterRequests(rate, t0, reqs).1, t0, q.at, q.n)
  {
    hide Accounts, Exhausts, Acquire, Spent, AfterRequests;
    assert forall i :: 0 <= i < |reqs| ==> reqs[i] == (reqs + [q])[i];
    assert (reqs + [q])[|reqs|] == q;
    AfterAccounts(rate, t0, reqs);
    var (b, log) := AfterRequests(rate, t0, reqs);
    if Acquire(rate, b, q.at, q.n).1 {
      GrantKeepsWindows(rate, b, log, t0, q.at, q.n);
    } else {
      var s := RefusalHasWitness(rate, b, log, t0, q.at, q.n);
    }
  }

  // ---------------------------------------------------------------- the best policy within the bound

  /** The requests a policy with these decisions grants. */
  function Chosen(reqs: seq<Request>, decisions: seq<bool>): (log: seq<Request>)
    requires |decisions| == |reqs|
  {
    if reqs == [] then []
    else
      var m := |reqs| - 1;
      var log := Chosen(reqs[..m], decisions[..m]);
      if decisions[m] then log + [reqs[m]] else log
  }

  /** The bucket's own decisions along a run. */
  function Verdicts(rate: Rate, t0: real, reqs: seq<Request>): (d: seq<bool>)
    ensures |d| == |reqs|
  {
    if reqs == [] then []
    else
      var m := |reqs| - 1;
      Verdicts(rate, t0, reqs[..m]) + [Acquire(rate, AfterRequests(rate, t0, reqs[..m]).0, reqs[m].at, reqs[m].n).1]
  }

  ghost predicate UnitRequests(reqs: seq<Request>) {
    forall i :: 0 <= i < |reqs| ==> reqs[i].n == 1
  }

  lemma {:induction false} AfterChoosesVerdicts(rate: Rate, t0: real, reqs: seq<Request>)
    ensures AfterRequests(rate, t0, reqs).1 == Chosen(reqs, Verdicts(rate, t0, reqs))
  {
    if reqs != [] {
      var m := |reqs| - 1;
      AfterChoosesVerdicts(rate, t0, reqs[..m]);
      assert Verdicts(rate, t0, reqs)[..m] == Verdicts(rate, t0, reqs[..m]);
    }
  }

  lemma {:induction false} ChosenBefore(reqs: seq<Request>, d: seq<bool>, s: real, t: real)
    requires |d| == |reqs|
    requires forall i :: 0 <= i < |reqs| ==> reqs[i].at < s
    ensures Spent(Chosen(reqs, d), s, t) == 0
  {
    if reqs != [] {
      var k := |reqs| - 1;
      ChosenBefore(reqs[..k], d[..k], s, t);
      SpentSnoc(Chosen(reqs[..k], d[..k]), reqs[k], s, t);
    }
  }

  /** Cutting a run at the clock reading `s` splits what a policy grants. */
  lemma {:induction false} ChosenSplits(reqs: seq<Request>, d: seq<bool>, m: nat, s: real, t: real)
    requires |d| == |reqs| && m <= |reqs| && UnitRequests(reqs)
    requires forall i :: 0 <= i < m ==> reqs[i].at < s
    requires forall i :: m <= i < |reqs| ==> s <= reqs[i].at <= t
    ensures |Chosen(reqs, d)| == |Chosen(reqs[..m], d[..m])| + Spent(Chosen(reqs, d), s, t)
  {
    if m == |reqs| {
      assert reqs[..m] == reqs && d[..m] == d;
      ChosenBefore(reqs, d, s, t);
    } else {
      var k := |reqs| - 1;
      ChosenSplits(reqs[..k], d[..k], m, s, t);
      assert reqs[..k][..m] == reqs[..m] && d[..k][..m] == d[..m];
      SpentSnoc(Chosen(reqs[..k], d[..k]), reqs[k], s, t);
    }
  }

  lemma ChosenPrefixStaysWithin(rate: Rate, reqs: seq<Request>, d: seq<bool>)
    requires |d| == |reqs| > 0 && WithinEveryWindow(rate, Chosen(reqs, d))
    ensures WithinEveryWindow(rate, Chosen(reqs[..|reqs| - 1], d[..|reqs| - 1]))
  {
    var m := |reqs| - 1;
    var log := Chosen(reqs[..m], d[..m]);
    var all := Chosen(reqs, d);
    assert all == if d[m] then log + [reqs[m]] else log;
    forall s, t | s <= t
      ensures Spent(log, s, t) as real <= rate.Allowance(t - s)
    {
      SpentSnoc(log, reqs[m], s, t);
      assert Spent(log, s, t) <= Spent(all, s, t);
      assert Spent(all, s, t) as real <= rate.Allowance(t - s);
    }
  }

  lemma {:induction false} ChosenTakeStaysWithin(rate: Rate, reqs: seq<Request>, d: seq<bool>, m: nat)
    requires |d| == |reqs| && m <= |reqs| && WithinEveryWindow(rate, Chosen(reqs, d))
    ensures WithinEveryWindow(rate, Chosen(reqs[..m], d[..m]))
    decreases |reqs|
  {
    if m == |reqs| {
      assert reqs[..m] == reqs && d[..m] == d;
    } else {
      var k := |reqs| - 1;
      ChosenPrefixStaysWithin(rate, reqs, d);
      ChosenTakeStaysWithin(rate, reqs[..k], d[..k], m);
      assert reqs[..k][..m] == reqs[..m] && d[..k][..m] == d[..m];
    }
  }

  /** How many of the monotone run's requests come before `s`. */
  lemma {:induction false} CutBefore(t0: real, reqs: seq<Request>, s: real) returns (m: nat)
    requires Monotone(t0, reqs)
    ensures m <= |reqs|
    ensures forall i :: 0 <= i < m ==> reqs[i].at < s
    ensures forall i :: m <= i < |reqs| ==> s <= reqs[i].at
  {
    m := |reqs|;
    while m > 0 && s <= reqs[m - 1].at
      invariant m <= |reqs|
      invariant forall i :: m <= i < |reqs| ==> s <= reqs[i].at
    {
      m := m - 1;
    }
  }

  /** If a policy is not ahead before the window [s, t] and spends no more in it, it is not ahead after it. */
  lemma NotAheadAfterWindow(rate: Rate, t0: real, reqs: seq<Request>, d: seq<bool>, m: nat, s: real, t: real)
    requires |d| == |reqs| && m <= |reqs| && UnitRequests(reqs)
    requires forall i :: 0 <= i < m ==> reqs[i].at < s
    requires forall i :: m <= i < |reqs| ==> s <= reqs[i].at <= t
    requires |Chosen(reqs[..m], d[..m])| <= |AfterRequests(rate, t0, reqs[..m]).1|
    requires Spent(Chosen(reqs, d), s, t) <= Spent(AfterRequests(rate, t0, reqs).1, s, t)
    ensures |Chosen(reqs, d)| <= |AfterRequests(rate, t0, reqs).1|
  {
    ChosenSplits(reqs, d, m, s, t);
    var v := Verdicts(rate, t0, reqs);
    ChosenSplits(reqs, v, m, s, t);
    AfterChoosesVerdicts(rate, t0, reqs);
    AfterChoosesVerdicts(rate, t0, reqs[..m]);
    VerdictsOfPrefix(rate, t0, reqs, m);
  }

  /** The bucket is the most permissive policy: no choice of unit requests that keeps every window
      within its allowance ever gets ahead of it. */
  lemma {:induction false} NoPolicyGrantsMore(rate: Rate, t0: real, reqs: seq<Request>, d: seq<bool>)
    requires rate.Valid() && Monotone(t0, reqs) && UnitRequests(reqs)
    requires |d| == |reqs| && WithinEveryWindow(rate, Chosen(reqs, d))
    ensures |Chosen(reqs, d)| <= |AfterRequests(rate, t0, reqs).1|
    decreases |reqs|
  {
    if reqs == [] {
    } else {
      var k := |reqs| - 1;
      var q := reqs[k];
      assert reqs == reqs[..k] + [q];
      if Acquire(rate, AfterRequests(rate, t0, reqs[..k]).0, q.at, q.n).1 || !d[k] {
        ChosenPrefixStaysWithin(rate, reqs, d);
        NoPolicyGrantsMore(rate, t0, reqs[..k], d[..k]);
      } else {
        var s := RefusedRequestHasFullWindow(rate, t0, reqs[..k], q);
        assert Spent(Chosen(reqs, d), s, q.at) as real <= rate.Allowance(q.at - s);
        var m := CutBefore(t0, reqs, s);
        ChosenTakeStaysWithin(rate, reqs, d, m);
        NoPolicyGrantsMore(rate, t0, reqs[..m], d[..m]);
        NotAheadAfterWindow(rate, t0, reqs, d, m, s, q.at);
      }
    }
  }

  lemma RefusedRequestHasFullWindow(rate: Rate, t0: real, reqs: seq<Request>, q: Request) returns (s: real)
    requires rate.Valid() && Monotone(t0, reqs + [q])
    requires !Acquire(rate, AfterRequests(rate, t0, reqs).0, q.at, q.n).1
    ensures t0 <= s <= q.at
    ensures Spent(AfterRequests(rate, t0, reqs).1, s, q.at) as real + q.n as real > rate.Allowance(q.at - s)
  {
    GrantedIffWindowsAllow(rate, t0, reqs, q);
    var ledger := AfterRequests(rate, t0, reqs).1;
    s :| t0 <= s <= q.at && !(Spent(ledger, s, q.at) as real + q.n as real <= rate.Allowance(q.at - s));
  }

  lemma {:induction false} VerdictsOfPrefix(rate: Rate, t0: real, reqs: seq<Request>, m: nat)
    requires m <= |reqs|
    ensures Verdicts(rate, t0, reqs)[..m] == Verdicts(rate, t0, reqs[..m])
    decreases |reqs|
  {
    if m == |reqs| {
      assert reqs[..m] == reqs;
    } else {
      var k := |reqs| - 1;
      VerdictsOfPrefix(rate, t0, reqs[..k], m);
      assert reqs[..k][..m] == reqs[..m];
    }
  }
}
