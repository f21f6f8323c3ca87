/** What the two-tier limiter grants, told by its windows. */
module LimiterWindows {
  import opened Prelude
  import opened TokenBuckets
  import opened LocalLimiter

  // ---------------------------------------------------------------- the tokens a run has cost

  /** The tokens taken from a tenant's bucket: its calls that its bucket did not refuse. */
  function TenantLog(calls: seq<Call>, outcomes: seq<Outcome>, tenant: string): seq<Request>
    requires |outcomes| == |calls|
  {
    if calls == [] then []
    else
      var m := |calls| - 1;
      var log := TenantLog(calls[..m], outcomes[..m], tenant);
      if calls[m].tenant == tenant && outcomes[m] != TenantLimited then log + [Request(calls[m].at, 1)] else log
  }

  /** The tokens taken from a session's bucket: its calls that were granted. */
  function SessionLog(calls: seq<Call>, outcomes: seq<Outcome>, key: SessionKey): seq<Request>
    requires |outcomes| == |calls|
  {
    if calls == [] then []
    else
      var m := |calls| - 1;
      var log := SessionLog(calls[..m], outcomes[..m], key);
      if (calls[m].tenant, calls[m].session) == key && outcomes[m] == Granted
      then log + [Request(calls[m].at, 1)] else log
  }

  /** One token more keeps every window that ends now within its allowance. */
  ghost predicate Room(rate: Rate, log: seq<Request>, now: real) {
    forall s :: s <= now ==> Spent(log, s, now) as real + 1.0 <= rate.Allowance(now - s)
  }

  /** The answer that the windows of both tiers ask for. */
  ghost function Due(limits: Limits, calls: seq<Call>, outcomes: seq<Outcome>, c: Call): Outcome
    requires |outcomes| == |calls|
  {
    if !Room(limits.For(c.tenant).tenant, TenantLog(calls, outcomes, c.tenant), c.at) then TenantLimited
    else if !Room(limits.For(c.tenant).session, SessionLog(calls, outcomes, (c.tenant, c.session)), c.at)
    then SessionLimited
    else Granted
  }

  // ---------------------------------------------------------------- one bucket

  /** The log accounts for the bucket, and some window has exactly the bucket's tokens left. */
  ghost predicate Explains(rate: Rate, b: Bucket, log: seq<Request>) {
    Accounts(rate, b, log) && exists t0 :: Exhausts(rate, b, log, t0)
  }

  lemma BucketDecides(rate: Rate, b: Bucket, log: seq<Request>, now: real)
    requires rate.Valid() && Explains(rate, b, log) && b.last <= now
    ensures var (b', ok) := Acquire(rate, b, now, 1);
            (ok <==> Room(rate, log, now)) && Explains(rate, b', if ok then log + [Request(now, 1)] else log)
  {
    hide Accounts, Exhausts, Acquire, Spent;
    var t0 :| Exhausts(rate, b, log, t0);
    AcquireAccounts(rate, b, log, now, 1);
    AcquireExhausts(rate, b, log, t0, now, 1);
    if Acquire(rate, b, now, 1).1 {
      forall s | s <= now
        ensures Spent(log, s, now) as real + 1.0 <= rate.Allowance(now - s)
      {
        GrantKeepsWindows(rate, b, log, s, now, 1);
      }
    } else {
      var s := RefusalHasWitness(rate, b, log, t0, now, 1);
    }
  }

  lemma FullExplains(rate: Rate, now: real)
    requires rate.Valid()
    ensures Explains(rate, Full(rate, now), [])
  {
    NothingSpentYet(rate, Full(rate, now));
    AllowanceGrows(rate, 0.0, 0.0);
    assert Spent([], now, now) as real + Full(rate, now).tokens == rate.Allowance(now - now);
    assert Exhausts(rate, Full(rate, now), [], now);
  }

  /** What a dictionary of buckets knows about the tokens taken under one key. */
  ghost predicate Knows<K>(m: map<K, Bucket>, k: K, rate: Rate, log: seq<Request>, now: real) {
    if k in m then Explains(rate, m[k], log) && m[k].last <= now else log == []
  }

  lemma TakeDecides<K>(m: map<K, Bucket>, k: K, rate: Rate, log: seq<Request>, now: real)
    requires rate.Valid() && Knows(m, k, rate, log, now)
    ensures var (m', ok) := Take(m, k, rate, now);
            && (ok <==> Room(rate, log, now))
            && Knows(m', k, rate, if ok then log + [Request(now, 1)] else log, now)
            && forall l :: l != k ==> (l in m' <==> l in m) && (l in m ==> m'[l] == m[l])
  {
    hide Explains, Room;
    FullExplains(rate, now);
    BucketDecides(rate, Lookup(m, k, rate, now), log, now);
  }

  // ---------------------------------------------------------------- whole runs

  /** The clock never goes back. */
  predicate InTime(calls: seq<Call>) {
    forall i, j :: 0 <= i < j < |calls| ==> calls[i].at <= calls[j].at
  }

  /** The state after a run of calls. */
  function Ran(limits: Limits, st: Buckets, calls: seq<Call>): Buckets
    decreases |calls|
  {
    if calls == [] then st else Ran(limits, AcquireBoth(limits, st, calls[0]).0, calls[1..])
  }

  lemma {:induction false} RanNext(limits: Limits, st: Buckets, calls: seq<Call>, c: Call)
    ensures Ran(limits, st, calls + [c]) == AcquireBoth(limits, Ran(limits, st, calls), c).0
    ensures Outcomes(limits, st, calls + [c])
         == Outcomes(limits, st, calls) + [AcquireBoth(limits, Ran(limits, st, calls), c).1]
    decreases |calls|
  {
    hide AcquireBoth;
    if calls == [] {
      assert ([] + [c])[1..] == [];
    } else {
      assert (calls + [c])[1..] == calls[1..] + [c];
      RanNext(limits, AcquireBoth(limits, st, calls[0]).0, calls[1..], c);
    }
  }

  /** The buckets know what the run has cost. */
  ghost predicate AllKnown(limits: Limits, st: Buckets, calls: seq<Call>, outcomes: seq<Outcome>, now: real)
    requires |outcomes| == |calls|
  {
    && (forall t: string :: Knows(st.tenants, t, limits.For(t).tenant, TenantLog(calls, outcomes, t), now))
    && (forall k: SessionKey :: Knows(st.sessions, k, limits.For(k.0).session, SessionLog(calls, outcomes, k), now))
  }

  lemma KnowsLater<K>(m: map<K, Bucket>, k: K, rate: Rate, log: seq<Request>, now: real, later: real)
    requires Knows(m, k, rate, log, now) && now <= later
    ensures Knows(m, k, rate, log, later)
  {
  }

  lemma LogsNext(calls: seq<Call>, outcomes: seq<Outcome>, c: Call, o: Outcome, t: string, k: SessionKey)
    requires |outcomes| == |calls|
    ensures var log := TenantLog(calls, outcomes, t);
            TenantLog(calls + [c], outcomes + [o], t)
            == if c.tenant == t && o != TenantLimited then log + [Request(c.at, 1)] else log
    ensures var log := SessionLog(calls, outcomes, k);
            SessionLog(calls + [c], outcomes + [o], k)
            == if (c.tenant, c.session) == k && o == Granted then log + [Request(c.at, 1)] else log
  {
    assert (calls + [c])[..|calls|] == calls && (outcomes + [o])[..|outcomes|] == outcomes;
  }

  /** One call: answered as due, and the buckets still know. */
  lemma CallDecides(limits: Limits, st: Buckets, calls: seq<Call>, outcomes: seq<Outcome>, c: Call)
    requires limits.Valid() && |outcomes| == |calls| && AllKnown(limits, st, calls, outcomes, c.at)
    ensures var (st', o) := AcquireBoth(limits, st, c);
            o == Due(limits, calls, outcomes, c) && AllKnown(limits, st', calls + [c], outcomes + [o], c.at)
  {
    hide Take, Knows, Room, TenantLog, SessionLog;
    var (st', o) := AcquireBoth(limits, st, c);
    var key := (c.tenant, c.session);
    TakeDecides(st.tenants, c.tenant, limits.For(c.tenant).tenant, TenantLog(calls, outcomes, c.tenant), c.at);
    TakeDecides(st.sessions, key, limits.For(c.tenant).session, SessionLog(calls, outcomes, key), c.at);
    forall t: string
      ensures Knows(st'.tenants, t, limits.For(t).tenant, TenantLog(calls + [c], outcomes + [o], t), c.at)
    {
      LogsNext(calls, outcomes, c, o, t, key);
      OtherKnows(st.tenants, st'.tenants, t, c.tenant, limits.For(t).tenant, TenantLog(calls, outcomes, t), c.at);
    }
    forall k: SessionKey
      ensures Knows(st'.sessions, k, limits.For(k.0).session, SessionLog(calls + [c], outcomes + [o], k), c.at)
    {
      LogsNext(calls, outcomes, c, o, c.tenant, k);
      if o != TenantLimited {
        OtherKnows(st.sessions, st'.sessions, k, key, limits.For(k.0).session, SessionLog(calls, outcomes, k), c.at);
      }
    }
  }

  lemma OtherKnows<K>(m: map<K, Bucket>, m': map<K, Bucket>, k: K, taken: K, rate: Rate, log: seq<Request>, now: real)
    requires Knows(m, k, rate, log, now)
    requires forall l :: l != taken ==> (l in m' <==> l in m) && (l in m ==> m'[l] == m[l])
    ensures k != taken ==> Knows(m', k, rate, log, now)
  {
  }

  lemma {:induction false} RunKnows(limits: Limits, calls: seq<Call>, now: real)
    requires limits.Valid() && InTime(calls) && forall i :: 0 <= i < |calls| ==> calls[i].at <= now
    ensures AllKnown(limits, Ran(limits, EMPTY, calls), calls, Outcomes(limits, EMPTY, calls), now)
  {
    hide AcquireBoth, Knows, TenantLog, SessionLog;
    if calls == [] {
      NothingKnown(limits, now);
    } else {
      var m := |calls| - 1;
      var front, c := calls[..m], calls[m];
      assert calls == front + [c];
      RunKnows(limits, front, c.at);
      RanNext(limits, EMPTY, front, c);
      CallDecides(limits, Ran(limits, EMPTY, front), front, Outcomes(limits, EMPTY, front), c);
      AllKnownLater(limits, Ran(limits, EMPTY, calls), calls, Outcomes(limits, EMPTY, calls), c.at, now);
    }
  }

  lemma NothingKnown(limits: Limits, now: real)
    ensures AllKnown(limits, Ran(limits, EMPTY, []), [], Outcomes(limits, EMPTY, []), now)
  {
  }

  lemma AllKnownLater(limits: Limits, st: Buckets, calls: seq<Call>, outcomes: seq<Outcome>, now: real, later: real)
    requires |outcomes| == |calls| && AllKnown(limits, st, calls, outcomes, now) && now <= later
    ensures AllKnown(limits, st, calls, outcomes, later)
  {
    hide Knows, TenantLog, SessionLog;
    forall t: string
      ensures Knows(st.tenants, t, limits.For(t).tenant, TenantLog(calls, outcomes, t), later)
    {
      KnowsLater(st.tenants, t, limits.For(t).tenant, TenantLog(calls, outcomes, t), now, later);
    }
    forall k: SessionKey
      ensures Knows(st.sessions, k, limits.For(k.0).session, SessionLog(calls, outcomes, k), later)
    {
      KnowsLater(st.sessions, k, limits.For(k.0).session, SessionLog(calls, outcomes, k), now, later);
    }
  }

  /** Over every run with a clock that never goes back: a call is refused by its tenant's tier iff some window of the
      tenant ending now has no room, by its session's tier iff only some window of the session has none, and granted iff
      all windows of both have. A refusal by the session leaves the tenant's token spent. */
  lemma AnsweredAsDue(limits: Limits, calls: seq<Call>, i: nat)
    requires limits.Valid() && InTime(calls) && i < |calls|
    ensures var outcomes := Outcomes(limits, EMPTY, calls);
            outcomes[i] == Due(limits, calls[..i], outcomes[..i], calls[i])
  {
    hide AcquireBoth, Due, AllKnown;
    var front, c := calls[..i], calls[i];
    RunKnows(limits, front, c.at);
    RanNext(limits, EMPTY, front, c);
    CallDecides(limits, Ran(limits, EMPTY, front), front, Outcomes(limits, EMPTY, front), c);
    assert calls[..i + 1] == front + [c];
    OutcomesOfPrefix(limits, EMPTY, calls, i);
    OutcomesOfPrefix(limits, EMPTY, calls, i + 1);
  }

  lemma {:induction false} OutcomesOfPrefix(limits: Limits, st: Buckets, calls: seq<Call>, i: nat)
    requires i <= |calls|
    ensures Outcomes(limits, st, calls[..i]) == Outcomes(limits, st, calls)[..i]
    decreases |calls|
  {
    hide AcquireBoth;
    if i > 0 {
      assert calls[..i][1..] == calls[1..][..i - 1];
      OutcomesOfPrefix(limits, AcquireBoth(limits, st, calls[0]).0, calls[1..], i - 1);
    }
  }

  /** The calls of one session that are granted in [s, t] number at most c + r * (t - s) of the session's rate. */
  lemma SessionWindowBound(limits: Limits, calls: seq<Call>, key: SessionKey, s: real, t: real)
    requires limits.Valid() && InTime(calls) && s <= t
    ensures Spent(SessionLog(calls, Outcomes(limits, EMPTY, calls), key), s, t) as real
         <= limits.For(key.0).session.Allowance(t - s)
  {
    hide SessionLog, TenantLog;
    RunKnows(limits, calls, if calls == [] then 0.0 else calls[|calls| - 1].at);
    NothingSpentYet(limits.For(key.0).session, Full(limits.For(key.0).session, 0.0));
    assert Knows(Ran(limits, EMPTY, calls).sessions, key, limits.For(key.0).session,
                 SessionLog(calls, Outcomes(limits, EMPTY, calls), key),
                 if calls == [] then 0.0 else calls[|calls| - 1].at);
  }

  /** The same for a tenant, counting also the calls that only their session refused. */
  lemma TenantWindowBound(limits: Limits, calls: seq<Call>, tenant: string, s: real, t: real)
    requires limits.Valid() && InTime(calls) && s <= t
    ensures Spent(TenantLog(calls, Outcomes(limits, EMPTY, calls), tenant), s, t) as real
         <= limits.For(tenant).tenant.Allowance(t - s)
  {
    hide SessionLog, TenantLog;
    RunKnows(limits, calls, if calls == [] then 0.0 else calls[|calls| - 1].at);
    NothingSpentYet(limits.For(tenant).tenant, Full(limits.For(tenant).tenant, 0.0));
    assert Knows(Ran(limits, EMPTY, calls).tenants, tenant, limits.For(tenant).tenant,
                 TenantLog(calls, Outcomes(limits, EMPTY, calls), tenant),
                 if calls == [] then 0.0 else calls[|calls| - 1].at);
  }

  /** The other sessions of a tenant matter to a call only through the tokens they took from the tenant's bucket. */
  lemma SessionsMeetInTheTenant(limits: Limits, a: seq<Call>, b: seq<Call>, c: Call)
    requires limits.Valid() && InTime(a + [c]) && InTime(b + [c])
    requires TenantLog(a, Outcomes(limits, EMPTY, a), c.tenant) == TenantLog(b, Outcomes(limits, EMPTY, b), c.tenant)
    requires SessionLog(a, Outcomes(limits, EMPTY, a), (c.tenant, c.session))
          == SessionLog(b, Outcomes(limits, EMPTY, b), (c.tenant, c.session))
    ensures Outcomes(limits, EMPTY, a + [c])[|a|] == Outcomes(limits, EMPTY, b + [c])[|b|]
  {
    hide TenantLog, SessionLog, Room, Outcomes, InTime;
    AnsweredAsDue(limits, a + [c], |a|);
    AnsweredAsDue(limits, b + [c], |b|);
    assert (a + [c])[..|a|] == a && (b + [c])[..|b|] == b;
    OutcomesOfPrefix(limits, EMPTY, a + [c], |a|);
    OutcomesOfPrefix(limits, EMPTY, b + [c], |b|);
  }
}
