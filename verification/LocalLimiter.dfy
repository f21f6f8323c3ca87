/** The two-tier limiter of rate_limit/limiter.py: one bucket per tenant, one per (tenant, session), as dictionaries of
    bucket objects and as values. */
module LocalLimiter {
  import opened Prelude
  import opened TokenBuckets

  datatype RateLimitConfig = RateLimitConfig(tenant: Rate, session: Rate)

  datatype Limits = Limits(default: RateLimitConfig, perTenant: map<string, RateLimitConfig>) {
    function For(tenant: string): RateLimitConfig {
      if tenant in perTenant then perTenant[tenant] else default
    }

    /** The configuration schema rejects a capacity or refill that is not positive. */
    ghost predicate Valid() {
      forall t :: For(t).tenant.Valid() && For(t).session.Valid()
    }
  }

  datatype Outcome = Granted | TenantLimited | SessionLimited

  type SessionKey = (string, string)

  /** The two dictionaries, with each bucket given by its value. */
  datatype Buckets = Buckets(tenants: map<string, Bucket>, sessions: map<SessionKey, Bucket>)

  const EMPTY := Buckets(map[], map[])

  datatype Call = Call(tenant: string, session: string, at: real)

  function Lookup<K>(m: map<K, Bucket>, k: K, rate: Rate, now: real): Bucket {
    if k in m then m[k] else Full(rate, now)
  }

  /** Take one token under `k`, creating the bucket full on first use. */
  function Take<K>(m: map<K, Bucket>, k: K, rate: Rate, now: real): (map<K, Bucket>, bool) {
    var (b, ok) := Acquire(rate, Lookup(m, k, rate, now), now, 1);
    (m[k := b], ok)
  }

  /** Inserting the bucket first makes no difference. */
  lemma TakeTwice<K>(m: map<K, Bucket>, k: K, rate: Rate, now: real)
    ensures Take(m[k := Lookup(m, k, rate, now)], k, rate, now) == Take(m, k, rate, now)
  {
    var m' := m[k := Lookup(m, k, rate, now)];
    assert m'[k := Acquire(rate, m'[k], now, 1).0] == m[k := Acquire(rate, m'[k], now, 1).0];
  }

  /** One acquire: a token from the tenant's bucket, then one from the session's. A session refusal
      leaves the tenant token spent. */
  function AcquireBoth(limits: Limits, st: Buckets, c: Call): (Buckets, Outcome) {
    var (tenants, okT) := Take(st.tenants, c.tenant, limits.For(c.tenant).tenant, c.at);
    if !okT then (Buckets(tenants, st.sessions), TenantLimited)
    else
      var (sessions, okS) := Take(st.sessions, (c.tenant, c.session), limits.For(c.tenant).session, c.at);
      (Buckets(tenants, sessions), if okS then Granted else SessionLimited)
  }

  class InProcessRateLimiter {
    const limits: Limits
    var tenantBuckets: map<string, TokenBucket>
    var sessionBuckets: map<SessionKey, TokenBucket>

    ghost function Repr(): set<TokenBucket>
      reads this
    {
      tenantBuckets.Values + sessionBuckets.Values
    }

    /** No bucket object serves two keys, and each has the rate its key is configured with. */
    ghost predicate Valid()
      reads this
    {
      && limits.Valid()
      && (forall t :: t in tenantBuckets ==> tenantBuckets[t].rate == limits.For(t).tenant)
      && (forall k :: k in sessionBuckets ==> sessionBuckets[k].rate == limits.For(k.0).session)
      && (forall t, u :: t in tenantBuckets && u in tenantBuckets && t != u ==> tenantBuckets[t] != tenantBuckets[u])
      && (forall k, l :: k in sessionBuckets && l in sessionBuckets && k != l ==>
            sessionBuckets[k] != sessionBuckets[l])
      && (forall t, k :: t in tenantBuckets && k in sessionBuckets ==> tenantBuckets[t] != sessionBuckets[k])
    }

    ghost function TenantValues(): map<string, Bucket>
      reads this, tenantBuckets.Values
    {
      map t | t in tenantBuckets :: tenantBuckets[t].Value()
    }

    ghost function SessionValues(): map<SessionKey, Bucket>
      reads this, sessionBuckets.Values
    {
      map k | k in sessionBuckets :: sessionBuckets[k].Value()
    }

    ghost function Value(): Buckets
      reads this, Repr()
    {
      Buckets(TenantValues(), SessionValues())
    }

    constructor (limits: Limits)
      requires limits.Valid()
      ensures this.limits == limits && Valid() && Value() == EMPTY && Repr() == {}
    {
      this.limits := limits;
      tenantBuckets := map[];
      sessionBuckets := map[];
    }

    method NewTenantBucket(tenant: string, now: real) returns (b: TokenBucket)
      requires Valid() && tenant !in tenantBuckets
      modifies this`tenantBuckets
      ensures Valid() && fresh(b) && tenantBuckets == old(tenantBuckets)[tenant := b]
      ensures Repr() <= old(Repr()) + {b}
      ensures SessionValues() == old(SessionValues())
      ensures b.Value() == Full(limits.For(tenant).tenant, now)
    {
      b := new TokenBucket.Start(limits.For(tenant).tenant, now);
      tenantBuckets := tenantBuckets[tenant := b];
    }

    /** `setdefault` on the tenant dictionary. */
    method TenantBucket(tenant: string, now: real) returns (b: TokenBucket)
      requires Valid()
      modifies this`tenantBuckets
      ensures Valid() && tenant in tenantBuckets && tenantBuckets[tenant] == b
      ensures fresh(Repr() - old(Repr()))
      ensures SessionValues() == old(SessionValues())
      ensures var was := old(TenantValues());
              TenantValues() == was[tenant := Lookup(was, tenant, limits.For(tenant).tenant, now)]
    {
      hide Valid, Full;
      if tenant in tenantBuckets {
        b := tenantBuckets[tenant];
        assert TenantValues()[tenant := TenantValues()[tenant]] == TenantValues();
      } else {
        b := NewTenantBucket(tenant, now);
        assert TenantValues() == old(TenantValues())[tenant := b.Value()];
      }
    }

    method NewSessionBucket(key: SessionKey, now: real) returns (b: TokenBucket)
      requires Valid() && key !in sessionBuckets
      modifies this`sessionBuckets
      ensures Valid() && fresh(b) && sessionBuckets == old(sessionBuckets)[key := b]
      ensures Repr() <= old(Repr()) + {b}
      ensures TenantValues() == old(TenantValues())
      ensures b.Value() == Full(limits.For(key.0).session, now)
    {
      b := new TokenBucket.Start(limits.For(key.0).session, now);
      sessionBuckets := sessionBuckets[key := b];
    }

    method SessionBucket(tenant: string, session: string, now: real) returns (b: TokenBucket)
      requires Valid()
      modifies this`sessionBuckets
      ensures Valid() && (tenant, session) in sessionBuckets && sessionBuckets[(tenant, session)] == b
      ensures fresh(Repr() - old(Repr()))
      ensures TenantValues() == old(TenantValues())
      ensures var key, was := (tenant, session), old(SessionValues());
              SessionValues() == was[key := Lookup(was, key, limits.For(tenant).session, now)]
    {
      hide Valid, Full;
      var key := (tenant, session);
      if key in sessionBuckets {
        b := sessionBuckets[key];
        assert SessionValues()[key := SessionValues()[key]] == SessionValues();
      } else {
        b := NewSessionBucket(key, now);
        assert SessionValues() == old(SessionValues())[key := b.Value()];
      }
    }

    method DrainTenant(b: TokenBucket, tenant: string, now: real) returns (ok: bool)
      requires Valid() && tenant in tenantBuckets && tenantBuckets[tenant] == b
      modifies b
      ensures Valid() && Repr() == old(Repr())
      ensures SessionValues() == old(SessionValues())
      ensures (TenantValues(), ok) == Take(old(TenantValues()), tenant, limits.For(tenant).tenant, now)
    {
      ok := b.TryAcquire(now);
      assert TenantValues() == old(TenantValues())[tenant := b.Value()];
    }

    method DrainSession(b: TokenBucket, tenant: string, session: string, now: real) returns (ok: bool)
      requires Valid() && (tenant, session) in sessionBuckets && sessionBuckets[(tenant, session)] == b
      modifies b
      ensures Valid() && Repr() == old(Repr())
      ensures TenantValues() == old(TenantValues())
      ensures (SessionValues(), ok) == Take(old(SessionValues()), (tenant, session), limits.For(tenant).session, now)
    {
      ok := b.TryAcquire(now);
      assert SessionValues() == old(SessionValues())[(tenant, session) := b.Value()];
    }

    method TakeTenantToken(tenant: string, now: real) returns (ok: bool)
      requires Valid()
      modifies this`tenantBuckets, Repr()
      ensures Valid() && fresh(Repr() - old(Repr()))
      ensures SessionValues() == old(SessionValues())
      ensures (TenantValues(), ok) == Take(old(TenantValues()), tenant, limits.For(tenant).tenant, now)
    {
      TakeTwice(TenantValues(), tenant, limits.For(tenant).tenant, now);
      var b := TenantBucket(tenant, now);
      ok := DrainTenant(b, tenant, now);
    }

    method TakeSessionToken(tenant: string, session: string, now: real) returns (ok: bool)
      requires Valid()
      modifies this`sessionBuckets, Repr()
      ensures Valid() && fresh(Repr() - old(Repr()))
      ensures TenantValues() == old(TenantValues())
      ensures (SessionValues(), ok) == Take(old(SessionValues()), (tenant, session), limits.For(tenant).session, now)
    {
      TakeTwice(SessionValues(), (tenant, session), limits.For(tenant).session, now);
      var b := SessionBucket(tenant, session, now);
      ok := DrainSession(b, tenant, session, now);
    }

    method AcquireToken(c: Call) returns (outcome: Outcome)
      requires Valid()
      modifies this, Repr()
      ensures Valid() && fresh(Repr() - old(Repr()))
      ensures (Value(), outcome) == AcquireBoth(limits, old(Value()), c)
    {
      hide Take;
      var okT := TakeTenantToken(c.tenant, c.at);
      if !okT {
        return TenantLimited;
      }
      var okS := TakeSessionToken(c.tenant, c.session, c.at);
      return if okS then Granted else SessionLimited;
    }
  }

  // ---------------------------------------------------------------- runs

  /** The outcomes of a run of calls. */
  function Outcomes(limits: Limits, st: Buckets, calls: seq<Call>): (r: seq<Outcome>)
    ensures |r| == |calls|
    decreases |calls|
  {
    if calls == [] then []
    else
      var (st', o) := AcquireBoth(limits, st, calls[0]);
      [o] + Outcomes(limits, st', calls[1..])
  }

  /** A tenant's own calls, in order. */
  function Only(calls: seq<Call>, tenant: string): seq<Call> {
    if calls == [] then []
    else (if calls[0].tenant == tenant then [calls[0]] else []) + Only(calls[1..], tenant)
  }

  /** What a tenant sees of the whole run's outcomes. */
  function Seen(calls: seq<Call>, outcomes: seq<Outcome>, tenant: string): seq<Outcome>
    requires |outcomes| == |calls|
  {
    if calls == [] then []
    else (if calls[0].tenant == tenant then [outcomes[0]] else []) + Seen(calls[1..], outcomes[1..], tenant)
  }

  /** Two states that serve `tenant` alike: a bucket missing on one side is absent or untouched and full
      on the other. */
  ghost predicate ServesAlike(limits: Limits, a: Buckets, b: Buckets, tenant: string) {
    && Alike(a.tenants, b.tenants, tenant, limits.For(tenant).tenant)
    && forall s: string :: Alike(a.sessions, b.sessions, (tenant, s), limits.For(tenant).session)
  }

  ghost predicate Alike<K>(m: map<K, Bucket>, n: map<K, Bucket>, k: K, rate: Rate) {
    if k in m && k in n then m[k] == n[k]
    else if k in m then m[k].tokens == rate.capacity as real
    else if k in n then n[k].tokens == rate.capacity as real
    else true
  }

  lemma TakeAlike<K>(m: map<K, Bucket>, n: map<K, Bucket>, k: K, rate: Rate, now: real)
    requires rate.Valid() && Alike(m, n, k, rate)
    ensures Take(m, k, rate, now).1 == Take(n, k, rate, now).1
    ensures Take(m, k, rate, now).0[k] == Take(n, k, rate, now).0[k]
  {
    if k !in m || k !in n {
      FullIsAgeless(rate, Lookup(m, k, rate, now), now, 1);
      FullIsAgeless(rate, Lookup(n, k, rate, now), now, 1);
    }
  }

  /** A call of the tenant itself has the same outcome on both sides and keeps them alike. */
  lemma CallKeepsAlike(limits: Limits, a: Buckets, b: Buckets, c: Call)
    requires limits.Valid() && ServesAlike(limits, a, b, c.tenant)
    ensures AcquireBoth(limits, a, c).1 == AcquireBoth(limits, b, c).1
    ensures ServesAlike(limits, AcquireBoth(limits, a, c).0, AcquireBoth(limits, b, c).0, c.tenant)
  {
    var cfg := limits.For(c.tenant);
    TakeAlike(a.tenants, b.tenants, c.tenant, cfg.tenant, c.at);
    TakeAlike(a.sessions, b.sessions, (c.tenant, c.session), cfg.session, c.at);
  }

  /** A call of another tenant leaves this one's side of the relation alone. */
  lemma ForeignCallKeepsAlike(limits: Limits, a: Buckets, b: Buckets, c: Call, tenant: string)
    requires ServesAlike(limits, a, b, tenant) && c.tenant != tenant
    ensures ServesAlike(limits, AcquireBoth(limits, a, c).0, b, tenant)
  {
    var a' := AcquireBoth(limits, a, c).0;
    forall s: string
      ensures Alike(a'.sessions, b.sessions, (tenant, s), limits.For(tenant).session)
    {
      assert Alike(a.sessions, b.sessions, (tenant, s), limits.For(tenant).session);
    }
  }

  /** What a tenant sees of any interleaved run is what it would see alone, even when the second run
      starts from buckets created full in advance. */
  lemma {:induction false} SeesOnlyItsOwn(limits: Limits, a: Buckets, b: Buckets, calls: seq<Call>, tenant: string)
    requires limits.Valid() && ServesAlike(limits, a, b, tenant)
    ensures Seen(calls, Outcomes(limits, a, calls), tenant) == Outcomes(limits, b, Only(calls, tenant))
    decreases |calls|
  {
    if calls == [] {
    } else {
      var c := calls[0];
      var a' := AcquireBoth(limits, a, c).0;
      assert Outcomes(limits, a, calls)[1..] == Outcomes(limits, a', calls[1..]);
      if c.tenant == tenant {
        CallKeepsAlike(limits, a, b, c);
        var b' := AcquireBoth(limits, b, c).0;
        SeesOnlyItsOwn(limits, a', b', calls[1..], tenant);
        assert Only(calls, tenant)[1..] == Only(calls[1..], tenant);
      } else {
        ForeignCallKeepsAlike(limits, a, b, c, tenant);
        SeesOnlyItsOwn(limits, a', b, calls[1..], tenant);
        assert Only(calls, tenant) == Only(calls[1..], tenant);
      }
    }
  }

  /** Tenants do not interfere. */
  lemma TenantNonInterference(limits: Limits, calls: seq<Call>, tenant: string)
    requires limits.Valid()
    ensures Seen(calls, Outcomes(limits, EMPTY, calls), tenant) == Outcomes(limits, EMPTY, Only(calls, tenant))
  {
    SeesOnlyItsOwn(limits, EMPTY, EMPTY, calls, tenant);
  }

  /** Every bucket present is full. */
  ghost predicate Prefilled(limits: Limits, st: Buckets) {
    && (forall t :: t in st.tenants ==> st.tenants[t].tokens == limits.For(t).tenant.capacity as real)
    && (forall k :: k in st.sessions ==> st.sessions[k].tokens == limits.For(k.0).session.capacity as real)
  }

  ghost predicate AllAlike(limits: Limits, a: Buckets, b: Buckets) {
    && (forall t: string :: Alike(a.tenants, b.tenants, t, limits.For(t).tenant))
    && (forall k: SessionKey :: Alike(a.sessions, b.sessions, k, limits.For(k.0).session))
  }

  lemma CallKeepsAllAlike(limits: Limits, a: Buckets, b: Buckets, c: Call)
    requires limits.Valid() && AllAlike(limits, a, b)
    ensures AcquireBoth(limits, a, c).1 == AcquireBoth(limits, b, c).1
    ensures AllAlike(limits, AcquireBoth(limits, a, c).0, AcquireBoth(limits, b, c).0)
  {
    hide Acquire;
    CallKeepsAlike(limits, a, b, c);
    var a', b' := AcquireBoth(limits, a, c).0, AcquireBoth(limits, b, c).0;
    forall t: string
      ensures Alike(a'.tenants, b'.tenants, t, limits.For(t).tenant)
    {
      assert Alike(a.tenants, b.tenants, t, limits.For(t).tenant);
    }
    forall k: SessionKey
      ensures Alike(a'.sessions, b'.sessions, k, limits.For(k.0).session)
    {
      assert Alike(a.sessions, b.sessions, k, limits.For(k.0).session);
      if k.0 == c.tenant {
        assert k == (c.tenant, k.1);
      }
    }
  }

  lemma {:induction false} AlikeRunsAgree(limits: Limits, a: Buckets, b: Buckets, calls: seq<Call>)
    requires limits.Valid() && AllAlike(limits, a, b)
    ensures Outcomes(limits, a, calls) == Outcomes(limits, b, calls)
    decreases |calls|
  {
    if calls == [] {
    } else {
      hide AcquireBoth, AllAlike;
      var c := calls[0];
      CallKeepsAllAlike(limits, a, b, c);
      AlikeRunsAgree(limits, AcquireBoth(limits, a, c).0, AcquireBoth(limits, b, c).0, calls[1..]);
    }
  }

  /** Creating buckets on first use gives the outcomes of creating any of them full at any earlier time. */
  lemma LazyCreationIsInvisible(limits: Limits, prefilled: Buckets, calls: seq<Call>)
    requires limits.Valid() && Prefilled(limits, prefilled)
    ensures Outcomes(limits, EMPTY, calls) == Outcomes(limits, prefilled, calls)
  {
    AlikeRunsAgree(limits, EMPTY, prefilled, calls);
  }

  /** What a limiter's state knows about the tokens `tenant` has been given. */
  ghost predicate TenantAccounts(limits: Limits, st: Buckets, tenant: string, log: seq<Request>, now: real) {
    if tenant in st.tenants then
      Accounts(limits.For(tenant).tenant, st.tenants[tenant], log) && st.tenants[tenant].last <= now
    else
      log == []
  }

  /** One call keeps every tenant's account; its own tenant is charged unless its bucket refused. */
  lemma CallAccounts(limits: Limits, st: Buckets, c: Call, tenant: string, log: seq<Request>)
    requires limits.Valid() && TenantAccounts(limits, st, tenant, log, c.at)
    ensures var (st', o) := AcquireBoth(limits, st, c);
            TenantAccounts(limits, st', tenant,
              if c.tenant == tenant && o != TenantLimited then log + [Request(c.at, 1)] else log, c.at)
  {
    if c.tenant == tenant {
      var rate := limits.For(tenant).tenant;
      if tenant in st.tenants {
        AcquireAccounts(rate, st.tenants[tenant], log, c.at, 1);
      } else {
        NothingSpentYet(rate, Full(rate, c.at));
        AcquireAccounts(rate, Full(rate, c.at), [], c.at, 1);
      }
    }
  }
}
