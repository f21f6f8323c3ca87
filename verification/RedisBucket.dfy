/** The shared bucket: rate_limit/lua/token_bucket.lua, the key's time to live, and the key names. */
module RedisBucket {
  import opened Prelude
  import opened TokenBuckets
  import opened LocalLimiter

  /** The hash stored under a bucket key. */
  datatype Hash = Hash(tokens: real, lastMs: int)

  function Seconds(ms: int): real {
    ms as real / 1000.0
  }

  function Refilled(rate: Rate, h: Hash, nowMs: int): real {
    var elapsed := Seconds(nowMs - h.lastMs);
    var credited := if elapsed < 0.0 then 0.0 else elapsed;
    MinReal(rate.capacity as real, h.tokens + credited * rate.refill)
  }

  /** The script: refill, then consume or refuse. Both write the refilled hash back. */
  function Script(rate: Rate, stored: Option<Hash>, nowMs: int, n: int): (Hash, bool) {
    var h := if stored.Some? then stored.value else Hash(rate.capacity as real, nowMs);
    var refilled := Refilled(rate, h, nowMs);
    if refilled < n as real then (Hash(refilled, nowMs), false)
    else (Hash(refilled - n as real, nowMs), true)
  }

  /** The bucket a hash stands for. */
  function AsBucket(h: Hash): Bucket {
    Bucket(h.tokens, Seconds(h.lastMs))
  }

  lemma SecondsDifference(a: int, b: int)
    ensures Seconds(a - b) == Seconds(a) - Seconds(b)
    ensures a <= b ==> Seconds(a) <= Seconds(b)
    ensures a < b ==> Seconds(a) < Seconds(b)
  {
  }

  lemma RefillMatches(rate: Rate, h: Hash, nowMs: int)
    requires rate.Valid() && InRange(rate, AsBucket(h))
    ensures Refilled(rate, h, nowMs) == Refresh(rate, AsBucket(h), Seconds(nowMs)).tokens
  {
    SecondsDifference(nowMs, h.lastMs);
    var elapsed := Seconds(nowMs) - Seconds(h.lastMs);
    assert elapsed == Seconds(nowMs - h.lastMs);
    assert elapsed * rate.refill == Seconds(nowMs - h.lastMs) * rate.refill;
    assert 0.0 * rate.refill == 0.0;
  }

  lemma RefillStaysInRange(rate: Rate, h: Hash, nowMs: int)
    requires rate.Valid() && InRange(rate, AsBucket(h))
    ensures 0.0 <= Refilled(rate, h, nowMs) <= rate.capacity as real
  {
    var credited := if Seconds(nowMs - h.lastMs) < 0.0 then 0.0 else Seconds(nowMs - h.lastMs);
    MulNonNegative(credited, rate.refill);
    ClampBounds(h.tokens, credited * rate.refill, rate.capacity as real);
  }

  /** The script agrees with the in-process bucket at every clock reading, regressing ones included. */
  lemma ScriptMatchesBucket(rate: Rate, h: Hash, nowMs: int, n: int)
    requires rate.Valid() && InRange(rate, AsBucket(h))
    ensures var (h', ok) := Script(rate, Some(h), nowMs, n);
            (AsBucket(h'), ok) == Acquire(rate, AsBucket(h), Seconds(nowMs), n)
  {
    RefillMatches(rate, h, nowMs);
  }

  /** A missing key behaves as a full bucket. */
  lemma MissingKeyIsFull(rate: Rate, nowMs: int, n: int)
    requires rate.Valid()
    ensures var (h', ok) := Script(rate, None, nowMs, n);
            (AsBucket(h'), ok) == Acquire(rate, Full(rate, Seconds(nowMs)), Seconds(nowMs), n)
  {
    RefillMatches(rate, Hash(rate.capacity as real, nowMs), nowMs);
  }

  lemma ScriptStaysInRange(rate: Rate, stored: Option<Hash>, nowMs: int, n: nat)
    requires rate.Valid() && (stored.Some? ==> InRange(rate, AsBucket(stored.value)))
    ensures InRange(rate, AsBucket(Script(rate, stored, nowMs, n).0))
  {
    RefillStaysInRange(rate, if stored.Some? then stored.value else Hash(rate.capacity as real, nowMs), nowMs);
  }

  // ---------------------------------------------------------------- time to live

  function Ceil(x: real): int {
    -((-x).Floor)
  }

  /** `_ttl_for`: twice the longer refill window, rounded up, and at least a minute. */
  function TtlFor(cfg: RateLimitConfig): int
    requires cfg.tenant.Valid() && cfg.session.Valid()
  {
    var t := cfg.tenant.capacity as real / cfg.tenant.refill;
    var s := cfg.session.capacity as real / cfg.session.refill;
    Max(Ceil(2.0 * if t >= s then t else s), 60)
  }

  /** An empty bucket refills within `ms` milliseconds. */
  ghost predicate RefillsWithin(rate: Rate, ms: int) {
    rate.capacity as real <= Seconds(ms) * rate.refill
  }

  lemma WindowIsCovered(rate: Rate, ms: int)
    requires rate.Valid() && rate.capacity as real / rate.refill <= Seconds(ms)
    ensures RefillsWithin(rate, ms)
  {
    var w := rate.capacity as real / rate.refill;
    assert w * rate.refill == rate.capacity as real;
    MulMonotone(rate.refill, w, Seconds(ms));
    assert rate.refill * w == w * rate.refill && rate.refill * Seconds(ms) == Seconds(ms) * rate.refill;
  }

  lemma LongerCovers(rate: Rate, a: int, b: int)
    requires rate.Valid() && RefillsWithin(rate, a) && a <= b
    ensures RefillsWithin(rate, b)
  {
    MulMonotone(rate.refill, Seconds(a), Seconds(b));
    assert rate.refill * Seconds(a) == Seconds(a) * rate.refill && rate.refill * Seconds(b) == Seconds(b) * rate.refill;
  }

  /** Half the time to live, in milliseconds. */
  function HalfTtl(cfg: RateLimitConfig): int
    requires cfg.tenant.Valid() && cfg.session.Valid()
  {
    500 * TtlFor(cfg)
  }

  /** Half the time to live is enough to refill either bucket, and at least half a minute. */
  lemma TtlCoversBothBuckets(cfg: RateLimitConfig)
    requires cfg.tenant.Valid() && cfg.session.Valid()
    ensures RefillsWithin(cfg.tenant, HalfTtl(cfg)) && RefillsWithin(cfg.session, HalfTtl(cfg))
    ensures TtlFor(cfg) >= 60 && HalfTtl(cfg) >= 30000
  {
    var t := cfg.tenant.capacity as real / cfg.tenant.refill;
    var s := cfg.session.capacity as real / cfg.session.refill;
    assert t >= 0.0 && s >= 0.0;
    var longest := if t >= s then t else s;
    assert 2.0 * longest <= TtlFor(cfg) as real;
    assert Seconds(HalfTtl(cfg)) == TtlFor(cfg) as real / 2.0;
    WindowIsCovered(cfg.tenant, HalfTtl(cfg));
    WindowIsCovered(cfg.session, HalfTtl(cfg));
  }

  /** A key with its expiry, which every call pushes to `ttl` seconds after the script runs. */
  datatype Key = Key(hash: Hash, expiresAtMs: int)

  /** The script runs at `ranAt` with the clock reading its caller took before sending it. `gone` says that Redis no
      longer has the key; it may have dropped it at any moment from its expiry on. */
  datatype Access = Access(ranAt: int, reading: int, n: nat, gone: bool)

  ghost predicate Plausible(key: Option<Key>, a: Access) {
    a.reading <= a.ranAt && (key.Some? && a.gone ==> key.value.expiresAtMs <= a.ranAt)
  }

  function Visible(key: Option<Key>, a: Access): Option<Hash> {
    if key.Some? && !a.gone then Some(key.value.hash) else None
  }

  function Touch(rate: Rate, ttl: int, key: Option<Key>, a: Access): (Key, bool) {
    var (h, ok) := Script(rate, Visible(key, a), a.reading, a.n);
    (Key(h, a.ranAt + 1000 * ttl), ok)
  }

  /** Consistency of a stored key: its last reading is no later than the moment its script ran. */
  ghost predicate Sane(rate: Rate, ttl: int, key: Option<Key>) {
    key.Some? ==> InRange(rate, AsBucket(key.value.hash)) && key.value.hash.lastMs + 1000 * ttl <= key.value.expiresAtMs
  }

  lemma RefillTakesTime(rate: Rate, ms: int)
    requires rate.Valid() && RefillsWithin(rate, ms)
    ensures ms > 0
  {
    assert Seconds(0) == 0.0 && 0.0 * rate.refill == 0.0;
    if ms <= 0 {
      LongerCovers(rate, ms, 0);
    }
  }

  lemma FullAfter(rate: Rate, h: Hash, reading: int, ms: int)
    requires rate.Valid() && InRange(rate, AsBucket(h)) && RefillsWithin(rate, ms) && ms <= reading - h.lastMs
    ensures Refilled(rate, h, reading) == rate.capacity as real
  {
    var elapsed := Seconds(reading - h.lastMs);
    RefillTakesTime(rate, ms);
    LongerCovers(rate, ms, reading - h.lastMs);
    assert Refilled(rate, h, reading) == MinReal(rate.capacity as real, h.tokens + elapsed * rate.refill);
  }

  /** When a key may be gone its bucket would have refilled by the caller's own clock, as long as the script did not
      lag too far behind its reading; so the script cannot tell. */
  lemma ExpiredKeyWouldBeFull(rate: Rate, ttl: int, key: Key, a: Access, lag: int)
    requires rate.Valid() && Sane(rate, ttl, Some(key)) && key.expiresAtMs <= a.ranAt
    requires a.ranAt - a.reading <= lag && RefillsWithin(rate, 1000 * ttl - lag)
    ensures Script(rate, Some(key.hash), a.reading, a.n) == Script(rate, None, a.reading, a.n)
  {
    FullAfter(rate, key.hash, a.reading, 1000 * ttl - lag);
    assert 0.0 * rate.refill == 0.0;
  }

  lemma TouchIgnoresExpiry(rate: Rate, ttl: int, key: Option<Key>, a: Access, lag: int)
    requires rate.Valid() && Sane(rate, ttl, key) && Plausible(key, a)
    requires a.ranAt - a.reading <= lag && RefillsWithin(rate, 1000 * ttl - lag)
    ensures Touch(rate, ttl, key, a) == Touch(rate, ttl, key, a.(gone := false))
    ensures Sane(rate, ttl, Some(Touch(rate, ttl, key, a).0))
  {
    if key.Some? && a.gone {
      ExpiredKeyWouldBeFull(rate, ttl, key.value, a, lag);
    }
    ScriptStaysInRange(rate, Visible(key, a), a.reading, a.n);
  }

  /** The replies of a run of calls on one key. */
  function Replies(rate: Rate, ttl: int, key: Option<Key>, run: seq<Access>): seq<bool>
    decreases |run|
  {
    if run == [] then []
    else
      var (key', ok) := Touch(rate, ttl, key, run[0]);
      [ok] + Replies(rate, ttl, Some(key'), run[1..])
  }

  /** Expiry only strikes a key whose time has come. */
  ghost predicate PlausibleRun(rate: Rate, ttl: int, key: Option<Key>, run: seq<Access>)
    decreases |run|
  {
    run != [] ==> Plausible(key, run[0]) && PlausibleRun(rate, ttl, Some(Touch(rate, ttl, key, run[0]).0), run[1..])
  }

  function NeverGone(run: seq<Access>): (r: seq<Access>)
    ensures |r| == |run| && forall i :: 0 <= i < |run| ==> r[i] == run[i].(gone := false)
  {
    seq(|run|, i requires 0 <= i < |run| => run[i].(gone := false))
  }

  /** No script runs more than `lag` milliseconds after its reading was taken. */
  ghost predicate LagsAtMost(run: seq<Access>, lag: int) {
    forall i :: 0 <= i < |run| ==> run[i].ranAt - run[i].reading <= lag
  }

  /** Whenever the keys disappear, the replies are those of keys that never do; the readings may come in any order. */
  lemma {:induction false} ExpiryIsInvisible(rate: Rate, ttl: int, key: Option<Key>, run: seq<Access>, lag: int)
    requires rate.Valid() && RefillsWithin(rate, 1000 * ttl - lag) && LagsAtMost(run, lag)
    requires Sane(rate, ttl, key) && PlausibleRun(rate, ttl, key, run)
    ensures Replies(rate, ttl, key, run) == Replies(rate, ttl, key, NeverGone(run))
    decreases |run|
  {
    if run == [] {
    } else {
      TouchIgnoresExpiry(rate, ttl, key, run[0], lag);
      ExpiryIsInvisible(rate, ttl, Some(Touch(rate, ttl, key, run[0]).0), run[1..], lag);
      assert NeverGone(run)[1..] == NeverGone(run[1..]);
    }
  }

  /** Expiry cannot be noticed in any run whose scripts lag at most `lag`. */
  ghost predicate ExpiryHidden(rate: Rate, ttl: int, lag: int) {
    forall run :: LagsAtMost(run, lag) && PlausibleRun(rate, ttl, None, run)
      ==> Replies(rate, ttl, None, run) == Replies(rate, ttl, None, NeverGone(run))
  }

  /** The run that notices: drain the bucket, then come back when the key is gone, with a reading that lags. */
  function LateReturn(rate: Rate, ttl: int, lag: int): seq<Access>
    requires rate.Valid()
  {
    [Access(0, 0, rate.capacity, false), Access(1000 * ttl, Max(0, 1000 * ttl - lag), rate.capacity, true)]
  }

  lemma RefilledFromEmpty(rate: Rate, reading: int)
    requires reading >= 0
    ensures Refilled(rate, Hash(0.0, 0), reading) == MinReal(rate.capacity as real, Seconds(reading) * rate.refill)
  {
    assert reading - 0 == reading;
    assert Seconds(reading - 0) == Seconds(reading) >= 0.0;
    assert 0.0 + Seconds(reading) * rate.refill == Seconds(reading) * rate.refill;
  }

  lemma LateReturnNotices(rate: Rate, ttl: int, lag: int)
    requires rate.Valid() && ttl > 0 && lag >= 0 && !RefillsWithin(rate, 1000 * ttl - lag)
    ensures var run := LateReturn(rate, ttl, lag);
            && LagsAtMost(run, lag) && PlausibleRun(rate, ttl, None, run)
            && Replies(rate, ttl, None, run) == [true, true]
            && Replies(rate, ttl, None, NeverGone(run)) == [true, false]
  {
    var run := LateReturn(rate, ttl, lag);
    var c := rate.capacity as real;
    var k1 := Key(Hash(0.0, 0), 1000 * ttl);
    assert 0.0 * rate.refill == 0.0;
    assert Touch(rate, ttl, None, run[0]) == (k1, true);
    assert Touch(rate, ttl, Some(k1), run[1]).1;
    assert run[1..] == [run[1]] && run[1..][1..] == [];
    var reading := run[1].reading;
    if reading == 0 {
      assert Seconds(0) * rate.refill == 0.0;
    }
    RefilledFromEmpty(rate, reading);
    assert Refilled(rate, k1.hash, reading) < c;
    var kept := NeverGone(run);
    assert Touch(rate, ttl, None, kept[0]) == (k1, true);
    assert !Touch(rate, ttl, Some(k1), kept[1]).1;
    assert kept[1..] == [kept[1]] && kept[1..][1..] == [];
    TwoReplies(rate, ttl, run);
    TwoReplies(rate, ttl, kept);
  }

  lemma TwoReplies(rate: Rate, ttl: int, run: seq<Access>)
    requires |run| == 2
    ensures var (k, ok) := Touch(rate, ttl, None, run[0]);
            Replies(rate, ttl, None, run) == [ok, Touch(rate, ttl, Some(k), run[1]).1]
  {
    hide Touch;
    var (k, ok) := Touch(rate, ttl, None, run[0]);
    assert run[1..] == [run[1]] && run[1..][1..] == [];
    assert Replies(rate, ttl, Some(k), [run[1]]) == [Touch(rate, ttl, Some(k), run[1]).1];
  }

  /** Key expiry is invisible exactly when an empty bucket refills in the time to live less the lag of the scripts. */
  lemma ExpiryIsInvisibleIff(rate: Rate, ttl: int, lag: int)
    requires rate.Valid() && ttl > 0 && lag >= 0
    ensures ExpiryHidden(rate, ttl, lag) <==> RefillsWithin(rate, 1000 * ttl - lag)
  {
    if RefillsWithin(rate, 1000 * ttl - lag) {
      forall run | LagsAtMost(run, lag) && PlausibleRun(rate, ttl, None, run)
        ensures Replies(rate, ttl, None, run) == Replies(rate, ttl, None, NeverGone(run))
      {
        ExpiryIsInvisible(rate, ttl, None, run, lag);
      }
    } else {
      LateReturnNotices(rate, ttl, lag);
      var run := LateReturn(rate, ttl, lag);
      assert Replies(rate, ttl, None, run)[1] != Replies(rate, ttl, None, NeverGone(run))[1];
    }
  }

  /** The code's own time to live hides expiry for both buckets of any configuration, even when scripts run half of it
      (at least half a minute) after their readings were taken: that is what the factor of two is good for. */
  lemma CodeTtlIsInvisible(cfg: RateLimitConfig, lag: int)
    requires cfg.tenant.Valid() && cfg.session.Valid() && 0 <= lag <= HalfTtl(cfg)
    ensures ExpiryHidden(cfg.tenant, TtlFor(cfg), lag) && ExpiryHidden(cfg.session, TtlFor(cfg), lag)
  {
    TtlCoversBothBuckets(cfg);
    LongerCovers(cfg.tenant, HalfTtl(cfg), 1000 * TtlFor(cfg) - lag);
    LongerCovers(cfg.session, HalfTtl(cfg), 1000 * TtlFor(cfg) - lag);
    ExpiryIsInvisibleIff(cfg.tenant, TtlFor(cfg), lag);
    ExpiryIsInvisibleIff(cfg.session, TtlFor(cfg), lag);
  }

  // ---------------------------------------------------------------- key names

  function TenantKey(prefix: string, tenant: string): string {
    prefix + ":tenant:" + tenant
  }

  function SessionKeyName(prefix: string, tenant: string, session: string): string {
    prefix + ":session:" + tenant + ":" + session
  }

  /** A tenant's key is its own: no other tenant's and no session's. */
  lemma TenantKeysAreDistinct(prefix: string, a: string, b: string, session: string)
    ensures TenantKey(prefix, a) == TenantKey(prefix, b) <==> a == b
    ensures TenantKey(prefix, a) != SessionKeyName(prefix, b, session)
  {
    var p := |prefix|;
    assert TenantKey(prefix, a)[p + 8..] == a && TenantKey(prefix, b)[p + 8..] == b;
    assert TenantKey(prefix, a)[p + 1] == 't' && SessionKeyName(prefix, b, session)[p + 1] == 's';
  }

  lemma FirstColon(a: string, s: string)
    requires ':' !in a
    ensures (a + ":" + s)[|a|] == ':'
    ensures forall i :: 0 <= i < |a| ==> (a + ":" + s)[i] != ':'
  {
    assert forall i :: 0 <= i < |a| ==> (a + ":" + s)[i] == a[i];
  }

  /** Session keys are told apart by the part before the first colon after the tenant; with registered
      tenant ids, which have no colon, no two sessions share a key. */
  lemma SessionKeysAreDistinct(prefix: string, a: string, s: string, b: string, t: string)
    requires ':' !in a && ':' !in b
    ensures SessionKeyName(prefix, a, s) == SessionKeyName(prefix, b, t) <==> a == b && s == t
  {
    var x, y := SessionKeyName(prefix, a, s), SessionKeyName(prefix, b, t);
    var p := |prefix| + 9;
    if x == y {
      assert x[p..] == a + ":" + s && y[p..] == b + ":" + t;
      FirstColon(a, s);
      FirstColon(b, t);
      assert |a| == |b|;
      assert (a + ":" + s)[..|a|] == a && (b + ":" + t)[..|b|] == b;
      assert (a + ":" + s)[|a| + 1..] == s && (b + ":" + t)[|b| + 1..] == t;
    }
  }

  /** A tenant id with a colon can share a session key with another tenant. */
  lemma ColonsCollide(prefix: string, a: string, b: string, c: string)
    ensures SessionKeyName(prefix, a + ":" + b, c) == SessionKeyName(prefix, a, b + ":" + c)
  {
    assert prefix + ":session:" + (a + ":" + b) + ":" + c == prefix + ":session:" + a + ":" + (b + ":" + c);
  }

  lemma KeyEnds(prefix: string, a: string, s: string)
    ensures |SessionKeyName(prefix, a, s)| >= |prefix| + 9
    ensures SessionKeyName(prefix, a, s)[|prefix| + 9..] == (a + ":") + s
  {
    assert SessionKeyName(prefix, a, s) == (prefix + ":session:") + ((a + ":") + s);
  }

  lemma OneStartsTheOther(a: string, s: string, b: string, t: string)
    requires a + s == b + t
    ensures a <= b || b <= a
  {
    assert (a + s)[..|a|] == a && (b + t)[..|b|] == b;
  }

  lemma PrefixCollides(prefix: string, a: string, b: string)
    requires a + ":" <= b + ":"
    ensures SessionKeyName(prefix, a, (b + ":")[|a| + 1..]) == SessionKeyName(prefix, b, "")
  {
    var rest := (b + ":")[|a| + 1..];
    assert b + ":" == (a + ":") + rest;
    assert SessionKeyName(prefix, a, rest) == (prefix + ":session:") + ((a + ":") + rest);
    assert SessionKeyName(prefix, b, "") == (prefix + ":session:") + (b + ":");
  }

  /** Exactly: some sessions of two tenants share a key iff one tenant id, with a colon after it, starts the other. */
  lemma SessionKeysCollideIff(prefix: string, a: string, b: string)
    ensures (exists s, t :: SessionKeyName(prefix, a, s) == SessionKeyName(prefix, b, t))
       <==> a + ":" <= b + ":" || b + ":" <= a + ":"
  {
    hide SessionKeyName;
    if a + ":" <= b + ":" {
      PrefixCollides(prefix, a, b);
    }
    if b + ":" <= a + ":" {
      PrefixCollides(prefix, b, a);
    }
    if s, t :| SessionKeyName(prefix, a, s) == SessionKeyName(prefix, b, t) {
      KeyEnds(prefix, a, s);
      KeyEnds(prefix, b, t);
      OneStartsTheOther(a + ":", s, b + ":", t);
    }
  }
}
