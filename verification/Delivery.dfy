/** The retry loop of the audit sinks: observability/sinks/base.py, http.py and wazuh_indexer.py. */
module Delivery {
  import opened Prelude

  /** What the world does at one attempt: whether the delivery succeeds and, if it does not and a backoff
      follows, whether the stop event fires `after` that many seconds of it. */
  datatype Attempt = Attempt(ok: bool, stopAfter: Option<real>)

  datatype Verdict =
    | Delivered
    | GaveUp          // every attempt failed; the drop is recorded
    | Interrupted     // stop fired during a backoff
    | NeverTried      // max_attempts <= 0: the loop body never runs

  function Pow2(n: nat): int {
    if n == 0 then 1 else 2 * Pow2(n - 1)
  }

  lemma {:induction false} Pow2Positive(n: nat)
    ensures Pow2(n) >= 1
  {
    if n > 0 {
      Pow2Positive(n - 1);
    }
  }

  /** The backoff after the `k`-th failure, counted from 1. */
  function Backoff(base: real, k: int): real
    requires k >= 1
  {
    base * Pow2(k - 1) as real
  }

  /** The wait at attempt `i` is cut off by stop. */
  predicate CutOff(a: Attempt, base: real, k: int)
    requires k >= 1
  {
    a.stopAfter.Some? && a.stopAfter.value < Backoff(base, k)
  }

  /** Attempt `i` is where the loop ends. */
  predicate EndsAt(env: seq<Attempt>, base: real, m: int, i: nat)
    requires i < |env|
  {
    env[i].ok || i + 1 >= m || CutOff(env[i], base, i + 1)
  }

  /** How the loop ends when it ends at attempt `i`. */
  function VerdictAt(env: seq<Attempt>, m: int, i: nat): Verdict
    requires i < |env|
  {
    if env[i].ok then Delivered else if i + 1 >= m then GaveUp else Interrupted
  }

  /** The attempt at which the loop ends, from attempt `i` on. */
  function EndOf(env: seq<Attempt>, base: real, m: int, i: nat): (last: nat)
    requires i < m <= |env|
    ensures i <= last < m && EndsAt(env, base, m, last) && forall j :: i <= j < last ==> !EndsAt(env, base, m, j)
    decreases m - i
  {
    if EndsAt(env, base, m, i) then i else EndOf(env, base, m, i + 1)
  }

  /** How the loop ends. */
  function VerdictOf(env: seq<Attempt>, base: real, m: int): Verdict
    requires m <= |env|
  {
    if m <= 0 then NeverTried else VerdictAt(env, m, EndOf(env, base, m, 0))
  }

  lemma EndIsUnique(env: seq<Attempt>, base: real, m: int, last: nat)
    requires last < m <= |env| && EndsAt(env, base, m, last)
    requires forall i :: 0 <= i < last ==> !EndsAt(env, base, m, i)
    ensures EndOf(env, base, m, 0) == last
  {
  }

  /** The backoffs after the first `n` failures together. */
  function TotalBackoff(base: real, n: nat): real {
    if n == 0 then 0.0 else TotalBackoff(base, n - 1) + Backoff(base, n)
  }

  lemma BackoffAdds(base: real, a: real, b: real, sum: real)
    requires sum == a + b
    ensures base * sum == base * a + base * b
  {
    MulDistributes(base, a, b);
  }

  lemma {:induction false} TotalBackoffClosed(base: real, n: nat)
    ensures TotalBackoff(base, n) == base * (Pow2(n) - 1) as real
  {
    if n == 0 {
      assert (Pow2(0) - 1) as real == 0.0;
    } else {
      TotalBackoffClosed(base, n - 1);
      BackoffAdds(base, (Pow2(n - 1) - 1) as real, Pow2(n - 1) as real, (Pow2(n) - 1) as real);
      assert Backoff(base, n) == base * Pow2(n - 1) as real;
    }
  }

  lemma BackoffNonNegative(base: real, k: int)
    requires base >= 0.0 && k >= 1
    ensures Backoff(base, k) >= 0.0
  {
    Pow2Positive(k - 1);
    MulNonNegative(base, Pow2(k - 1) as real);
  }

  lemma {:induction false} TotalBackoffGrows(base: real, a: nat, b: nat)
    requires base >= 0.0 && a <= b
    ensures 0.0 <= TotalBackoff(base, a) <= TotalBackoff(base, b)
    decreases b
  {
    hide Backoff, Pow2;
    if b > 0 {
      BackoffNonNegative(base, b);
      TotalBackoffGrows(base, if a < b then a else b - 1, b - 1);
    }
  }

  /** The loop. `env` holds an entry for every attempt it may make. It makes between 1 and `m` attempts and ends
      at the first one that succeeds, is cut off by stop, or is the `m`-th. */
  method DeliverWithRetry(m: int, base: real, env: seq<Attempt>) returns (verdict: Verdict, attempts: int, waited: real)
    requires base >= 0.0 && m <= |env|
    requires forall i :: 0 <= i < |env| && env[i].stopAfter.Some? ==> env[i].stopAfter.value >= 0.0
    ensures m <= 0 ==> verdict == NeverTried && attempts == 0 && waited == 0.0
    ensures m >= 1 ==> 1 <= attempts <= m && EndsAt(env, base, m, attempts - 1)
    ensures m >= 1 ==> forall i :: 0 <= i < attempts - 1 ==> !EndsAt(env, base, m, i)
    ensures m >= 1 ==> verdict == VerdictAt(env, m, attempts - 1)
    ensures verdict == VerdictOf(env, base, m)
    ensures m >= 1 ==> TotalBackoff(base, attempts - 1) <= waited <= TotalBackoff(base, m - 1)
    ensures m >= 1 && verdict != Interrupted ==> waited == TotalBackoff(base, attempts - 1)
  {
    attempts := 0;
    waited := 0.0;
    while attempts < m
      invariant 0 <= attempts && (m >= 1 ==> attempts < m) && (m <= 0 ==> attempts == 0)
      invariant forall i :: 0 <= i < attempts ==> !EndsAt(env, base, m, i)
      invariant waited == TotalBackoff(base, attempts)
    {
      var a := env[attempts];
      attempts := attempts + 1;
      TotalBackoffGrows(base, attempts - 1, m - 1);
      if EndsAt(env, base, m, attempts - 1) {
        EndIsUnique(env, base, m, attempts - 1);
      }
      if a.ok {
        return Delivered, attempts, waited;
      }
      if attempts >= m {
        return GaveUp, attempts, waited;
      }
      var backoff := Backoff(base, attempts);
      TotalBackoffGrows(base, attempts, m - 1);
      if a.stopAfter.Some? && a.stopAfter.value < backoff {
        waited := waited + a.stopAfter.value;
        return Interrupted, attempts, waited;
      }
      waited := waited + backoff;
    }
    return NeverTried, 0, 0.0;
  }

  /** The loop gives up, and so records the drop, exactly when all `m` attempts fail and none of the `m - 1`
      backoffs between them is cut off; the waits then add up to base * (2^(m-1) - 1). */
  lemma GivesUpIffAllFail(env: seq<Attempt>, base: real, m: int, last: nat)
    requires 1 <= m <= |env| && last < m && EndsAt(env, base, m, last)
    requires forall i :: 0 <= i < last ==> !EndsAt(env, base, m, i)
    ensures VerdictAt(env, m, last) == GaveUp
            <==> (forall i :: 0 <= i < m ==> !env[i].ok)
                 && (forall i :: 0 <= i < m - 1 ==> !CutOff(env[i], base, i + 1))
    ensures TotalBackoff(base, m - 1) == base * (Pow2(m - 1) - 1) as real
  {
    TotalBackoffClosed(base, m - 1);
    if VerdictAt(env, m, last) == GaveUp {
      assert last == m - 1;
      forall i | 0 <= i < m - 1
        ensures !env[i].ok && !CutOff(env[i], base, i + 1)
      {
        assert !EndsAt(env, base, m, i);
      }
    } else {
      assert env[last].ok || CutOff(env[last], base, last + 1);
    }
  }
}
