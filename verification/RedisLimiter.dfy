/** RedisRateLimiter as an object: its breaker, and the local limiter it creates on the first fallback. Each method is
    one stretch of `acquire` between two awaits, and does what the fleet's step does to one replica and one call. */
module RedisLimiter {
  import opened Prelude
  import opened TokenBuckets
  import opened LocalLimiter
  import opened RedisBucket
  import Breaker = CircuitBreaker
  import opened Fleet

  class RedisRateLimiter {
    const cfg: Settings
    const number: nat
    const breaker: Breaker.RedisCircuitBreaker
    var fallback: InProcessRateLimiter?

    /** The objects a call may change. */
    ghost function Repr(): set<object>
      reads this, fallback
    {
      {this, breaker} + (if fallback == null then {} else {fallback} + fallback.Repr())
    }

    ghost predicate Valid()
      reads this, Repr()
    {
      && cfg.Valid() && breaker.cfg == cfg.breaker
      && (fallback != null ==> fallback.limits == cfg.limits && fallback.Valid())
    }

    ghost function Value(): Replica
      reads this, Repr()
    {
      Replica(breaker.Value(), if fallback == null then None else Some(fallback.Value()))
    }

    constructor (cfg: Settings, number: nat, breaker: Breaker.RedisCircuitBreaker)
      requires cfg.Valid() && breaker.cfg == cfg.breaker
      ensures Valid() && this.cfg == cfg && this.number == number && this.breaker == breaker
      ensures Value() == Replica(breaker.Value(), None)
    {
      this.cfg, this.number, this.breaker := cfg, number, breaker;
      fallback := null;
    }

    method Enter(phase: Phase, now: int) returns (next: Phase)
      requires Valid() && phase.Ready?
      modifies breaker
      ensures Valid() && (Value(), next) == Entered(cfg, old(Value()), phase, now)
    {
      var a := breaker.AdmitCall(Seconds(now));
      next := if a == Breaker.Admitted then Sent(phase.stage, phase.paid, now) else FallingBack;
    }

    method Settle(phase: Phase, now: int) returns (next: Phase)
      requires Valid() && phase.Replied? && (phase.granted && phase.stage == SessionStage ==> phase.paid.Some?)
      modifies breaker
      ensures Valid() && (Value(), next) == Settled(old(Value()), phase, now)
    {
      breaker.Succeeded(Seconds(now));
      if !phase.granted {
        return Raised(Refused);
      }
      next := if phase.stage == TenantStage then Ready(SessionStage, phase.paid)
              else Returned(phase.paid.value, now);
    }

    method Fail(why: Failure, now: int) returns (next: Phase)
      requires Valid()
      modifies breaker
      ensures Valid() && (Value(), next) == FailedWith(cfg, old(Value()), why, now)
    {
      breaker.Failed(Seconds(now));
      next := if why == Unavailable then FallingBack else Raised(Escaped);
    }

    /** `_ensure_fallback`. */
    method EnsureFallback() returns (limiter: InProcessRateLimiter)
      requires Valid()
      modifies this`fallback
      ensures Valid() && fallback == limiter && breaker.Value() == old(breaker.Value())
      ensures old(fallback) != null ==> limiter == old(fallback)
      ensures fresh(Repr() - old(Repr()))
      ensures limiter.Value() == if old(fallback) == null then EMPTY else old(fallback.Value())
    {
      if fallback == null {
        fallback := new InProcessRateLimiter(cfg.limits);
      }
      limiter := fallback;
    }

    method FallBack(c: Acquiring, now: int) returns (o: Outcome, next: Phase)
      requires Valid()
      modifies Repr()
      ensures Valid() && fresh(Repr() - old(Repr()))
      ensures (Value(), o, next) == FellBack(cfg, old(Value()), number, c, now)
    {
      hide AcquireBoth, Take, InProcessRateLimiter.Valid, InProcessRateLimiter.Value;
      var limiter := EnsureFallback();
      o := limiter.AcquireToken(Call(c.tenant, c.session, Seconds(now)));
      next := if o == Granted then Returned(Charge(Local(number), now, now), now) else Raised(Refused);
    }
  }
}
