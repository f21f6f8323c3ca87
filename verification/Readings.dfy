/** The script under clock readings in any order. */
module Readings {
  // A caller reads its clock before it sends the script, so readings can reach Redis out of order even when all clocks
  // agree; what a bucket then grants follows the forward steps of the readings, not the time that passed.

  import opened Prelude
  import opened TokenBuckets
  import opened RedisBucket

  /** A script as it reaches Redis: the reading it carries and the tokens it asks for. */
  datatype Arrival = Arrival(reading: int, n: nat)

  /** The stored hash after some scripts on one key, and how many tokens each was granted. */
  function Serve(rate: Rate, calls: seq<Arrival>): (r: (Option<Hash>, seq<nat>))
    ensures |r.1| == |calls| && (r.0.Some? <==> calls != [])
  {
    if calls == [] then (None, [])
    else
      var (h, granted) := Serve(rate, calls[..|calls| - 1]);
      var a := calls[|calls| - 1];
      var (h', ok) := Script(rate, h, a.reading, a.n);
      (Some(h'), granted + [if ok then a.n else 0])
  }

  function Sum(xs: seq<nat>): nat {
    if xs == [] then 0 else Sum(xs[..|xs| - 1]) + xs[|xs| - 1]
  }

  function ReadingsOf(calls: seq<Arrival>): (r: seq<int>)
    ensures |r| == |calls|
  {
    seq(|calls|, i requires 0 <= i < |calls| => calls[i].reading)
  }

  /** The forward steps of the readings together, and the backward ones. */
  function Forward(ts: seq<int>): nat {
    if |ts| < 2 then 0 else Forward(ts[..|ts| - 1]) + Max(0, ts[|ts| - 1] - ts[|ts| - 2])
  }

  function Back(ts: seq<int>): nat {
    if |ts| < 2 then 0 else Back(ts[..|ts| - 1]) + Max(0, ts[|ts| - 2] - ts[|ts| - 1])
  }

  predicate NeverBack(ts: seq<int>) {
    forall i :: 0 < i < |ts| ==> ts[i - 1] <= ts[i]
  }

  lemma {:induction false} ForwardLessBack(ts: seq<int>)
    requires ts != []
    ensures Forward(ts) == ts[|ts| - 1] - ts[0] + Back(ts)
  {
    if |ts| > 1 {
      ForwardLessBack(ts[..|ts| - 1]);
    }
  }

  lemma {:induction false} BackIsZeroIff(ts: seq<int>)
    ensures Back(ts) == 0 <==> NeverBack(ts)
  {
    if |ts| > 1 {
      var front := ts[..|ts| - 1];
      BackIsZeroIff(front);
      assert NeverBack(ts) <==> NeverBack(front) && ts[|ts| - 2] <= ts[|ts| - 1];
    }
  }

  // ---------------------------------------------------------------- the bound

  lemma {:induction false} ServeInRange(rate: Rate, calls: seq<Arrival>)
    requires rate.Valid() && calls != []
    ensures var h := Serve(rate, calls).0.value;
            InRange(rate, AsBucket(h)) && h.lastMs == calls[|calls| - 1].reading
  {
    var front := calls[..|calls| - 1];
    if front != [] {
      ServeInRange(rate, front);
    }
    ScriptStaysInRange(rate, Serve(rate, front).0, calls[|calls| - 1].reading, calls[|calls| - 1].n);
  }

  /** What one script grants and leaves comes from what was there and the forward step of its reading. */
  lemma ScriptBudget(rate: Rate, h: Hash, reading: int, n: nat)
    requires rate.Valid() && InRange(rate, AsBucket(h))
    ensures var (h', ok) := Script(rate, Some(h), reading, n);
            && h'.tokens + (if ok then n else 0) as real <= h.tokens + Earned(rate, Seconds(Max(0, reading - h.lastMs)))
            && h'.tokens + (if ok then n else 0) as real <= rate.capacity as real
  {
    RefillStaysInRange(rate, h, reading);
    var step := Max(0, reading - h.lastMs);
    assert Seconds(step) == if Seconds(reading - h.lastMs) < 0.0 then 0.0 else Seconds(reading - h.lastMs);
    EarnedNonNegative(rate, Seconds(step));
  }

  lemma EarnedAdds(rate: Rate, a: int, b: int)
    ensures Earned(rate, Seconds(a + b)) == Earned(rate, Seconds(a)) + Earned(rate, Seconds(b))
    ensures rate.Allowance(Seconds(a)) == rate.capacity as real + Earned(rate, Seconds(a))
  {
    assert Seconds(a + b) == Seconds(a) + Seconds(b);
    MulDistributes(rate.refill, Seconds(a), Seconds(b));
  }

  lemma SumSnoc(xs: seq<nat>, x: nat)
    ensures Sum(xs + [x]) == Sum(xs) + x
  {
    assert (xs + [x])[..|xs|] == xs;
  }

  lemma ForwardSnoc(ts: seq<int>, t: int)
    ensures Forward(ts + [t]) == Forward(ts) + if ts == [] then 0 else Max(0, t - ts[|ts| - 1])
  {
    assert (ts + [t])[..|ts|] == ts;
  }

  lemma ServeSnoc(rate: Rate, front: seq<Arrival>, a: Arrival)
    ensures var (h, granted) := Serve(rate, front);
            var (h', ok) := Script(rate, h, a.reading, a.n);
            Serve(rate, front + [a]) == (Some(h'), granted + [if ok then a.n else 0])
    ensures ReadingsOf(front + [a]) == ReadingsOf(front) + [a.reading]
  {
    assert (front + [a])[..|front|] == front;
  }

  lemma SuffixSnoc<T>(xs: seq<T>, x: T, i: nat)
    requires i <= |xs|
    ensures (xs + [x])[i..] == xs[i..] + [x]
  {
  }

  /** What the scripts from position `i` on are granted, with the tokens still there. */
  lemma {:induction false} SuffixBudget(rate: Rate, calls: seq<Arrival>, i: nat)
    requires rate.Valid() && i < |calls|
    ensures var (h, granted) := Serve(rate, calls);
            Sum(granted[i..]) as real + h.value.tokens <= rate.Allowance(Seconds(Forward(ReadingsOf(calls)[i..])))
  {
    hide Script, Earned, Forward, Sum, Serve, ReadingsOf;
    var m := |calls| - 1;
    var front, a := calls[..m], calls[m];
    assert calls == front + [a];
    var (h, granted) := Serve(rate, front);
    var ts := ReadingsOf(front);
    var (h', ok) := Script(rate, h, a.reading, a.n);
    var g := if ok then a.n else 0;
    ServeSnoc(rate, front, a);
    SuffixSnoc(granted, g, i);
    SuffixSnoc(ts, a.reading, i);
    SumSnoc(granted[i..], g);
    ForwardSnoc(ts[i..], a.reading);
    var forward := Forward(ts[i..]);
    EarnedAdds(rate, forward, 0);
    if i == m {
      NothingYet(rate);
      FirstBudget(rate, h, a, front);
    } else {
      SuffixBudget(rate, front, i);
      ServeInRange(rate, front);
      ScriptBudget(rate, h.value, a.reading, a.n);
      LastReading(front);
      assert ts[i..][|ts[i..]| - 1] == h.value.lastMs;
      var step := Max(0, a.reading - h.value.lastMs);
      EarnedAdds(rate, forward, step);
      EarnedAdds(rate, forward + step, 0);
    }
  }

  lemma LastReading(calls: seq<Arrival>)
    requires calls != []
    ensures ReadingsOf(calls)[|calls| - 1] == calls[|calls| - 1].reading
  {
  }

  lemma NothingYet(rate: Rate)
    ensures Sum([]) == 0 && Forward([]) == 0 && rate.Allowance(Seconds(0)) == rate.capacity as real
  {
    assert Seconds(0) == 0.0 && rate.refill * 0.0 == 0.0;
  }

  lemma FirstBudget(rate: Rate, stored: Option<Hash>, a: Arrival, front: seq<Arrival>)
    requires rate.Valid() && stored == Serve(rate, front).0
    ensures var (h', ok) := Script(rate, stored, a.reading, a.n);
            h'.tokens + (if ok then a.n else 0) as real <= rate.capacity as real
  {
    if front == [] {
      RefillStaysInRange(rate, Hash(rate.capacity as real, a.reading), a.reading);
    } else {
      ServeInRange(rate, front);
      ScriptBudget(rate, stored.value, a.reading, a.n);
    }
  }

  lemma {:induction false} ServePrefix(rate: Rate, calls: seq<Arrival>, k: nat)
    requires k <= |calls|
    ensures Serve(rate, calls[..k]).1 == Serve(rate, calls).1[..k]
  {
    if k == |calls| {
      assert calls[..k] == calls;
    } else {
      var m := |calls| - 1;
      ServePrefix(rate, calls[..m], k);
      assert calls[..m][..k] == calls[..k];
      assert Serve(rate, calls).1[..m] == Serve(rate, calls[..m]).1;
    }
  }

  /** The tokens granted to the scripts at positions i..k. */
  function Granted(rate: Rate, calls: seq<Arrival>, i: nat, k: nat): nat
    requires i <= k < |calls|
  {
    Sum(Serve(rate, calls).1[i..k + 1])
  }

  /** For every run, any requests and readings in any order: the scripts at positions i..k are granted at most
      c + r * C, where C is the sum of the forward steps between their readings. */
  lemma ForwardBound(rate: Rate, calls: seq<Arrival>, i: nat, k: nat)
    requires rate.Valid() && i <= k < |calls|
    ensures Granted(rate, calls, i, k) as real <= rate.Allowance(Seconds(Forward(ReadingsOf(calls)[i..k + 1])))
  {
    var upTo := calls[..k + 1];
    SuffixBudget(rate, upTo, i);
    ServeInRange(rate, upTo);
    ServePrefix(rate, calls, k + 1);
    assert Serve(rate, upTo).1[i..] == Serve(rate, calls).1[i..k + 1];
    assert ReadingsOf(upTo)[i..] == ReadingsOf(calls)[i..k + 1];
  }

  /** In terms of the readings at both ends, the backward steps between them come on top. */
  lemma StepBackBound(rate: Rate, calls: seq<Arrival>, i: nat, k: nat)
    requires rate.Valid() && i <= k < |calls|
    ensures Granted(rate, calls, i, k) as real
         <= rate.Allowance(Seconds(calls[k].reading - calls[i].reading))
            + Earned(rate, Seconds(Back(ReadingsOf(calls)[i..k + 1])))
  {
    var ts := ReadingsOf(calls)[i..k + 1];
    ForwardBound(rate, calls, i, k);
    ForwardLessBack(ts);
    EarnedAdds(rate, calls[k].reading - calls[i].reading, Back(ts));
    EarnedAdds(rate, Forward(ts), 0);
  }

  // ---------------------------------------------------------------- when the window bound holds

  function Arrivals(ts: seq<int>, ns: seq<nat>): (r: seq<Arrival>)
    requires |ns| == |ts|
    ensures |r| == |ts|
  {
    seq(|ts|, j requires 0 <= j < |ts| => Arrival(ts[j], ns[j]))
  }

  /** Every bucket keeps the window bound from position i to k, whatever is asked for. */
  ghost predicate BoundHolds(ts: seq<int>, i: nat, k: nat)
    requires i <= k < |ts|
  {
    forall rate: Rate, ns: seq<nat> :: rate.Valid() && |ns| == |ts|
      ==> Granted(rate, Arrivals(ts, ns), i, k) as real <= rate.Allowance(Seconds(ts[k] - ts[i]))
  }

  /** One token at both ends, nothing asked for elsewhere. */
  function BothEnds(len: nat, i: nat, k: nat): (ns: seq<nat>)
    ensures |ns| == len
  {
    seq(len, j requires 0 <= j < len => if j == i || j == k then 1 else 0)
  }

  /** A bucket of one token that refills in `ms` milliseconds. */
  function OneTokenIn(ms: nat): (rate: Rate)
    requires ms > 0
    ensures rate.Valid()
  {
    Rate(1, 1000.0 / ms as real)
  }

  lemma OneTokenEarned(ms: nat, x: int)
    requires ms > 0
    ensures Earned(OneTokenIn(ms), Seconds(x)) == x as real / ms as real
    ensures x <= ms ==> x as real / ms as real <= 1.0
    ensures x == ms ==> x as real / ms as real == 1.0
  {
    var m := ms as real;
    assert (x as real / 1000.0) * (1000.0 / m) == x as real / m;
  }

  lemma StaysFull(rate: Rate, h: Hash, reading: int)
    requires rate.Valid() && h.tokens == rate.capacity as real
    ensures Refilled(rate, h, reading) == rate.capacity as real
  {
    var credited := if Seconds(reading - h.lastMs) < 0.0 then 0.0 else Seconds(reading - h.lastMs);
    MulNonNegative(credited, rate.refill);
  }

  /** Nothing is asked for before position `i`, so the bucket is full there and gives its token. */
  lemma {:induction false} FullBeforeFirst(rate: Rate, calls: seq<Arrival>)
    requires rate.Valid() && calls != [] && forall j :: 0 <= j < |calls| ==> calls[j].n == 0
    ensures Serve(rate, calls).0.value.tokens == rate.capacity as real
  {
    var front, a := calls[..|calls| - 1], calls[|calls| - 1];
    if front != [] {
      FullBeforeFirst(rate, front);
    }
    var h := if front == [] then Hash(rate.capacity as real, a.reading) else Serve(rate, front).0.value;
    StaysFull(rate, h, a.reading);
  }

  /** From position `i` on the one token fills with the forward steps, which never fill it before position `k`. */
  lemma {:induction false} FillsSlowly(calls: seq<Arrival>, i: nat, ms: nat)
    requires ms > 0 && i < |calls| && Forward(ReadingsOf(calls)[i..]) <= ms
    requires forall j :: 0 <= j < |calls| ==> calls[j].n == if j == i then 1 else 0
    ensures var (h, granted) := Serve(OneTokenIn(ms), calls);
            Sum(granted[i..]) == 1 && h.value.tokens == Forward(ReadingsOf(calls)[i..]) as real / ms as real
  {
    hide Script, Earned, Forward, Sum, Serve, ReadingsOf, OneTokenIn;
    var rate := OneTokenIn(ms);
    var m := |calls| - 1;
    var front, a := calls[..m], calls[m];
    assert calls == front + [a];
    assert forall j :: 0 <= j < |front| ==> front[j] == calls[j];
    var ts := ReadingsOf(front);
    var (h, granted) := Serve(rate, front);
    ServeSnoc(rate, front, a);
    SuffixSnoc(ts, a.reading, i);
    ForwardSnoc(ts[i..], a.reading);
    if i == m {
      FirstTakesIt(ms, front, a);
      assert Serve(rate, calls).1[i..] == [] + [1];
      SumSnoc([], 1);
      NothingYet(rate);
    } else {
      FillsSlowly(front, i, ms);
      ServeInRange(rate, front);
      LastReading(front);
      assert ts[i..][|ts[i..]| - 1] == h.value.lastMs;
      FillStep(ms, h.value, a.reading, Forward(ts[i..]));
      SuffixSnoc(granted, 0, i);
      SumSnoc(granted[i..], 0);
    }
  }

  lemma FirstTakesIt(ms: nat, front: seq<Arrival>, a: Arrival)
    requires ms > 0 && a.n == 1 && forall j :: 0 <= j < |front| ==> front[j].n == 0
    ensures Script(OneTokenIn(ms), Serve(OneTokenIn(ms), front).0, a.reading, 1) == (Hash(0.0, a.reading), true)
  {
    hide Refilled, Serve;
    var rate := OneTokenIn(ms);
    if front != [] {
      FullBeforeFirst(rate, front);
    }
    StaysFull(rate, if front == [] then Hash(1.0, a.reading) else Serve(rate, front).0.value, a.reading);
  }

  lemma FillStep(ms: nat, h: Hash, reading: int, before: nat)
    requires ms > 0 && h.tokens == before as real / ms as real
    requires before + Max(0, reading - h.lastMs) <= ms
    ensures var step := Max(0, reading - h.lastMs);
            Script(OneTokenIn(ms), Some(h), reading, 0) == (Hash((before + step) as real / ms as real, reading), true)
    ensures before + Max(0, reading - h.lastMs) == ms ==> Script(OneTokenIn(ms), Some(h), reading, 1).1
  {
    var rate := OneTokenIn(ms);
    var step := Max(0, reading - h.lastMs);
    OneTokenEarned(ms, step);
    OneTokenEarned(ms, before + step);
    assert before as real / ms as real + step as real / ms as real == (before + step) as real / ms as real;
    assert Seconds(step) == if Seconds(reading - h.lastMs) < 0.0 then 0.0 else Seconds(reading - h.lastMs);
    assert Refilled(rate, h, reading) == MinReal(1.0, h.tokens + Earned(rate, Seconds(step)));
    assert (before + step) as real / ms as real >= 0.0;
  }

  /** The token is back at position `k`, and given again. */
  lemma EndsGranted(front: seq<Arrival>, a: Arrival, i: nat, ms: nat)
    requires ms > 0 && i < |front| && Forward(ReadingsOf(front)[i..] + [a.reading]) == ms && a.n == 1
    requires forall j :: 0 <= j < |front| ==> front[j].n == if j == i then 1 else 0
    ensures |Serve(OneTokenIn(ms), front + [a]).1| == |front| + 1
    ensures Sum(Serve(OneTokenIn(ms), front + [a]).1[i..]) == 2
  {
    hide Script, Earned, Forward, Sum, Serve, ReadingsOf, OneTokenIn;
    var rate, ts := OneTokenIn(ms), ReadingsOf(front)[i..];
    var (h, granted) := Serve(rate, front);
    ForwardSnoc(ts, a.reading);
    FillsSlowly(front, i, ms);
    LastReading(front);
    ServeInRange(rate, front);
    assert ts[|ts| - 1] == h.value.lastMs;
    FillStep(ms, h.value, a.reading, Forward(ts));
    ServeSnoc(rate, front, a);
    SuffixSnoc(granted, 1, i);
    SumSnoc(granted[i..], 1);
  }

  lemma EndsOvergrant(ts: seq<int>, i: nat, k: nat)
    requires i < k < |ts| && ts[i] <= ts[k] && Back(ts[i..k + 1]) > 0
    ensures !BoundHolds(ts, i, k)
  {
    hide Forward, Back, Sum, Serve, OneTokenIn;
    ForwardLessBack(ts[i..k + 1]);
    var ms := Forward(ts[i..k + 1]);
    var rate, ns := OneTokenIn(ms), BothEnds(|ts|, i, k);
    var calls := Arrivals(ts, ns);
    var front, a := calls[..k], calls[k];
    assert calls[..k + 1] == front + [a];
    assert ts[i..k + 1] == ReadingsOf(front)[i..] + [a.reading];
    EndsGranted(front, a, i, ms);
    ServePrefix(rate, calls, k + 1);
    assert Serve(rate, calls).1[i..k + 1] == Serve(rate, front + [a]).1[i..];
    assert Granted(rate, calls, i, k) == 2;
    TwoIsTooMany(ms, ts[k] - ts[i]);
  }

  lemma TwoIsTooMany(ms: nat, x: int)
    requires 0 <= x < ms
    ensures 2.0 > OneTokenIn(ms).Allowance(Seconds(x))
  {
    OneTokenEarned(ms, x);
    EarnedAdds(OneTokenIn(ms), x, 0);
    Smaller(x as real, ms as real);
  }

  lemma Smaller(a: real, b: real)
    requires 0.0 <= a < b
    ensures a / b < 1.0
  {
  }

  /** Between two positions whose readings are in order, every bucket keeps the window bound for requests of every size
      exactly when no reading between them steps back. */
  lemma WindowBoundIffNeverBack(ts: seq<int>, i: nat, k: nat)
    requires i <= k < |ts| && ts[i] <= ts[k]
    ensures BoundHolds(ts, i, k) <==> NeverBack(ts[i..k + 1])
  {
    var window := ts[i..k + 1];
    BackIsZeroIff(window);
    if Back(window) == 0 {
      forall rate: Rate, ns: seq<nat> | rate.Valid() && |ns| == |ts|
        ensures Granted(rate, Arrivals(ts, ns), i, k) as real <= rate.Allowance(Seconds(ts[k] - ts[i]))
      {
        var calls := Arrivals(ts, ns);
        assert ReadingsOf(calls) == ts;
        ForwardBound(rate, calls, i, k);
        ForwardLessBack(window);
      }
    } else {
      assert i < k;
      EndsOvergrant(ts, i, k);
    }
  }

  /** Two readings, `ms` apart, taking turns: 0, ms, 0, ms, .. */
  function TakingTurns(k: nat, ms: nat): seq<Arrival> {
    if k == 0 then [Arrival(0, 1)] else TakingTurns(k - 1, ms) + [Arrival(ms, 1), Arrival(0, 1)]
  }

  lemma TurnScripts(ms: nat)
    requires ms > 0
    ensures Script(OneTokenIn(ms), None, 0, 1) == (Hash(0.0, 0), true)
    ensures Script(OneTokenIn(ms), Some(Hash(0.0, 0)), ms, 1) == (Hash(0.0, ms), true)
    ensures Script(OneTokenIn(ms), Some(Hash(0.0, ms)), 0, 1) == (Hash(0.0, 0), false)
  {
    var rate := OneTokenIn(ms);
    OneTokenEarned(ms, ms);
    assert 0.0 * rate.refill == 0.0;
    assert Refilled(rate, Hash(0.0, 0), ms) == MinReal(1.0, 0.0 + Earned(rate, Seconds(ms)));
  }

  /** One more turn: the later reading is granted, the earlier one refused. */
  lemma OneMoreTurn(before: seq<Arrival>, ms: nat)
    requires ms > 0 && Serve(OneTokenIn(ms), before).0 == Some(Hash(0.0, 0))
    ensures var (h, granted) := Serve(OneTokenIn(ms), before + [Arrival(ms, 1), Arrival(0, 1)]);
            h == Some(Hash(0.0, 0)) && Sum(granted) == Sum(Serve(OneTokenIn(ms), before).1) + 1
  {
    hide Serve, Script, Sum, OneTokenIn;
    var rate := OneTokenIn(ms);
    var mid := before + [Arrival(ms, 1)];
    TurnScripts(ms);
    ServeSnoc(rate, before, Arrival(ms, 1));
    ServeSnoc(rate, mid, Arrival(0, 1));
    assert mid + [Arrival(0, 1)] == before + [Arrival(ms, 1), Arrival(0, 1)];
    SumSnoc(Serve(rate, before).1, 1);
    SumSnoc(Serve(rate, mid).1, 0);
  }

  lemma FirstTurn(ms: nat)
    requires ms > 0
    ensures Serve(OneTokenIn(ms), [Arrival(0, 1)]) == (Some(Hash(0.0, 0)), [1])
  {
    hide Script, OneTokenIn;
    TurnScripts(ms);
    assert Serve(OneTokenIn(ms), []) == (None, []);
    ServeSnoc(OneTokenIn(ms), [], Arrival(0, 1));
    assert [] + [Arrival(0, 1)] == [Arrival(0, 1)] && [] + [1] == [1];
  }

  /** Readings that take turns are credited the same `ms` milliseconds over and over: the later one is granted as often
      as it comes, where a window of that length allows two. */
  lemma {:induction false} StaleTimestampOvergrants(k: nat, ms: nat)
    requires ms > 0
    ensures var (h, granted) := Serve(OneTokenIn(ms), TakingTurns(k, ms));
            h == Some(Hash(0.0, 0)) && Sum(granted) == k + 1
    ensures OneTokenIn(ms).Allowance(Seconds(ms)) == 2.0
  {
    var rate := OneTokenIn(ms);
    hide Serve, Script;
    OneTokenEarned(ms, ms);
    EarnedAdds(rate, ms, 0);
    NothingYet(rate);
    if k == 0 {
      FirstTurn(ms);
      assert [] + [1] == [1];
      SumSnoc([], 1);
    } else {
      StaleTimestampOvergrants(k - 1, ms);
      OneMoreTurn(TakingTurns(k - 1, ms), ms);
    }
  }
}
