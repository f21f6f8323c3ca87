/** The ledger of one shared bucket: every script that ran on its key, in the order Redis ran them, with the moment it
    ran and the clock reading it carried. What it grants in a window depends on which of the two clocks is used. */
module SharedLedger {
  import opened Prelude
  import opened TokenBuckets
  import opened RedisBucket
  import opened Readings

  /** A script for one token: the call it ran for (None when its caller had given up), when it ran, and the clock
      reading it carried. */
  datatype Entry = Entry(id: Option<nat>, ranAt: int, reading: int, granted: bool)

  function ArrivalsOf(l: seq<Entry>): (r: seq<Arrival>)
    ensures |r| == |l|
  {
    seq(|l|, i requires 0 <= i < |l| => Arrival(l[i].reading, 1))
  }

  function GrantsOf(l: seq<Entry>): (r: seq<nat>)
    ensures |r| == |l|
  {
    seq(|l|, i requires 0 <= i < |l| => if l[i].granted then 1 else 0)
  }

  /** The stored hash and the verdicts are those of the script. */
  ghost predicate Served(rate: Rate, l: seq<Entry>, h: Option<Hash>) {
    Serve(rate, ArrivalsOf(l)) == (h, GrantsOf(l))
  }

  lemma SameEnds<T>(a: seq<T>, x: T, b: seq<T>, y: T)
    requires |a| == |b|
    ensures a + [x] == b + [y] <==> a == b && x == y
  {
    if a + [x] == b + [y] {
      assert a == (a + [x])[..|a|] && b == (b + [y])[..|b|];
      assert (a + [x])[|a|] == x && (b + [y])[|b|] == y;
    }
  }

  lemma ServedSnoc(rate: Rate, l: seq<Entry>, h: Option<Hash>, e: Entry)
    requires Served(rate, l, h)
    ensures var (h', ok) := Script(rate, h, e.reading, 1);
            Served(rate, l + [e], Some(h')) <==> e.granted == ok
  {
    assert ArrivalsOf(l + [e]) == ArrivalsOf(l) + [Arrival(e.reading, 1)];
    ServeSnoc(rate, ArrivalsOf(l), Arrival(e.reading, 1));
    assert GrantsOf(l + [e]) == GrantsOf(l) + [if e.granted then 1 else 0];
    var ok := Script(rate, h, e.reading, 1).1;
    SameEnds(GrantsOf(l), if ok then 1 else 0, GrantsOf(l), if e.granted then 1 else 0);
  }

  lemma ServedFront(rate: Rate, l: seq<Entry>, h: Option<Hash>)
    requires Served(rate, l, h) && l != []
    ensures var front, e := l[..|l| - 1], l[|l| - 1];
            var h0 := Serve(rate, ArrivalsOf(front)).0;
            && Served(rate, front, h0) && h == Some(Script(rate, h0, e.reading, 1).0)
            && e.granted == Script(rate, h0, e.reading, 1).1
  {
    hide Script;
    var front, e := l[..|l| - 1], l[|l| - 1];
    assert ArrivalsOf(l) == ArrivalsOf(front) + [Arrival(e.reading, 1)];
    ServeSnoc(rate, ArrivalsOf(front), Arrival(e.reading, 1));
    assert GrantsOf(l) == GrantsOf(front) + [if e.granted then 1 else 0];
    var (h0, granted) := Serve(rate, ArrivalsOf(front));
    var ok := Script(rate, h0, e.reading, 1).1;
    SameEnds(granted, if ok then 1 else 0, GrantsOf(front), if e.granted then 1 else 0);
  }

  // ---------------------------------------------------------------- windows

  /** Windows are taken over the moments the scripts ran, or over the readings they carried. */
  datatype Clock = ByRun | ByReading

  function At(e: Entry, c: Clock): int {
    if c == ByRun then e.ranAt else e.reading
  }

  predicate InOrder(l: seq<Entry>, c: Clock) {
    forall i :: 0 < i < |l| ==> At(l[i - 1], c) <= At(l[i], c)
  }

  /** The tokens taken in [s, t]. */
  function Taken(l: seq<Entry>, c: Clock, s: int, t: int): nat {
    if l == [] then 0
    else
      var e := l[|l| - 1];
      Taken(l[..|l| - 1], c, s, t) + if e.granted && s <= At(e, c) <= t then 1 else 0
  }

  /** The forward steps of the readings, and the backward ones, between scripts of [s, t]. */
  function ForwardIn(l: seq<Entry>, c: Clock, s: int, t: int): nat {
    if |l| < 2 then 0
    else
      var prev, e := l[|l| - 2], l[|l| - 1];
      var step := if s <= At(prev, c) && At(e, c) <= t then Max(0, e.reading - prev.reading) else 0;
      ForwardIn(l[..|l| - 1], c, s, t) + step
  }

  function BackIn(l: seq<Entry>, c: Clock, s: int, t: int): nat {
    if |l| < 2 then 0
    else
      var prev, e := l[|l| - 2], l[|l| - 1];
      BackIn(l[..|l| - 1], c, s, t) + if s <= At(prev, c) && At(e, c) <= t then Max(0, prev.reading - e.reading) else 0
  }

  lemma InOrderFront(l: seq<Entry>, c: Clock)
    requires InOrder(l, c) && l != []
    ensures InOrder(l[..|l| - 1], c)
    ensures |l| > 1 ==> At(l[|l| - 2], c) <= At(l[|l| - 1], c)
  {
  }

  lemma {:induction false} NoneTakenBefore(l: seq<Entry>, c: Clock, s: int, t: int)
    requires InOrder(l, c) && (l != [] ==> At(l[|l| - 1], c) < s)
    ensures Taken(l, c, s, t) == 0
  {
    if l != [] {
      InOrderFront(l, c);
      NoneTakenBefore(l[..|l| - 1], c, s, t);
    }
  }

  /** The state of the ledger's bucket is in range and remembers the last reading. */
  lemma ServedInRange(rate: Rate, l: seq<Entry>, h: Option<Hash>)
    requires rate.Valid() && Served(rate, l, h) && l != []
    ensures h.Some? && InRange(rate, AsBucket(h.value)) && h.value.lastMs == l[|l| - 1].reading
  {
    ServeInRange(rate, ArrivalsOf(l));
  }

  /** What the window up to the last script took, with the tokens left, comes from the forward steps. */
  lemma {:induction false} WindowBudget(rate: Rate, l: seq<Entry>, h: Option<Hash>, c: Clock, s: int, t: int)
    requires rate.Valid() && Served(rate, l, h) && InOrder(l, c) && l != [] && s <= At(l[|l| - 1], c) <= t
    ensures h.Some? && Taken(l, c, s, t) as real + h.value.tokens <= rate.Allowance(Seconds(ForwardIn(l, c, s, t)))
  {
    hide Script, Earned;
    var front, e := l[..|l| - 1], l[|l| - 1];
    ServedFront(rate, l, h);
    InOrderFront(l, c);
    var h0 := Serve(rate, ArrivalsOf(front)).0;
    var forward := ForwardIn(front, c, s, t);
    EarnedAdds(rate, forward, 0);
    if front != [] && s <= At(front[|front| - 1], c) {
      WindowBudget(rate, front, h0, c, s, t);
      ServedInRange(rate, front, h0);
      ScriptBudget(rate, h0.value, e.reading, 1);
      var step := Max(0, e.reading - h0.value.lastMs);
      EarnedAdds(rate, forward, step);
      EarnedAdds(rate, forward + step, 0);
    } else {
      NoneTakenBefore(front, c, s, t);
      NothingForward(front, c, s, t);
      FirstBudget(rate, h0, Arrival(e.reading, 1), ArrivalsOf(front));
      NothingYet(rate);
    }
  }

  lemma {:induction false} NothingForward(l: seq<Entry>, c: Clock, s: int, t: int)
    requires InOrder(l, c) && (l != [] ==> At(l[|l| - 1], c) < s)
    ensures ForwardIn(l, c, s, t) == 0 && BackIn(l, c, s, t) == 0
  {
    if l != [] {
      InOrderFront(l, c);
      NothingForward(l[..|l| - 1], c, s, t);
    }
  }

  lemma AllowanceCovers(rate: Rate, a: int, b: int)
    requires rate.Valid() && a <= b
    ensures rate.Allowance(Seconds(a)) <= rate.Allowance(Seconds(b))
    ensures 0 <= b ==> 0.0 <= rate.Allowance(Seconds(b))
  {
    AllowanceGrows(rate, Seconds(a), Seconds(b));
    if 0 <= b {
      AllowanceGrows(rate, 0.0, Seconds(b));
    }
  }

  /** Scripts of a window [s, t] take at most c + r * C tokens, C being the forward steps of their readings. */
  lemma {:induction false} TakenBound(rate: Rate, l: seq<Entry>, h: Option<Hash>, c: Clock, s: int, t: int)
    requires rate.Valid() && Served(rate, l, h) && InOrder(l, c)
    ensures Taken(l, c, s, t) as real <= rate.Allowance(Seconds(ForwardIn(l, c, s, t)))
  {
    AllowanceCovers(rate, 0, ForwardIn(l, c, s, t));
    if l != [] {
      var front, last := l[..|l| - 1], At(l[|l| - 1], c);
      if last > t {
        InOrderFront(l, c);
        ServedFront(rate, l, h);
        TakenBound(rate, front, Serve(rate, ArrivalsOf(front)).0, c, s, t);
      } else if last < s {
        NoneTakenBefore(l, c, s, t);
      } else {
        WindowBudget(rate, l, h, c, s, t);
        ServedInRange(rate, l, h);
      }
    }
  }

  /** Readings that trail the clock by at most `lag`. */
  predicate Trails(l: seq<Entry>, c: Clock, lag: int) {
    forall i :: 0 <= i < |l| ==> At(l[i], c) - lag <= l[i].reading <= At(l[i], c)
  }

  lemma {:induction false} ForwardUpTo(l: seq<Entry>, c: Clock, s: int, t: int, lag: int)
    requires InOrder(l, c) && Trails(l, c, lag) && l != [] && s <= At(l[|l| - 1], c) <= t
    ensures ForwardIn(l, c, s, t) <= l[|l| - 1].reading - (s - lag) + BackIn(l, c, s, t)
  {
    var front := l[..|l| - 1];
    if front != [] {
      InOrderFront(l, c);
      if s <= At(front[|front| - 1], c) {
        ForwardUpTo(front, c, s, t, lag);
      } else {
        NothingForward(front, c, s, t);
      }
    }
  }

  /** The readings of a window go forward by its length, their lag, and what they went back. */
  lemma {:induction false} ForwardInBound(l: seq<Entry>, c: Clock, s: int, t: int, lag: int)
    requires InOrder(l, c) && Trails(l, c, lag) && s <= t && 0 <= lag
    ensures ForwardIn(l, c, s, t) <= t - s + lag + BackIn(l, c, s, t)
  {
    if l != [] {
      var last := At(l[|l| - 1], c);
      if last < s {
        NothingForward(l, c, s, t);
      } else if last <= t {
        ForwardUpTo(l, c, s, t, lag);
      } else {
        InOrderFront(l, c);
        ForwardInBound(l[..|l| - 1], c, s, t, lag);
      }
    }
  }

  lemma {:induction false} NothingBack(l: seq<Entry>, s: int, t: int)
    requires InOrder(l, ByReading)
    ensures BackIn(l, ByReading, s, t) == 0
  {
    if l != [] {
      InOrderFront(l, ByReading);
      NothingBack(l[..|l| - 1], s, t);
    }
  }

  /** When no reading steps back, the readings of a window [s, t] took at most c + r * (t - s). */
  lemma OrderedBound(rate: Rate, l: seq<Entry>, h: Option<Hash>, s: int, t: int)
    requires rate.Valid() && Served(rate, l, h) && InOrder(l, ByReading) && s <= t
    ensures Taken(l, ByReading, s, t) as real <= rate.Allowance(Seconds(t - s))
  {
    TakenBound(rate, l, h, ByReading, s, t);
    NothingBack(l, s, t);
    ForwardInBound(l, ByReading, s, t, 0);
    AllowanceCovers(rate, ForwardIn(l, ByReading, s, t), t - s);
  }

  /** In any order: the scripts that ran in [s, t] took at most c + r * (t - s + lag + what the readings went back). */
  lemma RunBound(rate: Rate, l: seq<Entry>, h: Option<Hash>, s: int, t: int, lag: int)
    requires rate.Valid() && Served(rate, l, h) && InOrder(l, ByRun) && Trails(l, ByRun, lag) && s <= t && 0 <= lag
    ensures Taken(l, ByRun, s, t) as real <= rate.Allowance(Seconds(t - s + lag + BackIn(l, ByRun, s, t)))
  {
    TakenBound(rate, l, h, ByRun, s, t);
    ForwardInBound(l, ByRun, s, t, lag);
    AllowanceCovers(rate, ForwardIn(l, ByRun, s, t), t - s + lag + BackIn(l, ByRun, s, t));
  }

  // ---------------------------------------------------------------- who holds the tokens

  /** The calls that took a token in [s, t]. */
  function Takers(l: seq<Entry>, c: Clock, s: int, t: int): set<nat> {
    if l == [] then {}
    else
      var e := l[|l| - 1];
      Takers(l[..|l| - 1], c, s, t) + if e.granted && s <= At(e, c) <= t && e.id.Some? then {e.id.value} else {}
  }

  lemma {:induction false} TakersAreFew(l: seq<Entry>, c: Clock, s: int, t: int)
    ensures |Takers(l, c, s, t)| <= Taken(l, c, s, t)
  {
    if l != [] {
      TakersAreFew(l[..|l| - 1], c, s, t);
    }
  }

  lemma {:induction false} TakerTakes(l: seq<Entry>, c: Clock, s: int, t: int, e: Entry)
    requires e in l && e.granted && s <= At(e, c) <= t && e.id.Some?
    ensures e.id.value in Takers(l, c, s, t)
  {
    var m := |l| - 1;
    if l[m] != e {
      assert l == l[..m] + [l[m]];
      TakerTakes(l[..m], c, s, t, e);
    }
  }
}
