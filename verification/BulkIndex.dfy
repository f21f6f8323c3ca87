/** Retried bulk writes of observability/sinks/wazuh_indexer.py. */
module BulkIndex {
  // The document id makes a retry harmless.

  import opened Prelude
  import opened AuditSink

  /** One action line of the bulk body with its document. */
  datatype Action = Action(index: string, id: Option<string>, doc: AuditEvent)

  function IndexName(prefix: string, day: string): string {
    prefix + "-" + day
  }

  lemma IndexNamesDiffer(prefix: string, a: string, b: string)
    ensures IndexName(prefix, a) == IndexName(prefix, b) <==> a == b
  {
    assert IndexName(prefix, a)[|prefix| + 1..] == a && IndexName(prefix, b)[|prefix| + 1..] == b;
  }

  function ActionFor(prefix: string, day: string, e: AuditEvent): Action {
    Action(IndexName(prefix, day), e.id, e)
  }

  function Actions(prefix: string, day: string, events: seq<AuditEvent>): (r: seq<Action>)
    ensures |r| == |events|
  {
    if events == [] then [] else [ActionFor(prefix, day, events[0])] + Actions(prefix, day, events[1..])
  }

  /** `_build_bulk_body`: the day is read once, then one action per event. */
  method BuildBulkBody(prefix: string, day: string, events: seq<AuditEvent>) returns (lines: seq<Action>)
    ensures lines == Actions(prefix, day, events)
  {
    var index := IndexName(prefix, day);
    lines := [];
    var i := 0;
    while i < |events|
      invariant 0 <= i <= |events|
      invariant lines + Actions(prefix, day, events[i..]) == Actions(prefix, day, events)
    {
      lines := lines + [Action(index, events[i].id, events[i])];
      i := i + 1;
    }
  }

  /** The indices: documents by index and id, and those the indexer gave an id of its own. */
  datatype Store = Store(docs: map<(string, string), AuditEvent>, auto: seq<(string, AuditEvent)>)

  function ApplyOne(st: Store, a: Action): Store {
    match a.id
    case Some(id) => st.(docs := st.docs[(a.index, id) := a.doc])
    case None => st.(auto := st.auto + [(a.index, a.doc)])
  }

  /** A bulk request that applied some of its actions. */
  function ApplySome(st: Store, actions: seq<Action>, applied: seq<bool>): Store
    requires |applied| == |actions|
    decreases |actions|
  {
    if actions == [] then st
    else ApplySome(if applied[0] then ApplyOne(st, actions[0]) else st, actions[1..], applied[1..])
  }

  function ApplyAll(st: Store, actions: seq<Action>): Store
    decreases |actions|
  {
    if actions == [] then st else ApplyAll(ApplyOne(st, actions[0]), actions[1..])
  }

  /** A failed attempt: the day its body was built, and which events the indexer took all the same. */
  datatype FailedTry = FailedTry(day: string, applied: seq<bool>)

  function AfterFailures(prefix: string, st: Store, events: seq<AuditEvent>, tries: seq<FailedTry>): Store
    requires forall i :: 0 <= i < |tries| ==> |tries[i].applied| == |events|
  {
    if tries == [] then st
    else
      var m := |tries| - 1;
      ApplySome(AfterFailures(prefix, st, events, tries[..m]), Actions(prefix, tries[m].day, events), tries[m].applied)
  }

  /** What a failed try left behind is what the success writes again: it had ids, and it was the same day. */
  ghost predicate Harmless(events: seq<AuditEvent>, day: string, t: FailedTry) {
    |t.applied| == |events| && forall i :: 0 <= i < |events| && t.applied[i] ==> events[i].id.Some? && t.day == day
  }

  function Keys(actions: seq<Action>): set<(string, string)> {
    if actions == [] then {}
    else (if actions[0].id.Some? then {(actions[0].index, actions[0].id.value)} else {}) + Keys(actions[1..])
  }

  ghost predicate AgreeExcept(a: Store, b: Store, keys: set<(string, string)>) {
    a.auto == b.auto
    && forall k :: k !in keys ==>
         (k in a.docs <==> k in b.docs) && (k in a.docs && k in b.docs ==> a.docs[k] == b.docs[k])
  }

  lemma {:induction false} ApplyAllOverwrites(a: Store, b: Store, actions: seq<Action>)
    requires AgreeExcept(a, b, Keys(actions))
    ensures ApplyAll(a, actions) == ApplyAll(b, actions)
    decreases |actions|
  {
    if actions == [] {
      assert a.docs == b.docs;
    } else {
      ApplyAllOverwrites(ApplyOne(a, actions[0]), ApplyOne(b, actions[0]), actions[1..]);
    }
  }

  /** Actions that carry no id are left out; the rest touch only keys in `keys`. */
  lemma {:induction false} ApplySomeTouches(st: Store, actions: seq<Action>, applied: seq<bool>,
                                            keys: set<(string, string)>)
    requires |applied| == |actions|
    requires forall i :: 0 <= i < |actions| && applied[i] ==>
               actions[i].id.Some? && (actions[i].index, actions[i].id.value) in keys
    ensures AgreeExcept(ApplySome(st, actions, applied), st, keys)
    decreases |actions|
  {
    if actions != [] {
      var st' := if applied[0] then ApplyOne(st, actions[0]) else st;
      ApplySomeTouches(st', actions[1..], applied[1..], keys);
    }
  }

  lemma {:induction false} ActionsAt(prefix: string, day: string, events: seq<AuditEvent>, i: nat)
    requires i < |events|
    ensures Actions(prefix, day, events)[i] == ActionFor(prefix, day, events[i])
    ensures events[i].id.Some? ==> (IndexName(prefix, day), events[i].id.value) in Keys(Actions(prefix, day, events))
    decreases |events|
  {
    if i > 0 {
      ActionsAt(prefix, day, events[1..], i - 1);
    }
  }

  lemma {:induction false} FailuresTouch(prefix: string, st: Store, events: seq<AuditEvent>, tries: seq<FailedTry>,
                                         day: string)
    requires forall j :: 0 <= j < |tries| ==> |tries[j].applied| == |events|
    requires forall j :: 0 <= j < |tries| ==> Harmless(events, day, tries[j])
    ensures AgreeExcept(AfterFailures(prefix, st, events, tries), st, Keys(Actions(prefix, day, events)))
  {
    if tries != [] {
      var m := |tries| - 1;
      var keys := Keys(Actions(prefix, day, events));
      FailuresTouch(prefix, st, events, tries[..m], day);
      var before := AfterFailures(prefix, st, events, tries[..m]);
      var t := tries[m];
      forall i | 0 <= i < |events| && t.applied[i]
        ensures var a := Actions(prefix, t.day, events)[i]; a.id.Some? && (a.index, a.id.value) in keys
      {
        assert Harmless(events, day, t);
        ActionsAt(prefix, day, events, i);
      }
      ApplySomeTouches(before, Actions(prefix, t.day, events), t.applied, keys);
    }
  }

  /** Any number of partly applied attempts, then a success: as long as what they applied had ids and landed in
      the day's index, the indices are as after one clean write. Ids may even repeat. */
  lemma RetriesAreIdempotent(prefix: string, st: Store, events: seq<AuditEvent>, tries: seq<FailedTry>, day: string)
    requires forall j :: 0 <= j < |tries| ==> |tries[j].applied| == |events|
    requires forall j :: 0 <= j < |tries| ==> Harmless(events, day, tries[j])
    ensures ApplyAll(AfterFailures(prefix, st, events, tries), Actions(prefix, day, events))
         == ApplyAll(st, Actions(prefix, day, events))
  {
    FailuresTouch(prefix, st, events, tries, day);
    ApplyAllOverwrites(AfterFailures(prefix, st, events, tries), st, Actions(prefix, day, events));
  }

  // ---------------------------------------------------------------- and only then

  /** The events' ids are in none of the sink's indices yet. */
  ghost predicate NewIds(prefix: string, st: Store, events: seq<AuditEvent>) {
    forall day: string, i :: 0 <= i < |events| && events[i].id.Some?
      ==> (IndexName(prefix, day), events[i].id.value) !in st.docs
  }

  /** Nothing once written goes away. */
  ghost predicate Grows(a: Store, b: Store) {
    a.docs.Keys <= b.docs.Keys && |a.auto| <= |b.auto|
  }

  lemma {:induction false} ApplySomeGrows(st: Store, actions: seq<Action>, applied: seq<bool>)
    requires |applied| == |actions|
    ensures Grows(st, ApplySome(st, actions, applied))
    decreases |actions|
  {
    if actions != [] {
      ApplySomeGrows(if applied[0] then ApplyOne(st, actions[0]) else st, actions[1..], applied[1..]);
    }
  }

  lemma {:induction false} ApplySomeLeaves(st: Store, actions: seq<Action>, applied: seq<bool>, i: nat)
    requires |applied| == |actions| && i < |actions| && applied[i]
    ensures var st' := ApplySome(st, actions, applied);
            match actions[i].id
            case Some(id) => (actions[i].index, id) in st'.docs
            case None => |st'.auto| > |st.auto|
    decreases |actions|
  {
    var st1 := if applied[0] then ApplyOne(st, actions[0]) else st;
    if i == 0 {
      ApplySomeGrows(st1, actions[1..], applied[1..]);
    } else {
      ApplySomeLeaves(st1, actions[1..], applied[1..], i - 1);
    }
  }

  /** How many documents without an id a clean write adds. */
  function Anonymous(actions: seq<Action>): nat {
    if actions == [] then 0 else (if actions[0].id.None? then 1 else 0) + Anonymous(actions[1..])
  }

  lemma {:induction false} ApplyAllEffect(st: Store, actions: seq<Action>)
    ensures ApplyAll(st, actions).docs.Keys == st.docs.Keys + Keys(actions)
    ensures |ApplyAll(st, actions).auto| == |st.auto| + Anonymous(actions)
    decreases |actions|
  {
    if actions != [] {
      ApplyAllEffect(ApplyOne(st, actions[0]), actions[1..]);
    }
  }

  lemma {:induction false} FailuresLeave(prefix: string, st: Store, events: seq<AuditEvent>, tries: seq<FailedTry>,
                                         t: nat, i: nat)
    requires forall j :: 0 <= j < |tries| ==> |tries[j].applied| == |events|
    requires t < |tries| && i < |events| && tries[t].applied[i]
    ensures var st' := AfterFailures(prefix, st, events, tries);
            match events[i].id
            case Some(id) => (IndexName(prefix, tries[t].day), id) in st'.docs
            case None => |st'.auto| > |st.auto|
  {
    var m := |tries| - 1;
    var before := AfterFailures(prefix, st, events, tries[..m]);
    var actions := Actions(prefix, tries[m].day, events);
    ApplySomeGrows(before, actions, tries[m].applied);
    if t == m {
      ActionsAt(prefix, tries[m].day, events, i);
      FailuresGrow(prefix, st, events, tries[..m]);
      ApplySomeLeaves(before, actions, tries[m].applied, i);
    } else {
      FailuresLeave(prefix, st, events, tries[..m], t, i);
    }
  }

  lemma {:induction false} FailuresGrow(prefix: string, st: Store, events: seq<AuditEvent>, tries: seq<FailedTry>)
    requires forall j :: 0 <= j < |tries| ==> |tries[j].applied| == |events|
    ensures Grows(st, AfterFailures(prefix, st, events, tries))
  {
    if tries != [] {
      var m := |tries| - 1;
      FailuresGrow(prefix, st, events, tries[..m]);
      ApplySomeGrows(AfterFailures(prefix, st, events, tries[..m]), Actions(prefix, tries[m].day, events),
                     tries[m].applied);
    }
  }

  lemma {:induction false} CleanKeysAreToday(prefix: string, day: string, events: seq<AuditEvent>,
                                             key: (string, string))
    requires key in Keys(Actions(prefix, day, events))
    ensures key.0 == IndexName(prefix, day)
    decreases |events|
  {
    if key in Keys(Actions(prefix, day, events[1..])) {
      CleanKeysAreToday(prefix, day, events[1..], key);
    }
  }

  /** A failed try that was not harmless shows for ever: a second copy of an event without an id, or of an event
      written on another day. */
  lemma HarmShows(prefix: string, st: Store, events: seq<AuditEvent>, tries: seq<FailedTry>, day: string, t: nat,
                  i: nat)
    requires forall j :: 0 <= j < |tries| ==> |tries[j].applied| == |events|
    requires NewIds(prefix, st, events)
    requires t < |tries| && i < |events| && tries[t].applied[i] && (events[i].id.None? || tries[t].day != day)
    ensures ApplyAll(AfterFailures(prefix, st, events, tries), Actions(prefix, day, events))
         != ApplyAll(st, Actions(prefix, day, events))
  {
    var actions := Actions(prefix, day, events);
    var dirty := AfterFailures(prefix, st, events, tries);
    FailuresLeave(prefix, st, events, tries, t, i);
    ApplyAllEffect(dirty, actions);
    ApplyAllEffect(st, actions);
    if events[i].id.Some? {
      var key := (IndexName(prefix, tries[t].day), events[i].id.value);
      IndexNamesDiffer(prefix, tries[t].day, day);
      if key in Keys(actions) {
        CleanKeysAreToday(prefix, day, events, key);
      }
      assert key in dirty.docs.Keys && key !in st.docs.Keys;
    }
  }

  /** For new events, retries are invisible exactly when every failed try was harmless. */
  lemma IdempotentIffHarmless(prefix: string, st: Store, events: seq<AuditEvent>, tries: seq<FailedTry>, day: string)
    requires forall j :: 0 <= j < |tries| ==> |tries[j].applied| == |events|
    requires NewIds(prefix, st, events)
    ensures ApplyAll(AfterFailures(prefix, st, events, tries), Actions(prefix, day, events))
         == ApplyAll(st, Actions(prefix, day, events))
         <==> forall j :: 0 <= j < |tries| ==> Harmless(events, day, tries[j])
  {
    if forall j :: 0 <= j < |tries| ==> Harmless(events, day, tries[j]) {
      RetriesAreIdempotent(prefix, st, events, tries, day);
    } else {
      var t :| 0 <= t < |tries| && !Harmless(events, day, tries[t]);
      var i :| 0 <= i < |events| && tries[t].applied[i] && !(events[i].id.Some? && tries[t].day == day);
      HarmShows(prefix, st, events, tries, day, t, i);
    }
  }

  // ---------------------------------------------------------------- what a clean write leaves

  /** The last of the events that has this id. */
  function LastWith(events: seq<AuditEvent>, id: string): Option<AuditEvent> {
    if events == [] then None
    else
      var later := LastWith(events[1..], id);
      if later.Some? then later else if events[0].id == Some(id) then Some(events[0]) else None
  }

  /** The events without an id, in order. */
  function WithoutId(events: seq<AuditEvent>): seq<AuditEvent> {
    if events == [] then [] else (if events[0].id.None? then [events[0]] else []) + WithoutId(events[1..])
  }

  function InIndex(index: string, events: seq<AuditEvent>): seq<(string, AuditEvent)> {
    if events == [] then [] else [(index, events[0])] + InIndex(index, events[1..])
  }

  /** What a clean write leaves: in the index "<prefix>-<day>" and under its own id each event as it was submitted, the
      last one if an id repeats; the events without one added in order; and everything else as it was. */
  lemma {:induction false} WrittenReadsBack(prefix: string, st: Store, day: string, events: seq<AuditEvent>,
                                            index: string, id: string)
    ensures var st' := ApplyAll(st, Actions(prefix, day, events));
            && (index == prefix + "-" + day && LastWith(events, id).Some? ==>
                  (index, id) in st'.docs && st'.docs[(index, id)] == LastWith(events, id).value)
            && (index != prefix + "-" + day || LastWith(events, id).None? ==>
                  ((index, id) in st'.docs <==> (index, id) in st.docs)
                  && ((index, id) in st.docs ==> st'.docs[(index, id)] == st.docs[(index, id)]))
            && st'.auto == st.auto + InIndex(prefix + "-" + day, WithoutId(events))
    decreases |events|
  {
    if events != [] {
      var st1 := ApplyOne(st, ActionFor(prefix, day, events[0]));
      WrittenReadsBack(prefix, st1, day, events[1..], index, id);
      var rest := WithoutId(events[1..]);
      if events[0].id.None? {
        assert ([events[0]] + rest)[1..] == rest;
        assert InIndex(prefix + "-" + day, WithoutId(events))
            == [(prefix + "-" + day, events[0])] + InIndex(prefix + "-" + day, rest);
      } else {
        assert [] + rest == rest;
      }
    }
  }
}
