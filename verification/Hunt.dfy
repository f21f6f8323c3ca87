/** tools/hunt.py: the hunting grammar and its compilation. */
module Hunt {
  // Validation, compilation to an OpenSearch bool query, and what the query and its pages mean.

  import opened Prelude
  import opened Numerals

  datatype Scalar = Text(text: string) | Whole(n: int) | Fraction(x: real) | Flag(b: bool)

  datatype Value = One(v: Scalar) | Many(vs: seq<Scalar>)

  datatype Op = Eq | Ne | Gt | Gte | Lt | Lte | In | Exists | Prefix

  datatype HuntClause = HuntClause(field: string, op: Op, value: Value)

  /** `cursor` holds the sort values of the last hit; `None` and an empty list both mean no cursor. */
  datatype HuntQueryArgs = HuntQueryArgs(timeRange: string, must: seq<HuntClause>, mustNot: seq<HuntClause>,
                                         size: int, cursor: Option<seq<Scalar>>)

  // ---------------------------------------------------------------- validation

  const FIELD_ALLOWLIST: set<string> := {
    "agent.id", "agent.name", "agent.ip", "rule.id", "rule.level", "rule.groups", "rule.mitre.id",
    "rule.mitre.tactic", "location", "decoder.name", "full_log", "data.srcip", "data.dstip", "data.srcuser",
    "data.dstuser", "data.srcport", "data.dstport", "data.url", "data.hostname", "syscheck.path",
    "syscheck.sha256_after", "syscheck.md5_after", "timestamp", "@timestamp"}

  const MAX_CLAUSES := 20
  const MAX_IN_LENGTH := 100
  const MIN_PREFIX_LENGTH := 3
  const MAX_ALERT_SIZE := 100
  const MAX_LOOKBACK_SECONDS := 30 * 86400

  predicate ValidClause(c: HuntClause) {
    && c.field in FIELD_ALLOWLIST
    && match c.op
       case In => c.value.Many? && 1 <= |c.value.vs| <= MAX_IN_LENGTH
                  && forall i :: 0 <= i < |c.value.vs| ==> !c.value.vs[i].Flag?
       case Exists => c.value == One(Flag(true))
       case Prefix => c.value.One? && c.value.v.Text? && |c.value.v.text| >= MIN_PREFIX_LENGTH
       case _ => c.value.One?
  }

  predicate IsUnit(u: char) {
    u == 'm' || u == 'h' || u == 'd'
  }

  function UnitSeconds(u: char): nat
    requires IsUnit(u)
  {
    if u == 'm' then 60 else if u == 'h' then 3600 else 86400
  }

  /** The match of `^([1-9][0-9]*)([mhd])$`; in Python `$` also matches before a final newline. */
  function MatchTimeRange(tr: string): (r: Option<(nat, char)>)
    ensures r.Some? ==> IsUnit(r.value.1)
  {
    if tr == "" || !('1' <= tr[0] <= '9') then None
    else
      var (n, rest) := Decimal(tr, 0);
      if rest != "" && IsUnit(rest[0]) && (rest[1..] == "" || rest[1..] == "\n") then Some((n, rest[0])) else None
  }

  predicate ValidTimeRange(tr: string) {
    var m := MatchTimeRange(tr);
    m.Some? && m.value.0 * UnitSeconds(m.value.1) < MAX_LOOKBACK_SECONDS
  }

  predicate ValidArgs(args: HuntQueryArgs) {
    && ValidTimeRange(args.timeRange)
    && (forall i :: 0 <= i < |args.must| ==> ValidClause(args.must[i]))
    && (forall i :: 0 <= i < |args.mustNot| ==> ValidClause(args.mustNot[i]))
    && 1 <= |args.must| + |args.mustNot| <= MAX_CLAUSES
    && 1 <= args.size <= MAX_ALERT_SIZE
  }

  // ---------------------------------------------------------------- compilation

  datatype RangeKey = KeyGt | KeyGte | KeyLt | KeyLte

  /** The leaf queries. The time window is a range over the timestamp too; it stands apart because its bound is date
      math, which no clause of the grammar is made to write. */
  datatype Leaf = Term(field: string, value: Value)
                | Terms(field: string, value: Value)
                | FieldExists(field: string)
                | HasPrefix(field: string, value: Value)
                | Range(field: string, key: RangeKey, value: Value)
                | Since(bound: string)

  /** The request; an absent key is `None`. */
  datatype Dsl = Dsl(must: seq<Leaf>, mustNot: Option<seq<Leaf>>, size: int, sort: seq<(string, string)>,
                     source: seq<string>, terminateAfter: int, searchAfter: Option<seq<Scalar>>)

  const NEWEST_FIRST := [("@timestamp", "desc")]
  const TERMINATE_AFTER := 10000
  const DEFAULT_ALERT_FIELDS: seq<string> := [
    "timestamp", "@timestamp", "agent.id", "agent.name", "agent.ip", "rule.id", "rule.level", "rule.description",
    "rule.mitre.id", "rule.mitre.tactic", "location", "decoder.name"]

  function RenderClause(c: HuntClause): Leaf {
    match c.op
    case Eq => Term(c.field, c.value)
    case Ne => Term(c.field, c.value)
    case In => Terms(c.field, c.value)
    case Exists => FieldExists(c.field)
    case Prefix => HasPrefix(c.field, c.value)
    case Gt => Range(c.field, KeyGt, c.value)
    case Gte => Range(c.field, KeyGte, c.value)
    case Lt => Range(c.field, KeyLt, c.value)
    case Lte => Range(c.field, KeyLte, c.value)
  }

  /** The leaves of the clauses that are, or are not, negations. */
  function Leaves(cs: seq<HuntClause>, negated: bool): seq<Leaf> {
    if cs == [] then []
    else if (cs[|cs| - 1].op == Ne) == negated then Leaves(cs[..|cs| - 1], negated) + [RenderClause(cs[|cs| - 1])]
    else Leaves(cs[..|cs| - 1], negated)
  }

  function Positive(args: HuntQueryArgs): seq<Leaf> {
    [Since("now-" + args.timeRange)] + Leaves(args.must, false) + Leaves(args.mustNot, true)
  }

  function Negative(args: HuntQueryArgs): seq<Leaf> {
    Leaves(args.must, true) + Leaves(args.mustNot, false)
  }

  function Compiled(args: HuntQueryArgs): Dsl {
    Dsl(Positive(args), if Negative(args) == [] then None else Some(Negative(args)), args.size, NEWEST_FIRST,
        DEFAULT_ALERT_FIELDS, TERMINATE_AFTER, if args.cursor == Some([]) then None else args.cursor)
  }

  /** `_build_hunt_dsl`. */
  method BuildHuntDsl(args: HuntQueryArgs) returns (query: Dsl)
    ensures query == Compiled(args)
  {
    hide RenderClause;
    var must: seq<Leaf> := [Since("now-" + args.timeRange)];
    var mustNot: seq<Leaf> := [];
    for i := 0 to |args.must|
      invariant must == [Since("now-" + args.timeRange)] + Leaves(args.must[..i], false)
      invariant mustNot == Leaves(args.must[..i], true)
    {
      assert args.must[..i + 1][..i] == args.must[..i];
      if args.must[i].op == Ne {
        mustNot := mustNot + [RenderClause(args.must[i])];
      } else {
        must := must + [RenderClause(args.must[i])];
      }
    }
    assert args.must[..|args.must|] == args.must;
    for i := 0 to |args.mustNot|
      invariant must == [Since("now-" + args.timeRange)] + Leaves(args.must, false) + Leaves(args.mustNot[..i], true)
      invariant mustNot == Leaves(args.must, true) + Leaves(args.mustNot[..i], false)
    {
      assert args.mustNot[..i + 1][..i] == args.mustNot[..i];
      if args.mustNot[i].op == Ne {
        must := must + [RenderClause(args.mustNot[i])];
      } else {
        mustNot := mustNot + [RenderClause(args.mustNot[i])];
      }
    }
    assert args.mustNot[..|args.mustNot|] == args.mustNot;
    query := Dsl(must, None, args.size, NEWEST_FIRST, DEFAULT_ALERT_FIELDS, TERMINATE_AFTER, None);
    if mustNot != [] {
      query := query.(mustNot := Some(mustNot));
    }
    if args.cursor.Some? && args.cursor.value != [] {
      query := query.(searchAfter := args.cursor);
    }
  }

  lemma {:induction false} LeavesSplit(cs: seq<HuntClause>)
    ensures |Leaves(cs, false)| + |Leaves(cs, true)| == |cs|
  {
    if cs != [] {
      LeavesSplit(cs[..|cs| - 1]);
    }
  }

  /** No clause is lost or doubled: the query has one leaf for each, and one for the time window. */
  lemma LeafCount(args: HuntQueryArgs)
    ensures var q := Compiled(args);
            |q.must| + (if q.mustNot.None? then 0 else |q.mustNot.value|) == 1 + |args.must| + |args.mustNot|
  {
    LeavesSplit(args.must);
    LeavesSplit(args.mustNot);
  }

  // ---------------------------------------------------------------- what a query means

  /** How the index compares the values of a field, which values it can read for it, and whether it looks for prefixes
      in it; the mapping decides. */
  datatype Index = Index(equal: (string, Scalar, Scalar) -> bool, below: (string, Scalar, Scalar) -> bool,
                         canRead: (string, Scalar) -> bool, prefixable: string -> bool)

  /** A field holds any number of values. */
  datatype Doc = Doc(instant: int, fields: map<string, seq<Scalar>>)

  function ValuesOf(d: Doc, field: string): seq<Scalar> {
    if field in d.fields then d.fields[field] else []
  }

  /** Some value of the field is equal to `v`. */
  predicate AnyEqual(ix: Index, d: Doc, field: string, v: Scalar) {
    exists x :: x in ValuesOf(d, field) && ix.equal(field, x, v)
  }

  predicate InRange(ix: Index, field: string, key: RangeKey, x: Scalar, v: Scalar) {
    match key
    case KeyGt => ix.below(field, v, x)
    case KeyGte => ix.below(field, v, x) || ix.equal(field, x, v)
    case KeyLt => ix.below(field, x, v)
    case KeyLte => ix.below(field, x, v) || ix.equal(field, x, v)
  }

  predicate AnyInRange(ix: Index, d: Doc, field: string, key: RangeKey, v: Scalar) {
    exists x :: x in ValuesOf(d, field) && InRange(ix, field, key, x, v)
  }

  predicate AnyWithPrefix(d: Doc, field: string, p: string) {
    exists x :: x in ValuesOf(d, field) && x.Text? && p <= x.text
  }

  /** Date math of the form `now-<number><unit>`, in seconds. */
  function DateMath(s: string): Option<nat> {
    if |s| > 4 && s[..4] == "now-" && Digit(s[4]) then
      var (n, rest) := Decimal(s[4..], 0);
      if |rest| == 1 && IsUnit(rest[0]) then Some(n * UnitSeconds(rest[0])) else None
    else None
  }

  /** A leaf has one value where one is due, a list where a list is, and date math where that is due. */
  predicate Shaped(leaf: Leaf) {
    match leaf
    case Term(_, v) => v.One?
    case Terms(_, v) => v.Many?
    case FieldExists(_) => true
    case HasPrefix(_, v) => v.One? && v.v.Text?
    case Range(_, _, v) => v.One?
    case Since(bound) => DateMath(bound).Some?
  }

  predicate Holds(ix: Index, leaf: Leaf, d: Doc, now: int)
    requires Shaped(leaf)
  {
    match leaf
    case Term(f, v) => AnyEqual(ix, d, f, v.v)
    case Terms(f, v) => exists i :: 0 <= i < |v.vs| && AnyEqual(ix, d, f, v.vs[i])
    case FieldExists(f) => ValuesOf(d, f) != []
    case HasPrefix(f, v) => AnyWithPrefix(d, f, v.v.text)
    case Range(f, key, v) => AnyInRange(ix, d, f, key, v.v)
    case Since(bound) => d.instant >= now - DateMath(bound).value
  }

  predicate AllShaped(leaves: seq<Leaf>) {
    forall i :: 0 <= i < |leaves| ==> Shaped(leaves[i])
  }

  predicate AllHold(ix: Index, leaves: seq<Leaf>, d: Doc, now: int)
    requires AllShaped(leaves)
  {
    forall i :: 0 <= i < |leaves| ==> Holds(ix, leaves[i], d, now)
  }

  predicate NoneHolds(ix: Index, leaves: seq<Leaf>, d: Doc, now: int)
    requires AllShaped(leaves)
  {
    forall i :: 0 <= i < |leaves| ==> !Holds(ix, leaves[i], d, now)
  }

  /** The index can read every value of the leaf for its field. */
  predicate Readable(ix: Index, leaf: Leaf) {
    match leaf
    case Term(f, v) => v.One? && ix.canRead(f, v.v)
    case Terms(f, v) => v.Many? && forall i :: 0 <= i < |v.vs| ==> ix.canRead(f, v.vs[i])
    case FieldExists(_) => true
    case HasPrefix(f, _) => ix.prefixable(f)
    case Range(f, _, v) => v.One? && ix.canRead(f, v.v)
    case Since(_) => true
  }

  predicate AllReadable(ix: Index, leaves: seq<Leaf>) {
    forall i :: 0 <= i < |leaves| ==> Readable(ix, leaves[i])
  }

  /** Whether the bool query matches the document; `None` when the index refuses the search. */
  function Search(ix: Index, q: Dsl, d: Doc, now: int): Option<bool> {
    var mustNot := if q.mustNot.None? then [] else q.mustNot.value;
    if AllShaped(q.must) && AllShaped(mustNot) && AllReadable(ix, q.must) && AllReadable(ix, mustNot)
    then Some(AllHold(ix, q.must, d, now) && NoneHolds(ix, mustNot, d, now))
    else None
  }

  // ---------------------------------------------------------------- what the arguments mean

  /** One clause as its author means it; `ne` says that no value of the field is equal. */
  predicate Satisfies(ix: Index, c: HuntClause, d: Doc)
    requires ValidClause(c)
  {
    match c.op
    case Eq => AnyEqual(ix, d, c.field, c.value.v)
    case Ne => !AnyEqual(ix, d, c.field, c.value.v)
    case In => exists i :: 0 <= i < |c.value.vs| && AnyEqual(ix, d, c.field, c.value.vs[i])
    case Exists => ValuesOf(d, c.field) != []
    case Prefix => AnyWithPrefix(d, c.field, c.value.v.text)
    case Gt => AnyInRange(ix, d, c.field, KeyGt, c.value.v)
    case Gte => AnyInRange(ix, d, c.field, KeyGte, c.value.v)
    case Lt => AnyInRange(ix, d, c.field, KeyLt, c.value.v)
    case Lte => AnyInRange(ix, d, c.field, KeyLte, c.value.v)
  }

  predicate ValidClauses(cs: seq<HuntClause>) {
    forall i :: 0 <= i < |cs| ==> ValidClause(cs[i])
  }

  predicate SatisfiesAll(ix: Index, cs: seq<HuntClause>, d: Doc)
    requires ValidClauses(cs)
  {
    forall i :: 0 <= i < |cs| ==> Satisfies(ix, cs[i], d)
  }

  predicate SatisfiesNone(ix: Index, cs: seq<HuntClause>, d: Doc)
    requires ValidClauses(cs)
  {
    forall i :: 0 <= i < |cs| ==> !Satisfies(ix, cs[i], d)
  }

  function WindowSeconds(tr: string): nat
    requires MatchTimeRange(tr).Some?
  {
    MatchTimeRange(tr).value.0 * UnitSeconds(MatchTimeRange(tr).value.1)
  }

  /** The index can read the clause's value for the clause's field. */
  predicate ReadableClause(ix: Index, c: HuntClause)
    requires ValidClause(c)
  {
    match c.op
    case Exists => true
    case Prefix => ix.prefixable(c.field)
    case In => forall i :: 0 <= i < |c.value.vs| ==> ix.canRead(c.field, c.value.vs[i])
    case _ => ix.canRead(c.field, c.value.v)
  }

  predicate ReadableClauses(ix: Index, cs: seq<HuntClause>)
    requires ValidClauses(cs)
  {
    forall i :: 0 <= i < |cs| ==> ReadableClause(ix, cs[i])
  }

  /** In the time window, all of `must`, none of `must_not`. */
  predicate Meant(ix: Index, args: HuntQueryArgs, d: Doc, now: int)
    requires ValidArgs(args)
  {
    && d.instant >= now - WindowSeconds(args.timeRange)
    && SatisfiesAll(ix, args.must, d) && SatisfiesNone(ix, args.mustNot, d)
  }

  // ---------------------------------------------------------------- time ranges

  lemma DigitAppended(acc: nat, c: char)
    requires acc >= 1 && Digit(c)
    ensures Digits(10 * acc + (c as int - '0' as int)) == Digits(acc) + [c]
  {
    var d := c as int - '0' as int;
    assert (10 * acc + d) / 10 == acc && (10 * acc + d) % 10 == d;
  }

  lemma {:induction false} DecimalSpells(s: string, acc: nat)
    requires acc >= 1
    ensures var (n, rest) := Decimal(s, acc);
            Digits(acc) + s == Digits(n) + rest && n >= acc && (rest == "" || !Digit(rest[0]))
  {
    hide Digits;
    if s != "" && Digit(s[0]) {
      var d := s[0] as int - '0' as int;
      DecimalSpells(s[1..], 10 * acc + d);
      DigitAppended(acc, s[0]);
      assert Digits(acc) + s == (Digits(acc) + [s[0]]) + s[1..];
    }
  }

  /** A positive number, a unit, and possibly a newline: the pattern accepts nothing else. */
  lemma TimeRangeSpelling(tr: string, n: nat, u: char)
    ensures MatchTimeRange(tr) == Some((n, u))
       <==> n >= 1 && IsUnit(u) && (tr == Digits(n) + [u] || tr == Digits(n) + [u] + "\n")
  {
    if MatchTimeRange(tr) == Some((n, u)) {
      var d := tr[0] as int - '0' as int;
      assert Digits(d) == [tr[0]];
      DecimalSpells(tr[1..], d);
      assert tr == Digits(d) + tr[1..];
      var rest := Decimal(tr, 0).1;
      assert tr == Digits(n) + rest && rest == [rest[0]] + rest[1..];
    }
    if n >= 1 && IsUnit(u) && (tr == Digits(n) + [u] || tr == Digits(n) + [u] + "\n") {
      var rest := if tr == Digits(n) + [u] then [u] else [u] + "\n";
      assert tr == Digits(n) + rest;
      DecimalReads(n, rest);
      DigitsStart(n);
      DecimalStops(rest, n);
    }
  }

  lemma {:induction false} DigitsStart(n: nat)
    requires n >= 1
    ensures Digits(n) != "" && '1' <= Digits(n)[0] <= '9'
  {
    if n >= 10 {
      DigitsStart(n / 10);
    }
  }

  predicate EndsInNewline(s: string) {
    s != "" && s[|s| - 1] == '\n'
  }

  /** The index reads the bound of the window as the validator read the range, unless a newline came along. */
  lemma WindowBoundReads(tr: string)
    requires MatchTimeRange(tr).Some?
    ensures DateMath("now-" + tr) == if EndsInNewline(tr) then None else Some(WindowSeconds(tr))
  {
    var (n, u) := MatchTimeRange(tr).value;
    TimeRangeSpelling(tr, n, u);
    var s := "now-" + tr;
    assert s[..4] == "now-" && s[4..] == tr && s[4] == tr[0];
    var rest := if tr == Digits(n) + [u] then [u] else [u] + "\n";
    assert tr == Digits(n) + rest && tr[|tr| - 1] == rest[|rest| - 1];
    DecimalReads(n, rest);
    DecimalStops(rest, n);
  }

  // ---------------------------------------------------------------- compilation preserves meaning

  /** A leaf means its clause; for `ne` it means the opposite. */
  lemma LeafMeansClause(ix: Index, c: HuntClause, d: Doc, now: int)
    requires ValidClause(c)
    ensures Shaped(RenderClause(c))
    ensures Holds(ix, RenderClause(c), d, now) <==> (Satisfies(ix, c, d) <==> c.op != Ne)
  {
  }

  lemma AllHoldConcat(ix: Index, a: seq<Leaf>, b: seq<Leaf>, d: Doc, now: int)
    ensures AllShaped(a + b) <==> AllShaped(a) && AllShaped(b)
    ensures AllShaped(a + b) ==> (AllHold(ix, a + b, d, now) <==> AllHold(ix, a, d, now) && AllHold(ix, b, d, now))
    ensures AllShaped(a + b)
        ==> (NoneHolds(ix, a + b, d, now) <==> NoneHolds(ix, a, d, now) && NoneHolds(ix, b, d, now))
  {
    hide Holds, Shaped;
    var ab := a + b;
    assert forall i :: 0 <= i < |a| ==> ab[i] == a[i];
    assert forall i :: 0 <= i < |b| ==> ab[|a| + i] == b[i];
  }

  lemma OneLeaf(ix: Index, leaf: Leaf, d: Doc, now: int)
    ensures AllShaped([leaf]) <==> Shaped(leaf)
    ensures Shaped(leaf) ==> (AllHold(ix, [leaf], d, now) <==> Holds(ix, leaf, d, now))
    ensures Shaped(leaf) ==> (NoneHolds(ix, [leaf], d, now) <==> !Holds(ix, leaf, d, now))
  {
    hide Holds, Shaped;
    assert [leaf][0] == leaf;
  }

  lemma LastClause(ix: Index, front: seq<HuntClause>, last: HuntClause, d: Doc)
    requires ValidClauses(front) && ValidClause(last)
    ensures ValidClauses(front + [last])
    ensures SatisfiesAll(ix, front + [last], d) <==> SatisfiesAll(ix, front, d) && Satisfies(ix, last, d)
    ensures SatisfiesNone(ix, front + [last], d) <==> SatisfiesNone(ix, front, d) && !Satisfies(ix, last, d)
  {
    hide Satisfies, ValidClause;
    var cs := front + [last];
    assert forall i :: 0 <= i < |front| ==> cs[i] == front[i];
    assert cs[|front|] == last;
  }

  lemma {:induction false} LeavesMeanClauses(ix: Index, cs: seq<HuntClause>, d: Doc, now: int)
    requires ValidClauses(cs)
    ensures AllShaped(Leaves(cs, false)) && AllShaped(Leaves(cs, true))
    ensures SatisfiesAll(ix, cs, d)
       <==> AllHold(ix, Leaves(cs, false), d, now) && NoneHolds(ix, Leaves(cs, true), d, now)
    ensures SatisfiesNone(ix, cs, d)
       <==> NoneHolds(ix, Leaves(cs, false), d, now) && AllHold(ix, Leaves(cs, true), d, now)
  {
    hide Holds, Shaped, Satisfies, ValidClause, AllShaped, AllHold, NoneHolds, SatisfiesAll, SatisfiesNone;
    if cs == [] {
      NothingToHold(ix, d, now);
    } else {
      var front, last := cs[..|cs| - 1], cs[|cs| - 1];
      var leaf := RenderClause(last);
      assert cs == front + [last];
      LeavesMeanClauses(ix, front, d, now);
      LastClause(ix, front, last, d);
      LeafMeansClause(ix, last, d, now);
      OneLeaf(ix, leaf, d, now);
      AllHoldConcat(ix, Leaves(front, last.op == Ne), [leaf], d, now);
    }
  }

  lemma NothingToHold(ix: Index, d: Doc, now: int)
    ensures AllShaped([]) && AllHold(ix, [], d, now) && NoneHolds(ix, [], d, now)
    ensures ValidClauses([]) && SatisfiesAll(ix, [], d) && SatisfiesNone(ix, [], d)
  {
  }

  lemma ReadableConcat(ix: Index, a: seq<Leaf>, b: seq<Leaf>)
    ensures AllReadable(ix, a + b) <==> AllReadable(ix, a) && AllReadable(ix, b)
  {
    hide Readable;
    var ab := a + b;
    assert forall i :: 0 <= i < |a| ==> ab[i] == a[i];
    assert forall i :: 0 <= i < |b| ==> ab[|a| + i] == b[i];
  }

  lemma OneReadable(ix: Index, c: HuntClause)
    requires ValidClause(c)
    ensures AllReadable(ix, [RenderClause(c)]) <==> ReadableClause(ix, c)
  {
    assert [RenderClause(c)][0] == RenderClause(c);
  }

  lemma {:induction false} LeavesReadable(ix: Index, cs: seq<HuntClause>)
    requires ValidClauses(cs)
    ensures AllReadable(ix, Leaves(cs, false)) && AllReadable(ix, Leaves(cs, true)) <==> ReadableClauses(ix, cs)
  {
    hide Readable, ReadableClause, ValidClause;
    if cs != [] {
      var front, last := cs[..|cs| - 1], cs[|cs| - 1];
      LeavesReadable(ix, front);
      OneReadable(ix, last);
      ReadableConcat(ix, Leaves(front, last.op == Ne), [RenderClause(last)]);
      assert cs == front + [last];
      assert ReadableClauses(ix, cs) <==> ReadableClauses(ix, front) && ReadableClause(ix, last);
    }
  }

  lemma LeavesOfTheQuery(ix: Index, args: HuntQueryArgs)
    requires ValidArgs(args)
    ensures AllReadable(ix, Positive(args)) && AllReadable(ix, Negative(args))
       <==> ReadableClauses(ix, args.must) && ReadableClauses(ix, args.mustNot)
  {
    hide ReadableClause, ValidClause, Leaves;
    var since := [Since("now-" + args.timeRange)];
    LeavesReadable(ix, args.must);
    LeavesReadable(ix, args.mustNot);
    ReadableConcat(ix, since, Leaves(args.must, false));
    ReadableConcat(ix, since + Leaves(args.must, false), Leaves(args.mustNot, true));
    ReadableConcat(ix, Leaves(args.must, true), Leaves(args.mustNot, false));
  }

  /** The emitted query matches a document exactly when the arguments mean it to. The index refuses the search of valid
      arguments exactly when their time range ends in a newline or it cannot read some clause's value for its field. */
  lemma CompilationPreservesMeaning(ix: Index, args: HuntQueryArgs, d: Doc, now: int)
    requires ValidArgs(args)
    ensures Search(ix, Compiled(args), d, now)
         == if EndsInNewline(args.timeRange) || !ReadableClauses(ix, args.must) || !ReadableClauses(ix, args.mustNot)
            then None else Some(Meant(ix, args, d, now))
  {
    hide Holds, Shaped, Satisfies, ValidClause, Leaves, DateMath, AllHold, NoneHolds, AllShaped, AllReadable,
      ReadableClause, ReadableClauses;
    var since := [Since("now-" + args.timeRange)];
    WindowBoundReads(args.timeRange);
    SinceMeans(ix, "now-" + args.timeRange, d, now);
    LeavesOfTheQuery(ix, args);
    LeavesMeanClauses(ix, args.must, d, now);
    LeavesMeanClauses(ix, args.mustNot, d, now);
    AllHoldConcat(ix, since, Leaves(args.must, false), d, now);
    AllHoldConcat(ix, since + Leaves(args.must, false), Leaves(args.mustNot, true), d, now);
    AllHoldConcat(ix, Leaves(args.must, true), Leaves(args.mustNot, false), d, now);
  }

  lemma SinceMeans(ix: Index, bound: string, d: Doc, now: int)
    ensures AllShaped([Since(bound)]) <==> DateMath(bound).Some?
    ensures DateMath(bound).Some?
        ==> (AllHold(ix, [Since(bound)], d, now) <==> d.instant >= now - DateMath(bound).value)
  {
    hide DateMath;
    var s := [Since(bound)];
    assert Shaped(s[0]) <==> DateMath(bound).Some?;
  }

  function Unterminated(s: string): string {
    if EndsInNewline(s) then s[..|s| - 1] else s
  }

  lemma ThirtyDaysSpelled()
    ensures Digits(30) == "30" && Digits(720) == "720" && Digits(43200) == "43200"
  {
    assert Digits(72) == "72";
    assert Digits(43) == "43" && Digits(432) == "432" && Digits(4320) == "4320";
  }

  lemma SpelledAsThirtyDays(tr: string)
    requires Unterminated(tr) in {"30d", "720h", "43200m"}
    ensures MatchTimeRange(tr) in {Some((30, 'd')), Some((720, 'h')), Some((43200, 'm'))}
  {
    hide Digits, MatchTimeRange;
    ThirtyDaysSpelled();
    if EndsInNewline(tr) {
      assert tr == Unterminated(tr) + "\n";
    }
    TimeRangeSpelling(tr, 30, 'd');
    TimeRangeSpelling(tr, 720, 'h');
    TimeRangeSpelling(tr, 43200, 'm');
  }

  lemma UnterminatedSpelling(tr: string, n: nat, u: char)
    requires MatchTimeRange(tr) == Some((n, u))
    ensures Unterminated(tr) == Digits(n) + [u]
  {
    hide Digits, MatchTimeRange;
    TimeRangeSpelling(tr, n, u);
  }

  /** Thirty days are promised ("up to 30d"): of the ranges up to that length, exactly the three spellings of thirty
      days are refused. */
  lemma ThirtyDaysAreRefused(tr: string)
    ensures MatchTimeRange(tr).Some? && WindowSeconds(tr) <= MAX_LOOKBACK_SECONDS && !ValidTimeRange(tr)
       <==> Unterminated(tr) in {"30d", "720h", "43200m"}
  {
    hide Digits, MatchTimeRange, Unterminated;
    ThirtyDaysSpelled();
    if Unterminated(tr) in {"30d", "720h", "43200m"} {
      SpelledAsThirtyDays(tr);
    } else if MatchTimeRange(tr).Some? {
      var (n, u) := MatchTimeRange(tr).value;
      UnterminatedSpelling(tr, n, u);
      assert "30" + ['d'] == "30d" && "720" + ['h'] == "720h" && "43200" + ['m'] == "43200m";
    }
  }

  // ---------------------------------------------------------------- pages

  /** A document and the values it is sorted by. */
  datatype Hit = Hit(doc: Doc, place: seq<Scalar>)

  function Take<T>(s: seq<T>, n: int): seq<T>
    requires n >= 0
  {
    if |s| <= n then s else s[..n]
  }

  /** How the index orders sort values, for a sort clause: whether the first come later than the second. */
  type Order = seq<(string, string)> -> (seq<Scalar>, seq<Scalar>) -> bool

  /** The hits that match the query and come after its cursor. */
  function Matching(ix: Index, order: Order, q: Dsl, hits: seq<Hit>, now: int): seq<Hit> {
    if hits == [] then []
    else
      var rest := Matching(ix, order, q, hits[1..], now);
      if Search(ix, q, hits[0].doc, now) == Some(true)
         && (q.searchAfter.None? || order(q.sort)(hits[0].place, q.searchAfter.value))
      then [hits[0]] + rest else rest
  }

  /** What the index returns of the hits in sorted order. */
  function Page(ix: Index, order: Order, q: Dsl, hits: seq<Hit>, now: int): seq<Hit>
    requires q.size >= 0
  {
    Take(Matching(ix, order, q, hits, now), q.size)
  }

  /** The hits that the arguments mean, cursor and size aside. */
  function MeantHits(ix: Index, args: HuntQueryArgs, hits: seq<Hit>, now: int): seq<Hit>
    requires ValidArgs(args)
  {
    if hits == [] then []
    else (if Meant(ix, args, hits[0].doc, now) then [hits[0]] else []) + MeantHits(ix, args, hits[1..], now)
  }

  function After(later: (seq<Scalar>, seq<Scalar>) -> bool, hits: seq<Hit>, place: seq<Scalar>): seq<Hit> {
    if hits == [] then []
    else (if later(hits[0].place, place) then [hits[0]] else []) + After(later, hits[1..], place)
  }

  /** The search of valid arguments that the index does not refuse. */
  predicate Accepted(ix: Index, args: HuntQueryArgs)
    requires ValidArgs(args)
  {
    !EndsInNewline(args.timeRange) && ReadableClauses(ix, args.must) && ReadableClauses(ix, args.mustNot)
  }

  lemma {:induction false} MatchingIsMeant(ix: Index, order: Order, args: HuntQueryArgs, hits: seq<Hit>, now: int)
    requires ValidArgs(args) && Accepted(ix, args)
    ensures var meant, later := MeantHits(ix, args, hits, now), order([("@timestamp", "desc")]);
            Matching(ix, order, Compiled(args), hits, now)
            == if args.cursor.None? || args.cursor.value == [] then meant else After(later, meant, args.cursor.value)
    decreases |hits|
  {
    hide Search, Meant, Accepted, ReadableClauses, Leaves, Positive, Negative;
    if hits != [] {
      CompilationPreservesMeaning(ix, args, hits[0].doc, now);
      AcceptedMeans(ix, args);
      MatchingIsMeant(ix, order, args, hits[1..], now);
      AfterNext(order([("@timestamp", "desc")]), hits[0], MeantHits(ix, args, hits[1..], now),
                if args.cursor.Some? then args.cursor.value else []);
    }
  }

  lemma AcceptedMeans(ix: Index, args: HuntQueryArgs)
    requires ValidArgs(args)
    ensures Accepted(ix, args) ==> !EndsInNewline(args.timeRange)
    ensures Accepted(ix, args) ==> ReadableClauses(ix, args.must) && ReadableClauses(ix, args.mustNot)
  {
  }

  lemma AfterNext(later: (seq<Scalar>, seq<Scalar>) -> bool, h: Hit, rest: seq<Hit>, place: seq<Scalar>)
    ensures After(later, [h] + rest, place) == (if later(h.place, place) then [h] else []) + After(later, rest, place)
    ensures [] + rest == rest
  {
    assert ([h] + rest)[1..] == rest;
  }

  /** A page holds the first `size` of the meant hits, and with a cursor the first `size` of those after it. */
  lemma PageHolds(ix: Index, order: Order, args: HuntQueryArgs, hits: seq<Hit>, now: int)
    requires ValidArgs(args) && Accepted(ix, args)
    ensures var meant, later := MeantHits(ix, args, hits, now), order([("@timestamp", "desc")]);
            Page(ix, order, Compiled(args), hits, now)
            == Take(if args.cursor.None? || args.cursor.value == [] then meant
                    else After(later, meant, args.cursor.value), args.size)
  {
    hide Accepted, Matching, MeantHits, Leaves, Positive, Negative;
    MatchingIsMeant(ix, order, args, hits, now);
  }

  /** A sort order, in which different hits may tie. */
  ghost predicate WeakOrder(later: (seq<Scalar>, seq<Scalar>) -> bool) {
    && (forall a, b :: later(a, b) ==> !later(b, a))
    && (forall a, b, c :: later(a, c) ==> later(a, b) || later(b, c))
  }

  /** Every hit has a place, and none comes after one that stands behind it. */
  predicate Sorted(later: (seq<Scalar>, seq<Scalar>) -> bool, hits: seq<Hit>) {
    && (forall i :: 0 <= i < |hits| ==> hits[i].place != [])
    && (forall i, j :: 0 <= i < j < |hits| ==> !later(hits[i].place, hits[j].place))
  }

  lemma SortedTail(later: (seq<Scalar>, seq<Scalar>) -> bool, hits: seq<Hit>)
    requires Sorted(later, hits) && hits != []
    ensures Sorted(later, hits[1..]) && hits[0].place != []
    ensures forall h :: h in hits[1..] ==> !later(hits[0].place, h.place)
  {
  }

  lemma SortedCons(later: (seq<Scalar>, seq<Scalar>) -> bool, h: Hit, rest: seq<Hit>)
    requires Sorted(later, rest) && h.place != [] && forall r :: r in rest ==> !later(h.place, r.place)
    ensures Sorted(later, [h] + rest)
  {
  }

  lemma {:induction false} MeantAreSorted(ix: Index, later: (seq<Scalar>, seq<Scalar>) -> bool, args: HuntQueryArgs,
                                          hits: seq<Hit>, now: int)
    requires ValidArgs(args) && Sorted(later, hits)
    ensures Sorted(later, MeantHits(ix, args, hits, now))
    ensures forall h :: h in MeantHits(ix, args, hits, now) ==> h in hits
    decreases |hits|
  {
    hide Meant, ValidArgs, Sorted;
    if hits == [] {
      NothingIsSorted(later);
    } else {
      var rest := MeantHits(ix, args, hits[1..], now);
      SortedTail(later, hits);
      MeantAreSorted(ix, later, args, hits[1..], now);
      SortedCons(later, hits[0], rest);
      assert [] + rest == rest;
    }
  }

  lemma NothingIsSorted(later: (seq<Scalar>, seq<Scalar>) -> bool)
    ensures Sorted(later, [])
  {
  }

  lemma {:induction false} AllAfter(later: (seq<Scalar>, seq<Scalar>) -> bool, hits: seq<Hit>, place: seq<Scalar>)
    requires forall i :: 0 <= i < |hits| ==> later(hits[i].place, place)
    ensures After(later, hits, place) == hits
    decreases |hits|
  {
    if hits != [] {
      AllAfter(later, hits[1..], place);
      assert hits == [hits[0]] + hits[1..];
    }
  }

  /** Once the next entry comes after, all entries do. */
  lemma AllLater(later: (seq<Scalar>, seq<Scalar>) -> bool, hits: seq<Hit>, i: nat)
    requires WeakOrder(later) && Sorted(later, hits) && 1 <= i < |hits| && later(hits[1].place, hits[0].place)
    ensures later(hits[i].place, hits[0].place)
  {
    assert i > 1 ==> !later(hits[1].place, hits[i].place);
  }

  lemma AfterTheFirst(later: (seq<Scalar>, seq<Scalar>) -> bool, hits: seq<Hit>)
    requires WeakOrder(later) && Sorted(later, hits) && hits != []
    requires 1 < |hits| ==> later(hits[1].place, hits[0].place)
    ensures After(later, hits, hits[0].place) == hits[1..]
  {
    forall i | 0 <= i < |hits| - 1
      ensures later(hits[1..][i].place, hits[0].place)
    {
      hide WeakOrder, Sorted;
      AllLater(later, hits, i + 1);
    }
    AllAfter(later, hits[1..], hits[0].place);
    assert !later(hits[0].place, hits[0].place);
  }

  /** In a sorted list, what comes after the place of entry `k` is the rest of the list, if its next entry does. */
  lemma {:induction false} AfterIsTheRest(later: (seq<Scalar>, seq<Scalar>) -> bool, hits: seq<Hit>, k: nat)
    requires WeakOrder(later) && Sorted(later, hits) && k < |hits|
    requires k + 1 < |hits| ==> later(hits[k + 1].place, hits[k].place)
    ensures After(later, hits, hits[k].place) == hits[k + 1..]
    decreases |hits|
  {
    hide WeakOrder, Sorted;
    if k == 0 {
      AfterTheFirst(later, hits);
    } else {
      SortedTail(later, hits);
      assert hits[k] in hits[1..] by {
        assert hits[1..][k - 1] == hits[k];
      }
      AfterIsTheRest(later, hits[1..], k - 1);
      assert hits[1..][k..] == hits[k + 1..];
    }
  }

  lemma {:induction false} AfterComesAfter(later: (seq<Scalar>, seq<Scalar>) -> bool, hits: seq<Hit>,
                                           place: seq<Scalar>)
    ensures forall h :: h in After(later, hits, place) ==> later(h.place, place)
    decreases |hits|
  {
    if hits != [] {
      AfterComesAfter(later, hits[1..], place);
    }
  }

  /** Pages that go on from the last hit of the page before are meant to cut the hits up. After `k + 1` hits the next
      page begins with the next one exactly if that hit does not tie with the last: the sort is by timestamp alone, and
      hits that share the last one's are skipped. */
  lemma PagesFollowIff(ix: Index, order: Order, args: HuntQueryArgs, hits: seq<Hit>, now: int, k: nat)
    requires ValidArgs(args) && Accepted(ix, args)
    requires WeakOrder(order([("@timestamp", "desc")])) && Sorted(order([("@timestamp", "desc")]), hits)
    requires k < |MeantHits(ix, args, hits, now)|
    ensures var meant, later := MeantHits(ix, args, hits, now), order([("@timestamp", "desc")]);
            var next := args.(cursor := Some(meant[k].place));
            Page(ix, order, Compiled(next), hits, now) == Take(meant[k + 1..], args.size)
            <==> (k + 1 < |meant| ==> later(meant[k + 1].place, meant[k].place))
  {
    hide Page, Matching, Compiled, WeakOrder, MeantHits, Accepted;
    var meant, later := MeantHits(ix, args, hits, now), order([("@timestamp", "desc")]);
    var next := args.(cursor := Some(meant[k].place));
    MeantAreSorted(ix, later, args, hits, now);
    CursorMeansNothing(ix, args, next.cursor, hits, now);
    PageHolds(ix, order, next, hits, now);
    if k + 1 < |meant| ==> later(meant[k + 1].place, meant[k].place) {
      AfterIsTheRest(later, meant, k);
    } else {
      AfterComesAfter(later, meant, meant[k].place);
      assert Take(meant[k + 1..], args.size)[0] == meant[k + 1];
    }
  }

  lemma {:induction false} CursorMeansNothing(ix: Index, args: HuntQueryArgs, cursor: Option<seq<Scalar>>,
                                              hits: seq<Hit>, now: int)
    requires ValidArgs(args)
    ensures var next := args.(cursor := cursor);
            && ValidArgs(next) && (Accepted(ix, next) <==> Accepted(ix, args))
            && MeantHits(ix, next, hits, now) == MeantHits(ix, args, hits, now)
    decreases |hits|
  {
    if hits != [] {
      CursorMeansNothing(ix, args, cursor, hits[1..], now);
    }
  }

  // ---------------------------------------------------------------- the pivot preset

  datatype PivotKind = Hash | Ip | User | Domain

  function PrimaryField(kind: PivotKind): string {
    match kind
    case Hash => "syscheck.sha256_after"
    case Ip => "data.srcip"
    case User => "data.srcuser"
    case Domain => "data.hostname"
  }

  function PivotArgs(kind: PivotKind, value: string, timeRange: string, size: int,
                     cursor: Option<seq<Scalar>>): HuntQueryArgs {
    HuntQueryArgs(timeRange, [HuntClause(PrimaryField(kind), Eq, One(Text(value)))], [], size, cursor)
  }

  /** Only the time range of a pivot can be refused. */
  lemma PivotIsValid(kind: PivotKind, value: string, timeRange: string, size: int, cursor: Option<seq<Scalar>>)
    requires 1 <= size <= MAX_ALERT_SIZE
    ensures ValidArgs(PivotArgs(kind, value, timeRange, size, cursor)) <==> ValidTimeRange(timeRange)
  {
    assert ValidClause(PivotArgs(kind, value, timeRange, size, cursor).must[0]);
  }

  /** The preset finds the alerts of the window whose primary field holds the value, if the field can hold it. */
  lemma PivotMeans(ix: Index, kind: PivotKind, value: string, timeRange: string, size: int, cursor: Option<seq<Scalar>>,
                   d: Doc, now: int)
    requires 1 <= size <= MAX_ALERT_SIZE && ValidTimeRange(timeRange)
    ensures Search(ix, Compiled(PivotArgs(kind, value, timeRange, size, cursor)), d, now)
         == if EndsInNewline(timeRange) || !ix.canRead(PrimaryField(kind), Text(value)) then None
            else Some(d.instant >= now - WindowSeconds(timeRange) && AnyEqual(ix, d, PrimaryField(kind), Text(value)))
  {
    var args := PivotArgs(kind, value, timeRange, size, cursor);
    PivotIsValid(kind, value, timeRange, size, cursor);
    CompilationPreservesMeaning(ix, args, d, now);
    assert SatisfiesAll(ix, args.must, d) <==> Satisfies(ix, args.must[0], d);
    assert ReadableClauses(ix, args.must) <==> ReadableClause(ix, args.must[0]);
  }
}
