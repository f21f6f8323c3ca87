/** wazuh/rule_render.py: rule definitions, their validation, and their XML form, as a document and as the text that the
    renderer joins. */
module RuleXml {
  import opened Prelude
  import opened Numerals
  import opened XmlText
  import opened XmlReader

  datatype RuleOption = NoLog | AlertByEmail

  /** `fields` is the dictionary `field` in its iteration order. */
  datatype RuleDefinition = RuleDefinition(
    id: int,
    level: int,
    description: string,
    ifSid: Option<seq<int>>,
    ifMatchedSid: Option<int>,
    matchText: Option<string>,
    regex: Option<string>,
    decodedAs: Option<string>,
    fields: Option<seq<(string, string)>>,
    srcip: Option<string>,
    programName: Option<string>,
    groups: Option<seq<string>>,
    options: Option<seq<RuleOption>>
  )

  // ---------------------------------------------------------------- validation

  /** The character class the validator searches for. */
  predicate XmlIllegal(c: char) {
    var n := c as int;
    n <= 0x8 || n == 0xB || n == 0xC || 0xE <= n <= 0x1F || 0xD800 <= n <= 0xDFFF || n == 0xFFFE || n == 0xFFFF
  }

  predicate Clean(s: string) {
    forall i :: 0 <= i < |s| ==> !XmlIllegal(s[i])
  }

  predicate CleanOption(o: Option<string>) {
    o.Some? ==> Clean(o.value)
  }

  predicate CleanFields(fs: seq<(string, string)>) {
    forall i :: 0 <= i < |fs| ==> Clean(fs[i].0) && Clean(fs[i].1)
  }

  predicate CleanGroups(gs: seq<string>) {
    forall i :: 0 <= i < |gs| ==> Clean(gs[i])
  }

  predicate NoCommas(gs: seq<string>) {
    forall i :: 0 <= i < |gs| ==> ',' !in gs[i]
  }

  /** The characters half of `_check_xml_legal_chars`. */
  predicate LegalTexts(r: RuleDefinition) {
    && Clean(r.description) && CleanOption(r.matchText) && CleanOption(r.regex) && CleanOption(r.decodedAs)
    && CleanOption(r.srcip) && CleanOption(r.programName)
    && (r.fields.Some? ==> CleanFields(r.fields.value))
    && (r.groups.Some? ==> CleanGroups(r.groups.value))
  }

  /** Its other half. */
  predicate WholeGroups(r: RuleDefinition) {
    r.groups.Some? ==> NoCommas(r.groups.value)
  }

  const CUSTOM_RULE_ID_MIN := 100000
  const CUSTOM_RULE_ID_MAX := 999999

  /** What the constructor accepts; `compiles` stands for `re.compile`. Keys of a dictionary are distinct. */
  predicate Valid(r: RuleDefinition, compiles: string -> bool) {
    && CUSTOM_RULE_ID_MIN <= r.id <= CUSTOM_RULE_ID_MAX && 0 <= r.level <= 15
    && 1 <= |r.description| <= 512
    && (r.regex.Some? ==> compiles(r.regex.value))
    && (r.fields.Some? ==> forall i, j :: 0 <= i < j < |r.fields.value| ==> r.fields.value[i].0 != r.fields.value[j].0)
    && LegalTexts(r) && WholeGroups(r)
  }

  // ---------------------------------------------------------------- small texts

  function Strs(ns: seq<int>): (r: seq<string>)
    ensures |r| == |ns| && forall i :: 0 <= i < |ns| ==> r[i] == Str(ns[i])
  {
    if ns == [] then [] else [Str(ns[0])] + Strs(ns[1..])
  }

  /** `sep.join(parts)`. */
  function Join(sep: string, parts: seq<string>): string
    decreases |parts|
  {
    if parts == [] then "" else if |parts| == 1 then parts[0] else parts[0] + sep + Join(sep, parts[1..])
  }

  function GroupText(gs: seq<string>): string {
    Join(",", gs) + ","
  }

  function OptionText(o: RuleOption): string {
    match o
    case NoLog => "no_log"
    case AlertByEmail => "alert_by_email"
  }

  // ---------------------------------------------------------------- the document of a rule

  function TextElement(tag: string, text: Option<string>): seq<Element> {
    if text.None? then [] else [Element(tag, [], text.value)]
  }

  function FieldElement(f: (string, string)): Element {
    Element("field", [Attr("name", f.0)], f.1)
  }

  function FieldElements(fs: seq<(string, string)>): (r: seq<Element>)
    ensures |r| == |fs| && forall i :: 0 <= i < |fs| ==> r[i] == FieldElement(fs[i])
  {
    if fs == [] then [] else [FieldElement(fs[0])] + FieldElements(fs[1..])
  }

  function OptionElement(o: RuleOption): Element {
    Element("options", [], OptionText(o))
  }

  function OptionElements(os: seq<RuleOption>): (r: seq<Element>)
    ensures |r| == |os| && forall i :: 0 <= i < |os| ==> r[i] == OptionElement(os[i])
  {
    if os == [] then [] else [OptionElement(os[0])] + OptionElements(os[1..])
  }

  function OrNothing<T>(o: Option<seq<T>>): seq<T> {
    if o.None? then [] else o.value
  }

  function SidsText(r: RuleDefinition): Option<string> {
    if r.ifSid.None? then None else Some(Join(", ", Strs(r.ifSid.value)))
  }

  function MatchedSidText(r: RuleDefinition): Option<string> {
    if r.ifMatchedSid.None? then None else Some(Str(r.ifMatchedSid.value))
  }

  function GroupsText(r: RuleDefinition): Option<string> {
    if r.groups.None? then None else Some(GroupText(r.groups.value))
  }

  /** The children from one tag on, last tag first. */
  function FromGroup(r: RuleDefinition): seq<Element> {
    TextElement("group", GroupsText(r)) + OptionElements(OrNothing(r.options))
  }

  function FromSrcip(r: RuleDefinition): seq<Element> {
    TextElement("srcip", r.srcip) + (TextElement("program_name", r.programName) + FromGroup(r))
  }

  function FromField(r: RuleDefinition): seq<Element> {
    FieldElements(OrNothing(r.fields)) + FromSrcip(r)
  }

  function FromMatch(r: RuleDefinition): seq<Element> {
    TextElement("match", r.matchText)
    + (TextElement("regex", r.regex) + (TextElement("decoded_as", r.decodedAs) + FromField(r)))
  }

  function Children(r: RuleDefinition): seq<Element> {
    TextElement("description", Some(r.description))
    + (TextElement("if_sid", SidsText(r)) + (TextElement("if_matched_sid", MatchedSidText(r)) + FromMatch(r)))
  }

  function RuleAttrs(r: RuleDefinition): seq<Attr> {
    [Attr("id", Str(r.id)), Attr("level", Str(r.level))]
  }

  function ToDocument(r: RuleDefinition): Document {
    Document("rule", RuleAttrs(r), Children(r))
  }

  // ---------------------------------------------------------------- rendering

  function El(tag: string, text: string): string {
    "<" + tag + ">" + Escape(text) + "</" + tag + ">"
  }

  function ElWithAttr(tag: string, attrName: string, attrValue: string, text: string): string {
    "<" + tag + " " + attrName + "=" + QuoteAttr(attrValue) + ">" + Escape(text) + "</" + tag + ">"
  }

  lemma ElPrints(tag: string, text: string)
    ensures El(tag, text) == PrintElement(Element(tag, [], text))
  {
    hide Escape;
    assert PrintAttrs([]) == "";
  }

  lemma ElWithAttrPrints(tag: string, name: string, value: string, text: string)
    ensures ElWithAttr(tag, name, value, text) == PrintElement(Element(tag, [Attr(name, value)], text))
  {
    hide QuoteAttr, Escape;
    PrintAttrsUnfolds(Attr(name, value), [], "");
    assert [Attr(name, value)] + [] == [Attr(name, value)];
    assert PrintAttrs([Attr(name, value)]) == " " + name + "=" + QuoteAttr(value);
  }

  lemma FieldPrints(f: (string, string))
    ensures ElWithAttr("field", "name", f.0, f.1) == PrintElement(FieldElement(f))
  {
    hide ElWithAttr, PrintElement;
    ElWithAttrPrints("field", "name", f.0, f.1);
  }

  lemma OptionPrints(o: RuleOption)
    ensures El("options", OptionText(o)) == PrintElement(OptionElement(o))
  {
    hide El, PrintElement, OptionText;
    ElPrints("options", OptionText(o));
  }

  lemma {:induction false} JoinAppend(parts: seq<string>, p: string)
    ensures Join("", parts + [p]) == Join("", parts) + p
    decreases |parts|
  {
    if parts == [] {
      assert parts + [p] == [p];
    } else {
      JoinAppend(parts[1..], p);
      assert (parts + [p])[1..] == parts[1..] + [p];
    }
  }

  lemma JoinAll(open: string, middle: seq<string>, close: string)
    ensures Join("", [open] + middle + [close]) == open + Join("", middle) + close
  {
    JoinAppend([open] + middle, close);
    assert ([open] + middle)[1..] == middle;
  }

  function PrintEach(es: seq<Element>): (r: seq<string>)
    ensures |r| == |es| && forall i :: 0 <= i < |es| ==> r[i] == PrintElement(es[i])
  {
    if es == [] then [] else [PrintElement(es[0])] + PrintEach(es[1..])
  }

  lemma PrintEachConcat(a: seq<Element>, b: seq<Element>)
    ensures PrintEach(a + b) == PrintEach(a) + PrintEach(b)
  {
  }

  lemma {:induction false} JoinCons(p: string, parts: seq<string>)
    ensures Join("", [p] + parts) == p + Join("", parts)
  {
    assert ([p] + parts)[1..] == parts;
  }

  lemma {:induction false} PrintEachJoins(es: seq<Element>)
    ensures Join("", PrintEach(es)) == PrintElements(es)
  {
    if es != [] {
      PrintEachJoins(es[1..]);
      JoinCons(PrintElement(es[0]), PrintEach(es[1..]));
    }
  }

  /** One optional element, after `open` and the elements `es`. */
  method AppendEl(parts: seq<string>, tag: string, text: Option<string>, ghost open: string, ghost es: seq<Element>)
      returns (more: seq<string>)
    requires parts == [open] + PrintEach(es)
    ensures more == [open] + PrintEach(es + TextElement(tag, text))
  {
    hide PrintElement, El;
    more := parts;
    if text.Some? {
      ElPrints(tag, text.value);
      more := more + [El(tag, text.value)];
    }
  }

  method AppendFields(parts: seq<string>, fs: seq<(string, string)>, ghost open: string, ghost es: seq<Element>)
      returns (more: seq<string>)
    requires parts == [open] + PrintEach(es)
    ensures more == [open] + PrintEach(es + FieldElements(fs))
  {
    hide *;
    more := parts;
    ghost var written := PrintEach(FieldElements(fs));
    for i := 0 to |fs|
      invariant more == parts + written[..i]
    {
      FieldPrints(fs[i]);
      more := more + [ElWithAttr("field", "name", fs[i].0, fs[i].1)];
    }
    PrintEachConcat(es, FieldElements(fs));
  }

  method AppendOptions(parts: seq<string>, os: seq<RuleOption>, ghost open: string, ghost es: seq<Element>)
      returns (more: seq<string>)
    requires parts == [open] + PrintEach(es)
    ensures more == [open] + PrintEach(es + OptionElements(os))
  {
    hide *;
    more := parts;
    ghost var written := PrintEach(OptionElements(os));
    for i := 0 to |os|
      invariant more == parts + written[..i]
    {
      OptionPrints(os[i]);
      more := more + [El("options", OptionText(os[i]))];
    }
    PrintEachConcat(es, OptionElements(os));
  }

  function RuleOpen(r: RuleDefinition): string {
    "<rule id=" + QuoteAttr(Str(r.id)) + " level=" + QuoteAttr(Str(r.level)) + ">"
  }

  lemma RuleOpenPrints(r: RuleDefinition)
    ensures RuleOpen(r) == PrintOpen("rule", RuleAttrs(r))
  {
    hide QuoteAttr, Str;
    var id, level := Attr("id", Str(r.id)), Attr("level", Str(r.level));
    assert RuleAttrs(r)[1..] == [level] && RuleAttrs(r)[1..][1..] == [];
    var i, l := QuoteAttr(id.value), QuoteAttr(level.value);
    assert PrintAttrs([level]) == " level=" + l by {
      assert [level][1..] == [];
    }
    assert PrintAttrs(RuleAttrs(r)) == " id=" + i + PrintAttrs([level]);
  }

  lemma ChildrenInOrder(r: RuleDefinition)
    ensures Children(r)
         == TextElement("description", Some(r.description)) + TextElement("if_sid", SidsText(r))
            + TextElement("if_matched_sid", MatchedSidText(r)) + TextElement("match", r.matchText)
            + TextElement("regex", r.regex) + TextElement("decoded_as", r.decodedAs)
            + FieldElements(OrNothing(r.fields)) + TextElement("srcip", r.srcip)
            + TextElement("program_name", r.programName) + TextElement("group", GroupsText(r))
            + OptionElements(OrNothing(r.options))
  {
    hide TextElement, SidsText, MatchedSidText, GroupsText, OrNothing, FieldElements, OptionElements;
  }

  /** `render_rule_xml`. */
  method RenderRuleXml(rule: RuleDefinition) returns (xml: string)
    ensures xml == PrintDocument(ToDocument(rule))
  {
    hide *;
    ghost var open := RuleOpen(rule);
    var parts := [RuleOpen(rule)];
    parts := AppendEl(parts, "description", Some(rule.description), open, []);
    ghost var es := [] + TextElement("description", Some(rule.description));
    parts := AppendEl(parts, "if_sid", SidsText(rule), open, es);
    es := es + TextElement("if_sid", SidsText(rule));
    parts := AppendEl(parts, "if_matched_sid", MatchedSidText(rule), open, es);
    es := es + TextElement("if_matched_sid", MatchedSidText(rule));
    parts := AppendEl(parts, "match", rule.matchText, open, es);
    es := es + TextElement("match", rule.matchText);
    parts := AppendEl(parts, "regex", rule.regex, open, es);
    es := es + TextElement("regex", rule.regex);
    parts := AppendEl(parts, "decoded_as", rule.decodedAs, open, es);
    es := es + TextElement("decoded_as", rule.decodedAs);
    parts := AppendFields(parts, OrNothing(rule.fields), open, es);
    es := es + FieldElements(OrNothing(rule.fields));
    parts := AppendEl(parts, "srcip", rule.srcip, open, es);
    es := es + TextElement("srcip", rule.srcip);
    parts := AppendEl(parts, "program_name", rule.programName, open, es);
    es := es + TextElement("program_name", rule.programName);
    parts := AppendEl(parts, "group", GroupsText(rule), open, es);
    es := es + TextElement("group", GroupsText(rule));
    parts := AppendOptions(parts, OrNothing(rule.options), open, es);
    es := es + OptionElements(OrNothing(rule.options));
    parts := parts + ["</rule>"];
    xml := Join("", parts);
    ChildrenInOrder(rule);
    assert es == Children(rule);
    RenderedDocument(rule, parts);
  }

  lemma RenderedDocument(r: RuleDefinition, parts: seq<string>)
    requires parts == [RuleOpen(r)] + PrintEach(Children(r)) + ["</rule>"]
    ensures Join("", parts) == PrintDocument(ToDocument(r))
  {
    hide PrintOpen, RuleOpen, Children, RuleAttrs, PrintElement, PrintElements, Join;
    JoinAll(RuleOpen(r), PrintEach(Children(r)), "</rule>");
    PrintEachJoins(Children(r));
    RuleOpenPrints(r);
  }
}
