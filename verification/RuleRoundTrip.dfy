/** Rendering a rule and reading the text back. */
module RuleRoundTrip {
  // What is kept, and that the validators ask for exactly what it takes.

  import opened Prelude
  import opened Numerals
  import opened XmlText
  import opened XmlReader
  import opened RuleXml
  import opened RuleReader

  /** What `render_rule_xml` returns. */
  function Rendered(r: RuleDefinition): string {
    PrintDocument(ToDocument(r))
  }

  function ReadXml(xml: string): Option<RuleDefinition> {
    var d := ParseXml(xml);
    if d.None? then None else ReadRule(d.value)
  }

  // ---------------------------------------------------------------- the validator's characters are XML's

  lemma CleanIsLegal(s: string)
    ensures Clean(s) <==> AllLegal(s)
  {
    forall i | 0 <= i < |s|
      ensures XmlIllegal(s[i]) <==> !Legal(s[i])
    {
    }
  }

  lemma NumberIsLegal(n: int)
    ensures AllLegal(Str(n))
  {
    IntReadsBack(n);
  }

  lemma LegalConcat(a: string, b: string)
    ensures AllLegal(a + b) <==> AllLegal(a) && AllLegal(b)
  {
    LegalByMember(a);
    LegalByMember(b);
    LegalByMember(a + b);
  }

  lemma {:induction false} SidsAreLegal(ns: seq<int>)
    ensures AllLegal(Join(", ", Strs(ns)))
    decreases |ns|
  {
    hide Str, AllLegal;
    if ns == [] {
      LegalByMember("");
    } else {
      NumberIsLegal(ns[0]);
      if |ns| > 1 {
        SidsAreLegal(ns[1..]);
        assert Strs(ns)[1..] == Strs(ns[1..]);
        LegalConcat(Str(ns[0]) + ", ", Join(", ", Strs(ns[1..])));
        LegalConcat(Str(ns[0]), ", ");
        LegalByMember(", ");
      }
    }
  }

  lemma {:induction false} JoinLegal(gs: seq<string>)
    ensures AllLegal(Join(",", gs)) <==> CleanGroups(gs)
    decreases |gs|
  {
    hide Clean, AllLegal;
    LegalByMember("");
    LegalByMember(",");
    if gs != [] {
      CleanIsLegal(gs[0]);
      if |gs| > 1 {
        JoinLegal(gs[1..]);
        assert gs == [gs[0]] + gs[1..];
        LegalConcat(gs[0] + ",", Join(",", gs[1..]));
        LegalConcat(gs[0], ",");
      }
    }
  }

  lemma PrintableConcat(a: seq<Element>, b: seq<Element>)
    ensures PrintableElements(a + b) <==> PrintableElements(a) && PrintableElements(b)
  {
    hide PrintableElement;
    forall i | 0 <= i < |a|
      ensures (a + b)[i] == a[i]
    {
    }
    forall i | 0 <= i < |b|
      ensures (a + b)[|a| + i] == b[i]
    {
    }
  }

  lemma NamedConcat(a: seq<Element>, b: seq<Element>)
    requires NamedElements(a) && NamedElements(b)
    ensures NamedElements(a + b)
  {
  }

  lemma PrintableText(tag: string, text: Option<string>)
    requires IsName(tag)
    ensures NamedElements(TextElement(tag, text))
    ensures PrintableElements(TextElement(tag, text)) <==> text.None? || AllLegal(text.value)
  {
    hide IsName, AllLegal;
    if text.Some? {
      var es := TextElement(tag, text);
      assert PrintableElement(es[0]) <==> AllLegal(text.value);
    }
  }

  lemma PrintableFields(fs: seq<(string, string)>)
    ensures NamedElements(FieldElements(fs))
    ensures PrintableElements(FieldElements(fs)) <==> CleanFields(fs)
  {
    hide Clean, AllLegal;
    var es := FieldElements(fs);
    assert IsName("field") && IsName("name");
    forall i | 0 <= i < |fs|
      ensures NamedElement(es[i]) && (PrintableElement(es[i]) <==> Clean(fs[i].0) && Clean(fs[i].1))
    {
      CleanIsLegal(fs[i].0);
      CleanIsLegal(fs[i].1);
      assert es[i].attrs[0].value == fs[i].0;
    }
  }

  lemma PrintableOptions(os: seq<RuleOption>)
    ensures NamedElements(OptionElements(os)) && PrintableElements(OptionElements(os))
  {
    assert IsName("options");
  }

  lemma TagsAreNames()
    ensures IsName("rule") && IsName("description") && IsName("if_sid") && IsName("if_matched_sid") && IsName("match")
    ensures IsName("regex") && IsName("decoded_as") && IsName("srcip") && IsName("program_name") && IsName("group")
    ensures IsName("id") && IsName("level")
  {
  }

  /** One optional element in front of others. */
  lemma PrintableTextThen(tag: string, text: Option<string>, rest: seq<Element>)
    requires IsName(tag) && NamedElements(rest)
    ensures NamedElements(TextElement(tag, text) + rest)
    ensures PrintableElements(TextElement(tag, text) + rest) <==> CleanOption(text) && PrintableElements(rest)
  {
    hide IsName, AllLegal, Clean, TextElement, PrintableElements, NamedElements;
    PrintableText(tag, text);
    PrintableConcat(TextElement(tag, text), rest);
    NamedConcat(TextElement(tag, text), rest);
    if text.Some? {
      CleanIsLegal(text.value);
    }
  }

  lemma PrintableFromGroup(r: RuleDefinition)
    ensures NamedElements(FromGroup(r))
    ensures PrintableElements(FromGroup(r)) <==> (r.groups.Some? ==> CleanGroups(r.groups.value))
  {
    hide IsName, AllLegal, Clean, TextElement, PrintableElements, NamedElements, CleanGroups, Join, OrNothing;
    TagsAreNames();
    PrintableOptions(OrNothing(r.options));
    PrintableTextThen("group", GroupsText(r), OptionElements(OrNothing(r.options)));
    if r.groups.Some? {
      var gs := r.groups.value;
      CleanIsLegal(GroupText(gs));
      LegalConcat(Join(",", gs), ",");
      LegalByMember(",");
      JoinLegal(gs);
    }
  }

  lemma PrintableFromField(r: RuleDefinition)
    ensures NamedElements(FromField(r))
    ensures PrintableElements(FromField(r))
       <==> (r.fields.Some? ==> CleanFields(r.fields.value)) && CleanOption(r.srcip) && CleanOption(r.programName)
            && (r.groups.Some? ==> CleanGroups(r.groups.value))
  {
    hide IsName, AllLegal, Clean, TextElement, PrintableElements, NamedElements, CleanGroups, CleanOption, FromGroup;
    TagsAreNames();
    PrintableFromGroup(r);
    PrintableTextThen("program_name", r.programName, FromGroup(r));
    PrintableTextThen("srcip", r.srcip, TextElement("program_name", r.programName) + FromGroup(r));
    PrintableFields(OrNothing(r.fields));
    PrintableConcat(FieldElements(OrNothing(r.fields)), FromSrcip(r));
    NamedConcat(FieldElements(OrNothing(r.fields)), FromSrcip(r));
  }

  lemma PrintableFromMatch(r: RuleDefinition)
    ensures NamedElements(FromMatch(r))
    ensures PrintableElements(FromMatch(r))
       <==> CleanOption(r.matchText) && CleanOption(r.regex) && CleanOption(r.decodedAs)
            && PrintableElements(FromField(r))
  {
    hide IsName, AllLegal, Clean, TextElement, PrintableElements, NamedElements, CleanOption, FromField;
    TagsAreNames();
    PrintableFromField(r);
    var decoded := TextElement("decoded_as", r.decodedAs) + FromField(r);
    PrintableTextThen("decoded_as", r.decodedAs, FromField(r));
    PrintableTextThen("regex", r.regex, decoded);
    PrintableTextThen("match", r.matchText, TextElement("regex", r.regex) + decoded);
  }

  lemma NumbersAreClean(r: RuleDefinition)
    ensures CleanOption(SidsText(r)) && CleanOption(MatchedSidText(r))
  {
    hide Str, Join, Clean;
    if r.ifSid.Some? {
      SidsAreLegal(r.ifSid.value);
      CleanIsLegal(SidsText(r).value);
    }
    if r.ifMatchedSid.Some? {
      NumberIsLegal(r.ifMatchedSid.value);
      CleanIsLegal(MatchedSidText(r).value);
    }
  }

  lemma RuleAttrsPrintable(r: RuleDefinition)
    ensures PrintableAttrs(RuleAttrs(r))
  {
    hide Str, AllLegal, IsName;
    TagsAreNames();
    NumberIsLegal(r.id);
    NumberIsLegal(r.level);
  }

  /** The document of a rule can be printed exactly when the validator finds no character to reject. */
  lemma RuleDocumentPrintable(r: RuleDefinition)
    ensures Named(ToDocument(r))
    ensures Printable(ToDocument(r)) <==> LegalTexts(r)
  {
    hide IsName, AllLegal, Clean, TextElement, PrintableElements, NamedElements, CleanOption, FromMatch, SidsText,
      MatchedSidText, CleanFields, CleanGroups, NamedAttrs, LegalAttrs, RuleAttrs;
    TagsAreNames();
    RuleAttrsPrintable(r);
    NumbersAreClean(r);
    PrintableFromMatch(r);
    PrintableFromField(r);
    var sid := TextElement("if_matched_sid", MatchedSidText(r)) + FromMatch(r);
    PrintableTextThen("if_matched_sid", MatchedSidText(r), FromMatch(r));
    PrintableTextThen("if_sid", SidsText(r), sid);
    PrintableTextThen("description", Some(r.description), TextElement("if_sid", SidsText(r)) + sid);
    CleanOptionOfDescription(r.description);
  }

  lemma CleanOptionOfDescription(s: string)
    ensures CleanOption(Some(s)) <==> Clean(s)
  {
  }

  /** The rendering is well-formed XML exactly when the validator accepts the characters of the rule, and then holds
      the elements of the rule and no others. */
  lemma RenderedIsWellFormed(r: RuleDefinition)
    ensures ParseXml(Rendered(r)) == if LegalTexts(r) then Some(ToDocument(NormalRule(r))) else None
  {
    hide ToDocument, NormalRule, Printable, Named, LegalTexts, PrintDocument, ParseXml;
    RuleDocumentPrintable(r);
    PrintedDocumentParses(ToDocument(r));
    NormalRuleDocument(r);
  }

  // ---------------------------------------------------------------- the round trip

  lemma NormalGroupsWhole(r: RuleDefinition)
    ensures WholeGroups(NormalRule(r)) <==> WholeGroups(r)
  {
    if r.groups.Some? {
      var gs := r.groups.value;
      var ns := NormalRule(r).groups.value;
      forall i | 0 <= i < |gs|
        ensures ',' in ns[i] <==> ',' in gs[i]
      {
        NormalizeLeavesNone(gs[i]);
      }
      if !NoCommas(gs) {
        var i :| 0 <= i < |gs| && ',' in gs[i];
        assert ',' in ns[i];
      }
    }
  }

  lemma {:induction false} CutLeavesNone(s: string, c: char)
    ensures c !in Cut(s, c).0
  {
    if s != "" && s[0] != c {
      CutLeavesNone(s[1..], c);
    }
  }

  lemma {:induction false} ReadGroupsAreWhole(s: string)
    ensures ReadGroups(s).Some? ==> NoCommas(ReadGroups(s).value)
    decreases |s|
  {
    if s != "" {
      var after := Cut(s, ',').1;
      CutLeavesNone(s, ',');
      if after.Some? {
        ReadGroupsAreWhole(after.value);
      }
    }
  }

  lemma ReadRulesAreWhole(d: Document)
    ensures ReadRule(d).Some? ==> WholeGroups(ReadRule(d).value)
  {
    hide TakeTexts, TakeOptions, ReadGroups, ReadSids, ReadInt, ReadAttrInt, NoCommas;
    var t := TakeTexts(d.children);
    if t.group.Some? {
      ReadGroupsAreWhole(t.group.value);
    }
  }

  /** The printer and the reader undo each other, up to `Canonical`, exactly on the rules whose characters and group
      names the validator accepts. */
  lemma RoundTrip(r: RuleDefinition)
    ensures ReadXml(Rendered(r)) == Some(Canonical(r)) <==> LegalTexts(r) && WholeGroups(r)
  {
    hide Rendered, ToDocument, NormalRule, LegalTexts, WholeGroups, ReadRule, Collapse;
    RenderedIsWellFormed(r);
    NormalGroupsWhole(r);
    var n := NormalRule(r);
    if LegalTexts(r) {
      if WholeGroups(r) {
        RuleReadsBack(n);
      } else {
        ReadRulesAreWhole(ToDocument(n));
        CollapseKeepsCommas(n);
      }
    }
  }

  lemma CollapseKeepsCommas(r: RuleDefinition)
    requires !WholeGroups(r)
    ensures !WholeGroups(Collapse(r))
  {
  }

  /** What a rule must avoid to come back unchanged. */
  predicate Plain(r: RuleDefinition) {
    && '\r' !in r.description && PlainOption(r.matchText) && PlainOption(r.regex) && PlainOption(r.decodedAs)
    && PlainOption(r.srcip) && PlainOption(r.programName)
    && r.fields != Some([]) && r.options != Some([]) && r.groups != Some([])
    && (r.fields.Some? ==> forall i :: 0 <= i < |r.fields.value| ==> '\r' !in r.fields.value[i].1)
    && (r.groups.Some? ==> forall i :: 0 <= i < |r.groups.value| ==> '\r' !in r.groups.value[i])
  }

  predicate PlainOption(o: Option<string>) {
    o.Some? ==> '\r' !in o.value
  }

  lemma NormalizeFixes(s: string)
    ensures NormalizeEol(s) == s <==> '\r' !in s
  {
    NormalizeLeavesNone(s);
    if '\r' !in s {
      NormalizeIdle(s);
    }
  }

  lemma NormalOptionFixes(o: Option<string>)
    ensures NormalOption(o) == o <==> PlainOption(o)
  {
    if o.Some? {
      NormalizeFixes(o.value);
    }
  }

  lemma NormalFieldsFixes(fs: seq<(string, string)>)
    ensures NormalFields(fs) == fs <==> forall i :: 0 <= i < |fs| ==> '\r' !in fs[i].1
  {
    hide NormalizeEol;
    forall i | 0 <= i < |fs|
      ensures NormalFields(fs)[i] == fs[i] <==> '\r' !in fs[i].1
    {
      NormalizeFixes(fs[i].1);
    }
  }

  lemma NormalGroupsFixes(gs: seq<string>)
    ensures NormalGroups(gs) == gs <==> forall i :: 0 <= i < |gs| ==> '\r' !in gs[i]
  {
    hide NormalizeEol;
    forall i | 0 <= i < |gs|
      ensures NormalGroups(gs)[i] == gs[i] <==> '\r' !in gs[i]
    {
      NormalizeFixes(gs[i]);
    }
  }

  /** Collapsing changes the three fields it names, line ends change none to or from an empty list. */
  lemma CollapseFixes(r: RuleDefinition)
    ensures Canonical(r) == r
       <==> NormalRule(r) == r && r.fields != Some([]) && r.options != Some([]) && r.groups != Some([])
  {
    hide NormalizeEol, NormalOption;
  }

  lemma NormalRuleFixes(r: RuleDefinition)
    ensures NormalRule(r) == r
       <==> NormalizeEol(r.description) == r.description && NormalOption(r.matchText) == r.matchText
            && NormalOption(r.regex) == r.regex && NormalOption(r.decodedAs) == r.decodedAs
            && NormalOption(r.srcip) == r.srcip && NormalOption(r.programName) == r.programName
            && (r.fields.Some? ==> NormalFields(r.fields.value) == r.fields.value)
            && (r.groups.Some? ==> NormalGroups(r.groups.value) == r.groups.value)
  {
    hide NormalizeEol, NormalOption, NormalFields, NormalGroups;
  }

  lemma CanonicalFixes(r: RuleDefinition)
    ensures Canonical(r) == r <==> Plain(r)
  {
    hide NormalizeEol, NormalOption, PlainOption, NormalFields, NormalGroups, Canonical, NormalRule;
    CollapseFixes(r);
    NormalRuleFixes(r);
    NormalizeFixes(r.description);
    NormalOptionFixes(r.matchText);
    NormalOptionFixes(r.regex);
    NormalOptionFixes(r.decodedAs);
    NormalOptionFixes(r.srcip);
    NormalOptionFixes(r.programName);
    if r.fields.Some? {
      NormalFieldsFixes(r.fields.value);
    }
    if r.groups.Some? {
      NormalGroupsFixes(r.groups.value);
    }
  }

  /** A valid rule comes back unchanged exactly when it is plain. */
  lemma ComesBackUnchanged(r: RuleDefinition, compiles: string -> bool)
    requires Valid(r, compiles)
    ensures ReadXml(Rendered(r)) == Some(r) <==> Plain(r)
  {
    hide Rendered, ReadXml, Canonical, Plain, LegalTexts, WholeGroups;
    RoundTrip(r);
    CanonicalFixes(r);
  }

  /** Two valid rules that print alike differ only in what `Canonical` forgets. */
  lemma RenderingIsInjective(a: RuleDefinition, b: RuleDefinition, compiles: string -> bool)
    requires Valid(a, compiles) && Valid(b, compiles) && Rendered(a) == Rendered(b)
    ensures Canonical(a) == Canonical(b)
  {
    hide Rendered, ReadXml, Canonical, LegalTexts, WholeGroups;
    RoundTrip(a);
    RoundTrip(b);
  }
}
