/** A reader of rule documents, and the proof that it undoes the printer: the document of a rule gives the rule back, up
    to three collisions, and line ends pass through it. */
module RuleReader {
  import opened Prelude
  import opened Numerals
  import opened XmlText
  import opened XmlReader
  import opened RuleXml

  // ---------------------------------------------------------------- reading small texts

  /** The text before the first `c`, and the text after it. */
  function Cut(s: string, c: char): (r: (string, Option<string>))
    ensures r.1.Some? ==> |r.1.value| < |s|
  {
    if s == "" then ("", None)
    else if s[0] == c then ("", Some(s[1..]))
    else
      var (before, after) := Cut(s[1..], c);
      ([s[0]] + before, after)
  }

  /** Numbers separated by a comma and a space. */
  function ReadSids(s: string): Option<seq<int>>
    decreases |s|
  {
    if s == "" then Some([])
    else
      var (first, after) := Cut(s, ',');
      var n := ReadInt(first);
      if n.None? then None
      else if after.None? then Some([n.value])
      else if |after.value| < 2 || after.value[0] != ' ' then None
      else
        var more := ReadSids(after.value[1..]);
        if more.None? then None else Some([n.value] + more.value)
  }

  /** Names, each followed by a comma. */
  function ReadGroups(s: string): Option<seq<string>>
    decreases |s|
  {
    if s == "" then Some([])
    else
      var (first, after) := Cut(s, ',');
      if after.None? then None
      else
        var more := ReadGroups(after.value);
        if more.None? then None else Some([first] + more.value)
  }

  function ReadOption(s: string): Option<RuleOption> {
    if s == "no_log" then Some(NoLog) else if s == "alert_by_email" then Some(AlertByEmail) else None
  }

  /** An absent element reads as an absent field; a present one must read. */
  function Reads<T>(text: Option<string>, read: string -> Option<T>): Option<Option<T>> {
    if text.None? then Some(None)
    else
      var v := read(text.value);
      if v.None? then None else Some(v)
  }

  // ---------------------------------------------------------------- reading the document

  function TakeText(tag: string, es: seq<Element>): (Option<string>, seq<Element>) {
    if es != [] && es[0].tag == tag && es[0].attrs == [] then (Some(es[0].text), es[1..]) else (None, es)
  }

  function TakeFields(es: seq<Element>): (seq<(string, string)>, seq<Element>) {
    if es != [] && es[0].tag == "field" && |es[0].attrs| == 1 && es[0].attrs[0].name == "name" then
      var (more, rest) := TakeFields(es[1..]);
      ([(es[0].attrs[0].value, es[0].text)] + more, rest)
    else ([], es)
  }

  /** All that remains must be options. */
  function TakeOptions(es: seq<Element>): Option<seq<RuleOption>> {
    if es == [] then Some([])
    else
      var o := if es[0].tag == "options" && es[0].attrs == [] then ReadOption(es[0].text) else None;
      var more := TakeOptions(es[1..]);
      if o.None? || more.None? then None else Some([o.value] + more.value)
  }

  function NothingIfEmpty<T>(s: seq<T>): Option<seq<T>> {
    if s == [] then None else Some(s)
  }

  datatype Texts = Texts(description: Option<string>, ifSid: Option<string>, ifMatchedSid: Option<string>,
                         matchText: Option<string>, regex: Option<string>, decodedAs: Option<string>,
                         fields: seq<(string, string)>, srcip: Option<string>, programName: Option<string>,
                         group: Option<string>, rest: seq<Element>)

  function TakeTexts(es: seq<Element>): Texts {
    var (description, e1) := TakeText("description", es);
    var (ifSid, e2) := TakeText("if_sid", e1);
    var (ifMatchedSid, e3) := TakeText("if_matched_sid", e2);
    var (matchText, e4) := TakeText("match", e3);
    var (regex, e5) := TakeText("regex", e4);
    var (decodedAs, e6) := TakeText("decoded_as", e5);
    var (fields, e7) := TakeFields(e6);
    var (srcip, e8) := TakeText("srcip", e7);
    var (programName, e9) := TakeText("program_name", e8);
    var (group, e10) := TakeText("group", e9);
    Texts(description, ifSid, ifMatchedSid, matchText, regex, decodedAs, fields, srcip, programName, group, e10)
  }

  function ReadAttrInt(attrs: seq<Attr>, i: nat, name: string): Option<int> {
    if i < |attrs| && attrs[i].name == name then ReadInt(attrs[i].value) else None
  }

  function ReadRule(d: Document): Option<RuleDefinition> {
    var id, level := ReadAttrInt(d.attrs, 0, "id"), ReadAttrInt(d.attrs, 1, "level");
    var t := TakeTexts(d.children);
    var sids, sid := Reads(t.ifSid, ReadSids), Reads(t.ifMatchedSid, ReadInt);
    var groups, options := Reads(t.group, ReadGroups), TakeOptions(t.rest);
    if d.tag != "rule" || |d.attrs| != 2 || id.None? || level.None? || t.description.None?
       || sids.None? || sid.None? || groups.None? || options.None?
    then None
    else Some(RuleDefinition(id.value, level.value, t.description.value, sids.value, sid.value, t.matchText, t.regex,
                             t.decodedAs, NothingIfEmpty(t.fields), t.srcip, t.programName, groups.value,
                             NothingIfEmpty(options.value)))
  }

  // ---------------------------------------------------------------- what the text keeps

  /** Three pairs of rules print alike: no fields and an empty dictionary, no options and an empty list, an empty list
      of groups and one nameless group. */
  function Collapse(r: RuleDefinition): RuleDefinition {
    r.(fields := NothingIfEmpty(OrNothing(r.fields)),
       options := NothingIfEmpty(OrNothing(r.options)),
       groups := if r.groups == Some([]) then Some([""]) else r.groups)
  }

  function NormalOption(o: Option<string>): Option<string> {
    if o.None? then None else Some(NormalizeEol(o.value))
  }

  function NormalFields(fs: seq<(string, string)>): (r: seq<(string, string)>)
    ensures |r| == |fs| && forall i :: 0 <= i < |fs| ==> r[i] == (fs[i].0, NormalizeEol(fs[i].1))
  {
    if fs == [] then [] else [(fs[0].0, NormalizeEol(fs[0].1))] + NormalFields(fs[1..])
  }

  function NormalGroups(gs: seq<string>): (r: seq<string>)
    ensures |r| == |gs| && forall i :: 0 <= i < |gs| ==> r[i] == NormalizeEol(gs[i])
  {
    if gs == [] then [] else [NormalizeEol(gs[0])] + NormalGroups(gs[1..])
  }

  /** Line ends in element text are normalized; field names, being attribute values, keep theirs. */
  function NormalRule(r: RuleDefinition): RuleDefinition {
    r.(description := NormalizeEol(r.description),
       matchText := NormalOption(r.matchText),
       regex := NormalOption(r.regex),
       decodedAs := NormalOption(r.decodedAs),
       srcip := NormalOption(r.srcip),
       programName := NormalOption(r.programName),
       fields := if r.fields.None? then None else Some(NormalFields(r.fields.value)),
       groups := if r.groups.None? then None else Some(NormalGroups(r.groups.value)))
  }

  function Canonical(r: RuleDefinition): RuleDefinition {
    Collapse(NormalRule(r))
  }

  // ---------------------------------------------------------------- lists

  lemma {:induction false} CutAt(a: string, c: char, rest: string)
    requires c !in a
    ensures Cut(a + [c] + rest, c) == (a, Some(rest))
  {
    if a == "" {
      assert (a + [c] + rest)[1..] == rest;
    } else {
      CutAt(a[1..], c, rest);
      assert (a + [c] + rest)[1..] == a[1..] + [c] + rest;
      assert a == [a[0]] + a[1..];
    }
  }

  lemma {:induction false} CutNowhere(a: string, c: char)
    requires c !in a
    ensures Cut(a, c) == (a, None)
  {
    if a != "" {
      CutNowhere(a[1..], c);
      assert a == [a[0]] + a[1..];
    }
  }

  lemma ReadSidsStep(n: int, more: string, ns: seq<int>)
    requires more != "" && ReadSids(more) == Some(ns)
    ensures ReadSids(Str(n) + [','] + (" " + more)) == Some([n] + ns)
  {
    hide Str, ReadInt;
    IntReadsBack(n);
    NumberHasNoComma(n);
    var after := " " + more;
    CutAt(Str(n), ',', after);
    assert after[0] == ' ' && after[1..] == more;
  }

  lemma NumberHasNoComma(n: int)
    ensures ',' !in Str(n)
  {
    hide Str;
    IntReadsBack(n);
  }

  lemma OneSidReadsBack(n: int)
    ensures ReadSids(Str(n)) == Some([n])
  {
    hide Str, ReadInt;
    IntReadsBack(n);
    NumberHasNoComma(n);
    CutNowhere(Str(n), ',');
  }

  lemma NoSidReadsBack()
    ensures ReadSids("") == Some([])
  {
  }

  lemma SidsTextUnfolds(ns: seq<int>)
    requires |ns| > 1
    ensures Join(", ", Strs(ns)) == Str(ns[0]) + [','] + (" " + Join(", ", Strs(ns[1..])))
  {
    hide Str;
    assert Strs(ns)[1..] == Strs(ns[1..]);
  }

  lemma {:induction false} SidsReadBack(ns: seq<int>)
    ensures ReadSids(Join(", ", Strs(ns))) == Some(ns)
    ensures ns != [] ==> Join(", ", Strs(ns)) != ""
    decreases |ns|
  {
    hide Str, ReadInt, ReadSids;
    NoSidReadsBack();
    if ns != [] {
      var first := Str(ns[0]);
      IntReadsBack(ns[0]);
      if |ns| == 1 {
        OneSidReadsBack(ns[0]);
        assert ns == [ns[0]] && Strs(ns) == [first];
      } else {
        SidsReadBack(ns[1..]);
        SidsTextUnfolds(ns);
        ReadSidsStep(ns[0], Join(", ", Strs(ns[1..])), ns[1..]);
        assert ns == [ns[0]] + ns[1..];
      }
    }
  }

  lemma ReadGroupsStep(a: string, rest: string, more: seq<string>)
    requires ',' !in a && ReadGroups(rest) == Some(more)
    ensures ReadGroups(a + [','] + rest) == Some([a] + more)
  {
    CutAt(a, ',', rest);
  }

  lemma GroupTextUnfolds(gs: seq<string>)
    requires |gs| > 1
    ensures GroupText(gs) == gs[0] + [','] + GroupText(gs[1..])
  {
  }

  lemma OneGroupReadsBack(g: string)
    requires ',' !in g
    ensures ReadGroups(GroupText([g])) == Some([g])
  {
    ReadGroupsStep(g, "", []);
    assert g + [','] + "" == GroupText([g]);
    assert [g] + [] == [g];
  }

  lemma {:induction false} GroupsReadBack(gs: seq<string>)
    requires NoCommas(gs) && gs != []
    ensures ReadGroups(GroupText(gs)) == Some(gs)
    decreases |gs|
  {
    hide ReadGroups, GroupText;
    if |gs| == 1 {
      OneGroupReadsBack(gs[0]);
      assert gs == [gs[0]];
    } else {
      GroupsReadBack(gs[1..]);
      ReadGroupsStep(gs[0], GroupText(gs[1..]), gs[1..]);
      GroupTextUnfolds(gs);
      assert gs == [gs[0]] + gs[1..];
    }
  }

  lemma NoGroupReadsAsNamelessGroup()
    ensures ReadGroups(GroupText([])) == Some([""])
  {
    ReadGroupsStep("", "", []);
    assert GroupText([]) == "" + [','] + "";
    assert [""] + [] == [""];
  }

  // ---------------------------------------------------------------- the document reads back

  /** Where a tag stands among the children. */
  function Rank(tag: string): nat {
    if tag == "description" then 0 else if tag == "if_sid" then 1 else if tag == "if_matched_sid" then 2
    else if tag == "match" then 3 else if tag == "regex" then 4 else if tag == "decoded_as" then 5
    else if tag == "field" then 6 else if tag == "srcip" then 7 else if tag == "program_name" then 8
    else if tag == "group" then 9 else 10
  }

  predicate StartsAfter(es: seq<Element>, tag: string) {
    es == [] || Rank(es[0].tag) > Rank(tag)
  }

  lemma TakeTextBack(tag: string, text: Option<string>, rest: seq<Element>)
    requires StartsAfter(rest, tag)
    ensures TakeText(tag, TextElement(tag, text) + rest) == (text, rest)
  {
    hide Rank;
    var es := TextElement(tag, text) + rest;
    if text.None? {
      assert es == rest;
    } else {
      assert es[1..] == rest;
    }
  }

  lemma StillAfter(tag: string, text: Option<string>, rest: seq<Element>, before: string)
    requires StartsAfter(rest, tag) && Rank(before) < Rank(tag)
    ensures StartsAfter(TextElement(tag, text) + rest, before)
  {
    hide Rank;
  }

  lemma TakeFieldsStep(f: (string, string), es: seq<Element>)
    ensures TakeFields([FieldElement(f)] + es) == ([f] + TakeFields(es).0, TakeFields(es).1)
  {
    assert ([FieldElement(f)] + es)[1..] == es;
  }

  lemma NoFieldsToTake(rest: seq<Element>)
    requires StartsAfter(rest, "field")
    ensures TakeFields(rest) == ([], rest)
  {
    hide Rank;
  }

  lemma {:induction false} TakeFieldsBack(fs: seq<(string, string)>, rest: seq<Element>)
    requires StartsAfter(rest, "field")
    ensures TakeFields(FieldElements(fs) + rest) == (fs, rest)
  {
    hide *;
    if fs == [] {
      NoFieldsToTake(rest);
      assert FieldElements(fs) + rest == rest;
    } else {
      TakeFieldsBack(fs[1..], rest);
      TakeFieldsStep(fs[0], FieldElements(fs[1..]) + rest);
      assert FieldElements(fs) + rest == [FieldElement(fs[0])] + (FieldElements(fs[1..]) + rest);
      assert fs == [fs[0]] + fs[1..];
    }
  }

  lemma {:induction false} TakeOptionsBack(os: seq<RuleOption>)
    ensures TakeOptions(OptionElements(os)) == Some(os)
  {
    if os != [] {
      TakeOptionsBack(os[1..]);
      assert OptionElements(os)[1..] == OptionElements(os[1..]);
      assert os == [os[0]] + os[1..];
    }
  }

  lemma FieldsStartAfter(fs: seq<(string, string)>, rest: seq<Element>, before: string)
    requires StartsAfter(rest, "field") && Rank(before) < Rank("field")
    ensures StartsAfter(FieldElements(fs) + rest, before)
  {
    if fs == [] {
      assert FieldElements(fs) + rest == rest;
    }
  }

  lemma TagsRank()
    ensures Rank("description") == 0 && Rank("if_sid") == 1 && Rank("if_matched_sid") == 2 && Rank("match") == 3
    ensures Rank("regex") == 4 && Rank("decoded_as") == 5 && Rank("field") == 6 && Rank("srcip") == 7
    ensures Rank("program_name") == 8 && Rank("group") == 9 && Rank("options") == 10
  {
  }

  lemma ChildrenStartAfter(r: RuleDefinition)
    ensures StartsAfter(OptionElements(OrNothing(r.options)), "group")
    ensures StartsAfter(FromGroup(r), "program_name")
    ensures StartsAfter(TextElement("program_name", r.programName) + FromGroup(r), "srcip")
    ensures StartsAfter(FromSrcip(r), "field")
    ensures StartsAfter(FromField(r), "decoded_as")
    ensures StartsAfter(TextElement("decoded_as", r.decodedAs) + FromField(r), "regex")
    ensures StartsAfter(TextElement("regex", r.regex) + (TextElement("decoded_as", r.decodedAs) + FromField(r)),
                        "match")
    ensures StartsAfter(FromMatch(r), "if_matched_sid")
    ensures StartsAfter(TextElement("if_matched_sid", MatchedSidText(r)) + FromMatch(r), "if_sid")
    ensures StartsAfter(TextElement("if_sid", SidsText(r))
                        + (TextElement("if_matched_sid", MatchedSidText(r)) + FromMatch(r)), "description")
  {
    hide TextElement, SidsText, MatchedSidText, GroupsText, StartsAfter, Rank;
    TagsRank();
    assert StartsAfter(OptionElements(OrNothing(r.options)), "group") by { OptionsStartAfter(OrNothing(r.options)); }
    StillAfter("group", GroupsText(r), OptionElements(OrNothing(r.options)), "program_name");
    StillAfter("program_name", r.programName, FromGroup(r), "srcip");
    StillAfter("srcip", r.srcip, TextElement("program_name", r.programName) + FromGroup(r), "field");
    FieldsStartAfter(OrNothing(r.fields), FromSrcip(r), "decoded_as");
    StillAfter("decoded_as", r.decodedAs, FromField(r), "regex");
    var decoded := TextElement("decoded_as", r.decodedAs) + FromField(r);
    StillAfter("regex", r.regex, decoded, "match");
    StillAfter("match", r.matchText, TextElement("regex", r.regex) + decoded, "if_matched_sid");
    StillAfter("if_matched_sid", MatchedSidText(r), FromMatch(r), "if_sid");
    StillAfter("if_sid", SidsText(r), TextElement("if_matched_sid", MatchedSidText(r)) + FromMatch(r), "description");
  }

  lemma OptionsStartAfter(os: seq<RuleOption>)
    ensures StartsAfter(OptionElements(os), "group")
  {
  }

  /** Taking the children of a rule one tag at a time finds each where the printer put it. */
  lemma TakeTextsBack(r: RuleDefinition)
    ensures TakeTexts(Children(r))
         == Texts(Some(r.description), SidsText(r), MatchedSidText(r), r.matchText, r.regex, r.decodedAs,
                  OrNothing(r.fields), r.srcip, r.programName, GroupsText(r), OptionElements(OrNothing(r.options)))
  {
    hide TextElement, SidsText, MatchedSidText, GroupsText, TakeText, TakeFields, StartsAfter;
    var options, group := OptionElements(OrNothing(r.options)), FromGroup(r);
    var program := TextElement("program_name", r.programName) + group;
    var srcip, field := FromSrcip(r), FromField(r);
    var decoded := TextElement("decoded_as", r.decodedAs) + field;
    var regex := TextElement("regex", r.regex) + decoded;
    var matched := FromMatch(r);
    var sid := TextElement("if_matched_sid", MatchedSidText(r)) + matched;
    var sids := TextElement("if_sid", SidsText(r)) + sid;
    ChildrenStartAfter(r);
    TakeTextBack("group", GroupsText(r), options);
    TakeTextBack("program_name", r.programName, group);
    TakeTextBack("srcip", r.srcip, program);
    TakeFieldsBack(OrNothing(r.fields), srcip);
    TakeTextBack("decoded_as", r.decodedAs, field);
    TakeTextBack("regex", r.regex, decoded);
    TakeTextBack("match", r.matchText, regex);
    TakeTextBack("if_matched_sid", MatchedSidText(r), matched);
    TakeTextBack("if_sid", SidsText(r), sid);
    TakeTextBack("description", Some(r.description), sids);
  }

  lemma OptionalsReadBack(r: RuleDefinition)
    requires WholeGroups(r)
    ensures Reads(SidsText(r), ReadSids) == Some(r.ifSid)
    ensures Reads(MatchedSidText(r), ReadInt) == Some(r.ifMatchedSid)
    ensures Reads(GroupsText(r), ReadGroups) == Some(Collapse(r).groups)
  {
    hide Str, ReadInt, ReadSids, ReadGroups, GroupText;
    if r.ifSid.Some? {
      SidsReadBack(r.ifSid.value);
    }
    if r.ifMatchedSid.Some? {
      IntReadsBack(r.ifMatchedSid.value);
    }
    if r.groups.Some? {
      if r.groups.value == [] {
        NoGroupReadsAsNamelessGroup();
      } else {
        GroupsReadBack(r.groups.value);
      }
    }
  }

  lemma RuleReadsBack(r: RuleDefinition)
    requires WholeGroups(r)
    ensures ReadRule(ToDocument(r)) == Some(Collapse(r))
  {
    hide Str, ReadInt, ReadSids, ReadGroups, Reads, TakeTexts, SidsText, MatchedSidText, GroupsText, Children,
      TakeOptions, OptionElements, OrNothing, WholeGroups;
    TakeTextsBack(r);
    OptionalsReadBack(r);
    TakeOptionsBack(OrNothing(r.options));
    IntReadsBack(r.id);
    IntReadsBack(r.level);
  }

  // ---------------------------------------------------------------- line ends

  lemma NormalElementsConcat(a: seq<Element>, b: seq<Element>)
    ensures NormalElements(a + b) == NormalElements(a) + NormalElements(b)
  {
    hide NormalElement;
  }

  lemma NormalTextElement(tag: string, text: Option<string>)
    ensures NormalElements(TextElement(tag, text)) == TextElement(tag, NormalOption(text))
  {
  }

  lemma NormalAscii(tag: string, text: Option<string>)
    requires text.Some? ==> '\r' !in text.value
    ensures NormalOption(text) == text
  {
    if text.Some? {
      NormalizeIdle(text.value);
    }
  }

  lemma {:induction false} SidsHaveNoReturn(ns: seq<int>)
    ensures '\r' !in Join(", ", Strs(ns))
    decreases |ns|
  {
    if ns != [] {
      IntReadsBack(ns[0]);
      if |ns| > 1 {
        SidsHaveNoReturn(ns[1..]);
        assert Strs(ns)[1..] == Strs(ns[1..]);
      }
    }
  }

  lemma {:induction false} NormalJoin(gs: seq<string>)
    ensures NormalizeEol(Join(",", gs)) == Join(",", NormalGroups(gs))
    decreases |gs|
  {
    if |gs| > 1 {
      NormalJoin(gs[1..]);
      var more := Join(",", gs[1..]);
      assert Join(",", gs) == gs[0] + ("," + more);
      NormalizeConcat(gs[0], "," + more);
      NormalizeConcat(",", more);
      NormalizeIdle(",");
      assert NormalGroups(gs)[1..] == NormalGroups(gs[1..]);
    }
  }

  lemma NormalGroupText(gs: seq<string>)
    ensures NormalizeEol(GroupText(gs)) == GroupText(NormalGroups(gs))
  {
    NormalJoin(gs);
    NormalizeConcat(Join(",", gs), ",");
    NormalizeIdle(",");
  }

  lemma NormalFieldElements(fs: seq<(string, string)>)
    ensures NormalElements(FieldElements(fs)) == FieldElements(NormalFields(fs))
  {
  }

  lemma NormalOptionElement(o: RuleOption)
    ensures NormalElement(OptionElement(o)) == OptionElement(o)
  {
    assert '\r' !in OptionText(o);
    NormalizeIdle(OptionText(o));
  }

  lemma NormalOptionElements(os: seq<RuleOption>)
    ensures NormalElements(OptionElements(os)) == OptionElements(os)
  {
    hide NormalElement, OptionElement;
    forall i | 0 <= i < |os|
      ensures NormalElement(OptionElement(os[i])) == OptionElement(os[i])
    {
      NormalOptionElement(os[i]);
    }
  }

  lemma NormalFromGroup(r: RuleDefinition)
    ensures NormalElements(FromGroup(r)) == FromGroup(NormalRule(r))
  {
    hide GroupText, NormalElements, NormalizeEol;
    NormalElementsConcat(TextElement("group", GroupsText(r)), OptionElements(OrNothing(r.options)));
    NormalTextElement("group", GroupsText(r));
    NormalOptionElements(OrNothing(r.options));
    if r.groups.Some? {
      NormalGroupText(r.groups.value);
    }
  }

  lemma NormalFromField(r: RuleDefinition)
    ensures NormalElements(FromField(r)) == FromField(NormalRule(r))
  {
    hide NormalElements, NormalizeEol, TextElement, FromGroup;
    var n := NormalRule(r);
    NormalFromGroup(r);
    NormalElementsConcat(TextElement("program_name", r.programName), FromGroup(r));
    NormalTextElement("program_name", r.programName);
    NormalElementsConcat(TextElement("srcip", r.srcip), TextElement("program_name", r.programName) + FromGroup(r));
    NormalTextElement("srcip", r.srcip);
    NormalElementsConcat(FieldElements(OrNothing(r.fields)), FromSrcip(r));
    NormalFieldElements(OrNothing(r.fields));
    assert OrNothing(n.fields) == NormalFields(OrNothing(r.fields));
  }

  lemma NormalFromMatch(r: RuleDefinition)
    ensures NormalElements(FromMatch(r)) == FromMatch(NormalRule(r))
  {
    hide NormalElements, NormalizeEol, TextElement, FromField;
    NormalFromField(r);
    var decoded := TextElement("decoded_as", r.decodedAs) + FromField(r);
    NormalElementsConcat(TextElement("decoded_as", r.decodedAs), FromField(r));
    NormalTextElement("decoded_as", r.decodedAs);
    NormalElementsConcat(TextElement("regex", r.regex), decoded);
    NormalTextElement("regex", r.regex);
    NormalElementsConcat(TextElement("match", r.matchText), TextElement("regex", r.regex) + decoded);
    NormalTextElement("match", r.matchText);
  }

  lemma NumbersAreNormal(r: RuleDefinition)
    ensures NormalOption(SidsText(r)) == SidsText(r)
    ensures NormalOption(MatchedSidText(r)) == MatchedSidText(r)
  {
    if r.ifSid.Some? {
      SidsHaveNoReturn(r.ifSid.value);
      NormalAscii("if_sid", SidsText(r));
    }
    if r.ifMatchedSid.Some? {
      IntReadsBack(r.ifMatchedSid.value);
      NormalAscii("if_matched_sid", MatchedSidText(r));
    }
  }

  lemma NormalRuleDocument(r: RuleDefinition)
    ensures NormalDocument(ToDocument(r)) == ToDocument(NormalRule(r))
  {
    hide NormalElements, NormalizeEol, TextElement, FromMatch;
    NormalFromMatch(r);
    NumbersAreNormal(r);
    var sid := TextElement("if_matched_sid", MatchedSidText(r)) + FromMatch(r);
    NormalElementsConcat(TextElement("if_matched_sid", MatchedSidText(r)), FromMatch(r));
    NormalTextElement("if_matched_sid", MatchedSidText(r));
    NormalElementsConcat(TextElement("if_sid", SidsText(r)), sid);
    NormalTextElement("if_sid", SidsText(r));
    NormalElementsConcat(TextElement("description", Some(r.description)), TextElement("if_sid", SidsText(r)) + sid);
    NormalTextElement("description", Some(r.description));
  }
}
