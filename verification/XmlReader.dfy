/** Documents as the rule printer writes them, and a reader for them after XML 1.0, with the proof that the reader
    understands the printer. */
module XmlReader {
  // One element whose children hold only text, one space before each attribute, names in ASCII.

  import opened Prelude
  import opened Numerals
  import opened XmlText

  datatype Attr = Attr(name: string, value: string)
  datatype Element = Element(tag: string, attrs: seq<Attr>, text: string)
  datatype Document = Document(tag: string, attrs: seq<Attr>, children: seq<Element>)

  // ---------------------------------------------------------------- printing

  function PrintAttrs(attrs: seq<Attr>): string {
    if attrs == [] then "" else " " + attrs[0].name + "=" + QuoteAttr(attrs[0].value) + PrintAttrs(attrs[1..])
  }

  function PrintOpen(tag: string, attrs: seq<Attr>): string {
    "<" + tag + PrintAttrs(attrs) + ">"
  }

  function PrintClose(tag: string): string {
    "</" + tag + ">"
  }

  function PrintElement(e: Element): string {
    PrintOpen(e.tag, e.attrs) + Escape(e.text) + PrintClose(e.tag)
  }

  function PrintElements(es: seq<Element>): string {
    if es == [] then "" else PrintElement(es[0]) + PrintElements(es[1..])
  }

  function PrintDocument(d: Document): string {
    PrintOpen(d.tag, d.attrs) + PrintElements(d.children) + PrintClose(d.tag)
  }

  // ---------------------------------------------------------------- reading

  /** What was read and what remains. */
  type Reading<T> = Option<(T, string)>

  predicate LegalCode(n: nat) {
    n == 0x9 || n == 0xA || n == 0xD || 0x20 <= n <= 0xD7FF || 0xE000 <= n <= 0xFFFD || 0x10000 <= n <= 0x10FFFF
  }

  /** The references of sections 4.1 and 4.6 of XML 1.0, decimal ones only. */
  function ReadReference(s: string): (r: Reading<char>)
    ensures r.Some? ==> |r.value.1| < |s|
  {
    if "&amp;" <= s then Some(('&', s[5..]))
    else if "&lt;" <= s then Some(('<', s[4..]))
    else if "&gt;" <= s then Some(('>', s[4..]))
    else if "&quot;" <= s then Some(('"', s[6..]))
    else if "&apos;" <= s then Some(('\'', s[6..]))
    else if "&#" <= s then
      var (n, rest) := Decimal(s[2..], 0);
      if rest != "" && rest[0] == ';' && rest != s[2..] && LegalCode(n) then Some((n as char, rest[1..])) else None
    else None
  }

  function Before(c: char, r: Reading<string>): Reading<string> {
    if r.None? then None else Some(([c] + r.value.0, r.value.1))
  }

  /** Character data up to the next tag. */
  function ReadText(s: string): (r: Reading<string>)
    ensures r.Some? ==> |r.value.1| <= |s|
    decreases |s|
  {
    if s == "" || s[0] == '<' then Some(("", s))
    else if s[0] == '&' then
      var c := ReadReference(s);
      if c.None? then None else Before(c.value.0, ReadText(c.value.1))
    else if "]]>" <= s || !Legal(s[0]) then None
    else Before(s[0], ReadText(s[1..]))
  }

  /** An attribute value up to its closing quote, normalized after section 3.3.3 of XML 1.0: a blank written as
      itself reads as a space, one written as a reference stays. */
  function ReadQuoted(s: string, q: char): (r: Reading<string>)
    ensures r.Some? ==> |r.value.1| < |s|
    decreases |s|
  {
    if s == "" || s[0] == '<' then None
    else if s[0] == q then Some(("", s[1..]))
    else if s[0] == '&' then
      var c := ReadReference(s);
      if c.None? then None else Before(c.value.0, ReadQuoted(c.value.1, q))
    else if !Legal(s[0]) then None
    else Before(if Blank(s[0]) then ' ' else s[0], ReadQuoted(s[1..], q))
  }

  predicate NameStart(c: char) {
    'a' <= c <= 'z' || 'A' <= c <= 'Z' || c == '_'
  }

  predicate NameChar(c: char) {
    NameStart(c) || Digit(c) || c == '-' || c == '.'
  }

  predicate IsName(s: string) {
    s != "" && NameStart(s[0]) && forall i :: 0 <= i < |s| ==> NameChar(s[i])
  }

  function NameRun(s: string): (r: (string, string))
    ensures s == r.0 + r.1
  {
    if s != "" && NameChar(s[0]) then
      var (n, rest) := NameRun(s[1..]);
      ([s[0]] + n, rest)
    else ("", s)
  }

  function ReadName(s: string): (r: Reading<string>)
    ensures r.Some? ==> |r.value.1| < |s|
  {
    var (n, rest) := NameRun(s);
    if IsName(n) then Some((n, rest)) else None
  }

  predicate HasName(attrs: seq<Attr>, name: string) {
    exists i :: 0 <= i < |attrs| && attrs[i].name == name
  }

  function ReadAttr(s: string): (r: Reading<Attr>)
    ensures r.Some? ==> |r.value.1| < |s|
  {
    var n := ReadName(s);
    if n.None? || |n.value.1| < 2 || n.value.1[0] != '=' || (n.value.1[1] != '"' && n.value.1[1] != '\'') then None
    else
      var v := ReadQuoted(n.value.1[2..], n.value.1[1]);
      if v.None? then None else Some((Attr(n.value.0, v.value.0), v.value.1))
  }

  /** Attributes, each after one space; a name may not come twice. */
  function ReadAttrs(s: string): (r: Reading<seq<Attr>>)
    ensures r.Some? ==> |r.value.1| <= |s|
    decreases |s|
  {
    if s == "" || s[0] != ' ' then Some(([], s))
    else
      var a := ReadAttr(s[1..]);
      if a.None? then None
      else
        var more := ReadAttrs(a.value.1);
        if more.None? || HasName(more.value.0, a.value.0.name) then None
        else Some(([a.value.0] + more.value.0, more.value.1))
  }

  function ReadOpen(s: string): (r: Reading<(string, seq<Attr>)>)
    ensures r.Some? ==> |r.value.1| < |s|
  {
    if s == "" || s[0] != '<' then None
    else
      var n := ReadName(s[1..]);
      if n.None? then None
      else
        var a := ReadAttrs(n.value.1);
        if a.None? || a.value.1 == "" || a.value.1[0] != '>' then None
        else Some(((n.value.0, a.value.0), a.value.1[1..]))
  }

  function ReadElement(s: string): (r: Reading<Element>)
    ensures r.Some? ==> |r.value.1| < |s|
  {
    var o := ReadOpen(s);
    if o.None? then None
    else
      var t := ReadText(o.value.1);
      if t.None? || !(PrintClose(o.value.0.0) <= t.value.1) then None
      else Some((Element(o.value.0.0, o.value.0.1, t.value.0), t.value.1[|PrintClose(o.value.0.0)|..]))
  }

  function ReadElements(s: string): Reading<seq<Element>>
    decreases |s|
  {
    if "</" <= s then Some(([], s))
    else
      var e := ReadElement(s);
      if e.None? then None
      else
        var more := ReadElements(e.value.1);
        if more.None? then None else Some(([e.value.0] + more.value.0, more.value.1))
  }

  function ReadDocument(s: string): Option<Document> {
    var o := ReadOpen(s);
    if o.None? then None
    else
      var es := ReadElements(o.value.1);
      if es.None? || es.value.1 != PrintClose(o.value.0.0) then None
      else Some(Document(o.value.0.0, o.value.0.1, es.value.0))
  }

  /** A processor normalizes line ends before it parses. */
  function ParseXml(s: string): Option<Document> {
    ReadDocument(NormalizeEol(s))
  }

  // ---------------------------------------------------------------- the reader undoes the printer

  lemma ReadBlankReference(c: char, rest: string)
    requires Blank(c)
    ensures ReadReference(AttrChar(c, false) + rest) == Some((c, rest))
  {
    var s := AttrChar(c, false) + rest;
    assert s[0] == '&' && s[1] == '#';
    assert !("&amp;" <= s) && !("&lt;" <= s) && !("&gt;" <= s) && !("&quot;" <= s) && !("&apos;" <= s);
    assert "&#" <= s;
    DecimalStops(";" + rest, c as int);
    if c == '\t' {
      assert s[2..] == "9" + (";" + rest);
      assert s[2..][1..] == ";" + rest;
    } else {
      var d := if c == '\n' then "0" else "3";
      assert s[2..] == "1" + (d + (";" + rest));
      assert s[2..][1..] == d + (";" + rest);
      assert s[2..][1..][1..] == ";" + rest;
      assert Decimal(s[2..], 0) == Decimal(d + (";" + rest), 1);
    }
    assert (";" + rest)[1..] == rest;
  }

  lemma ReadMarkupReference(c: char, rest: string)
    requires c == '&' || c == '<' || c == '>'
    ensures ReadReference(TextChar(c) + rest) == Some((c, rest))
  {
    var s := TextChar(c) + rest;
    assert TextChar(c) <= s && s[|TextChar(c)|..] == rest;
    if c != '&' {
      assert s[1] != 'a';
    }
    if c == '>' {
      assert s[1] == 'g';
    }
  }

  lemma ReadQuotReference(rest: string)
    ensures ReadReference("&quot;" + rest) == Some(('"', rest))
  {
    var s := "&quot;" + rest;
    assert s[1] == 'q' && "&quot;" <= s && s[6..] == rest;
  }

  lemma {:induction false} MapTextHasNoMarkup(t: string)
    ensures '<' !in MapText(t) && '>' !in MapText(t)
  {
    if t != "" {
      MapTextHasNoMarkup(t[1..]);
      assert '<' !in TextChar(t[0]) && '>' !in TextChar(t[0]);
    }
  }

  lemma NoCdataEnd(t: string, rest: string)
    requires rest != "" && rest[0] == '<'
    ensures !("]]>" <= MapText(t) + rest)
  {
    MapTextHasNoMarkup(t);
    var s, n := MapText(t) + rest, |MapText(t)|;
    assert s[n] == '<';
    assert n > 2 ==> s[2] in MapText(t);
  }

  lemma ReadTextStep(c: char, tail: string)
    requires Legal(c) && !("]]>" <= TextChar(c) + tail)
    ensures ReadText(TextChar(c) + tail) == Before(c, ReadText(tail))
  {
    var s := TextChar(c) + tail;
    if c == '&' || c == '<' || c == '>' {
      ReadMarkupReference(c, tail);
      assert s[0] == '&';
    } else {
      assert s[0] == c && s[1..] == tail;
    }
  }

  lemma {:induction false} ReadTextMapped(t: string, rest: string)
    requires AllLegal(t) && rest != "" && rest[0] == '<'
    ensures ReadText(MapText(t) + rest) == Some((t, rest))
  {
    if t == "" {
      assert MapText(t) + rest == rest;
    } else {
      var tail := MapText(t[1..]) + rest;
      assert MapText(t) + rest == TextChar(t[0]) + tail;
      NoCdataEnd(t, rest);
      ReadTextStep(t[0], tail);
      ReadTextMapped(t[1..], rest);
      assert t == [t[0]] + t[1..];
    }
  }

  lemma ReadQuotedStep(c: char, quotes: bool, q: char, tail: string)
    requires Legal(c) && (q == '"' || q == '\'') && (c == q ==> q == '"' && quotes)
    ensures ReadQuoted(AttrChar(c, quotes) + tail, q) == Before(c, ReadQuoted(tail, q))
  {
    var s := AttrChar(c, quotes) + tail;
    if Blank(c) {
      ReadBlankReference(c, tail);
      assert s[0] == '&';
    } else if c == '"' && quotes {
      ReadQuotReference(tail);
      assert s[0] == '&';
    } else if c == '&' || c == '<' || c == '>' {
      ReadMarkupReference(c, tail);
      assert s[0] == '&';
    } else {
      assert s[0] == c && s[1..] == tail;
    }
  }

  lemma {:induction false} ReadQuotedMapped(v: string, quotes: bool, q: char, rest: string)
    requires AllLegal(v) && (q == '"' || q == '\'')
    requires q in v ==> q == '"' && quotes
    ensures ReadQuoted(MapAttr(v, quotes) + [q] + rest, q) == Some((v, rest))
  {
    hide AttrChar, Legal;
    var s := MapAttr(v, quotes) + [q] + rest;
    if v == "" {
      assert s[0] == q && s[1..] == rest;
    } else {
      var tail := MapAttr(v[1..], quotes) + [q] + rest;
      assert s == AttrChar(v[0], quotes) + tail;
      ReadQuotedStep(v[0], quotes, q, tail);
      ReadQuotedMapped(v[1..], quotes, q, rest);
      assert v == [v[0]] + v[1..];
    }
  }

  /** An attribute value survives quoting and reading, blanks and quotes of both kinds included. */
  lemma QuotedValueReadsBack(v: string, rest: string)
    requires AllLegal(v)
    ensures var s := QuoteAttr(v) + rest;
            s != "" && (s[0] == '"' || s[0] == '\'') && ReadQuoted(s[1..], s[0]) == Some((v, rest))
  {
    hide QuoteAttr, MapAttr, ReadQuoted;
    QuoteAttrIsOnePass(v);
    var quotes := '"' in v && '\'' in v;
    var s := QuoteAttr(v) + rest;
    assert s[1..] == MapAttr(v, quotes) + [QuoteOf(v)] + rest;
    ReadQuotedMapped(v, quotes, QuoteOf(v), rest);
  }

  lemma {:induction false} NameRunReads(n: string, rest: string)
    requires (forall i :: 0 <= i < |n| ==> NameChar(n[i])) && (rest == "" || !NameChar(rest[0]))
    ensures NameRun(n + rest) == (n, rest)
  {
    if n == "" {
      assert n + rest == rest;
    } else {
      NameRunReads(n[1..], rest);
      assert (n + rest)[1..] == n[1..] + rest;
      assert n == [n[0]] + n[1..];
    }
  }

  /** The names of a document are names, and those of one element's attributes differ. */
  ghost predicate NamedAttrs(attrs: seq<Attr>) {
    && (forall i :: 0 <= i < |attrs| ==> IsName(attrs[i].name))
    && (forall i, j :: 0 <= i < j < |attrs| ==> attrs[i].name != attrs[j].name)
  }

  ghost predicate LegalAttrs(attrs: seq<Attr>) {
    forall i :: 0 <= i < |attrs| ==> AllLegal(attrs[i].value)
  }

  ghost predicate PrintableAttrs(attrs: seq<Attr>) {
    NamedAttrs(attrs) && LegalAttrs(attrs)
  }

  lemma NameReadsBack(n: string, rest: string)
    requires IsName(n) && (rest == "" || !NameChar(rest[0]))
    ensures ReadName(n + rest) == Some((n, rest))
  {
    NameRunReads(n, rest);
  }

  lemma AttrReadsBack(a: Attr, rest: string)
    requires IsName(a.name) && AllLegal(a.value)
    ensures ReadAttr(a.name + "=" + QuoteAttr(a.value) + rest) == Some((a, rest))
  {
    hide ReadQuoted, ReadName;
    var quoted := QuoteAttr(a.value) + rest;
    var after := "=" + quoted;
    assert a.name + "=" + QuoteAttr(a.value) + rest == a.name + after;
    NameReadsBack(a.name, after);
    QuotedValueReadsBack(a.value, rest);
    assert after[1] == quoted[0] && after[2..] == quoted[1..];
  }

  lemma ReadAttrsStep(s: string, a: Attr, tail: string, more: seq<Attr>, rest: string)
    requires s != "" && s[0] == ' ' && ReadAttr(s[1..]) == Some((a, tail))
    requires ReadAttrs(tail) == Some((more, rest)) && !HasName(more, a.name)
    ensures ReadAttrs(s) == Some(([a] + more, rest))
  {
  }

  lemma PrintAttrsUnfolds(a: Attr, more: seq<Attr>, rest: string)
    ensures PrintAttrs([a] + more) + rest == " " + (a.name + "=" + QuoteAttr(a.value) + (PrintAttrs(more) + rest))
  {
    assert ([a] + more)[1..] == more;
  }

  lemma NamedTail(attrs: seq<Attr>)
    requires NamedAttrs(attrs) && attrs != []
    ensures NamedAttrs(attrs[1..]) && !HasName(attrs[1..], attrs[0].name)
    ensures LegalAttrs(attrs) <==> AllLegal(attrs[0].value) && LegalAttrs(attrs[1..])
  {
    assert attrs == [attrs[0]] + attrs[1..];
  }

  lemma {:induction false} AttrsReadBack(attrs: seq<Attr>, rest: string)
    requires PrintableAttrs(attrs) && rest != "" && rest[0] == '>'
    ensures ReadAttrs(PrintAttrs(attrs) + rest) == Some((attrs, rest))
  {
    hide ReadAttr;
    if attrs == [] {
      assert PrintAttrs(attrs) + rest == rest;
    } else {
      var a, more := attrs[0], attrs[1..];
      assert attrs == [a] + more;
      NamedTail(attrs);
      AttrsReadBack(more, rest);
      var tail := PrintAttrs(more) + rest;
      AttrReadsBack(a, tail);
      PrintAttrsUnfolds(a, more, rest);
      var s := PrintAttrs(attrs) + rest;
      assert s[1..] == a.name + "=" + QuoteAttr(a.value) + tail;
      ReadAttrsStep(s, a, tail, more, rest);
    }
  }

  lemma PrintAttrsEdge(attrs: seq<Attr>, rest: string)
    requires rest != "" && rest[0] == '>'
    ensures var s := PrintAttrs(attrs) + rest; s[0] == ' ' || s[0] == '>'
  {
    if attrs != [] {
      assert PrintAttrs(attrs)[0] == ' ';
    }
  }

  lemma OpenReadsBack(tag: string, attrs: seq<Attr>, rest: string)
    requires IsName(tag) && PrintableAttrs(attrs)
    ensures ReadOpen(PrintOpen(tag, attrs) + rest) == Some(((tag, attrs), rest))
  {
    hide PrintAttrs, ReadAttrs, ReadName, IsName, NamedAttrs, LegalAttrs;
    var end := ">" + rest;
    var tail := PrintAttrs(attrs) + end;
    assert (PrintOpen(tag, attrs) + rest)[1..] == tag + tail;
    PrintAttrsEdge(attrs, end);
    NameReadsBack(tag, tail);
    AttrsReadBack(attrs, end);
    assert end[1..] == rest;
  }

  ghost predicate NamedElement(e: Element) {
    IsName(e.tag) && NamedAttrs(e.attrs)
  }

  ghost predicate PrintableElement(e: Element) {
    NamedElement(e) && LegalAttrs(e.attrs) && AllLegal(e.text)
  }

  lemma ElementIsNoClose(e: Element, rest: string)
    requires IsName(e.tag)
    ensures !("</" <= PrintElement(e) + rest)
  {
    hide PrintAttrs, Escape;
    assert (PrintElement(e) + rest)[1] == e.tag[0];
  }

  lemma ElementReadsBack(e: Element, rest: string)
    requires PrintableElement(e)
    ensures ReadElement(PrintElement(e) + rest) == Some((e, rest))
    ensures !("</" <= PrintElement(e) + rest)
  {
    hide PrintOpen, ReadOpen, ReadText, MapText, Escape, NamedAttrs, LegalAttrs, AllLegal, IsName;
    var close := PrintClose(e.tag) + rest;
    assert PrintElement(e) + rest == PrintOpen(e.tag, e.attrs) + (Escape(e.text) + close);
    OpenReadsBack(e.tag, e.attrs, Escape(e.text) + close);
    EscapeIsOnePass(e.text);
    ReadTextMapped(e.text, close);
    assert close[|PrintClose(e.tag)|..] == rest;
    ElementIsNoClose(e, rest);
  }

  lemma PrintElementsUnfolds(e: Element, more: seq<Element>, rest: string)
    ensures PrintElements([e] + more) + rest == PrintElement(e) + (PrintElements(more) + rest)
  {
    assert ([e] + more)[1..] == more;
  }

  ghost predicate NamedElements(es: seq<Element>) {
    forall i :: 0 <= i < |es| ==> NamedElement(es[i])
  }

  ghost predicate PrintableElements(es: seq<Element>) {
    forall i :: 0 <= i < |es| ==> PrintableElement(es[i])
  }

  lemma ReadElementsStep(s: string, e: Element, tail: string, more: seq<Element>, rest: string)
    requires !("</" <= s) && ReadElement(s) == Some((e, tail)) && ReadElements(tail) == Some((more, rest))
    ensures ReadElements(s) == Some(([e] + more, rest))
  {
  }

  lemma {:induction false} ElementsReadBack(es: seq<Element>, rest: string)
    requires PrintableElements(es) && "</" <= rest
    ensures ReadElements(PrintElements(es) + rest) == Some((es, rest))
  {
    hide PrintElement, ReadElement, PrintableElement, NamedElement;
    if es == [] {
      assert PrintElements(es) + rest == rest;
    } else {
      var e, more := es[0], es[1..];
      assert es == [e] + more;
      ElementsReadBack(more, rest);
      var tail := PrintElements(more) + rest;
      ElementReadsBack(e, tail);
      PrintElementsUnfolds(e, more, rest);
      ReadElementsStep(PrintElements(es) + rest, e, tail, more, rest);
    }
  }

  ghost predicate Named(d: Document) {
    IsName(d.tag) && NamedAttrs(d.attrs) && NamedElements(d.children)
  }

  /** Every character can stand in an XML document. */
  ghost predicate Printable(d: Document) {
    Named(d) && LegalAttrs(d.attrs) && PrintableElements(d.children)
  }

  lemma DocumentReadsBack(d: Document)
    requires Printable(d)
    ensures ReadDocument(PrintDocument(d)) == Some(d)
  {
    hide PrintOpen, PrintElements, ReadOpen, ReadElements, NamedAttrs, LegalAttrs, PrintableElements;
    var close := PrintClose(d.tag);
    assert PrintDocument(d) == PrintOpen(d.tag, d.attrs) + (PrintElements(d.children) + close);
    OpenReadsBack(d.tag, d.attrs, PrintElements(d.children) + close);
    ElementsReadBack(d.children, close);
  }

  // ---------------------------------------------------------------- line ends

  function NormalElement(e: Element): Element {
    e.(text := NormalizeEol(e.text))
  }

  function NormalElements(es: seq<Element>): (r: seq<Element>)
    ensures |r| == |es| && forall i :: 0 <= i < |es| ==> r[i] == NormalElement(es[i])
  {
    if es == [] then [] else [NormalElement(es[0])] + NormalElements(es[1..])
  }

  /** What survives of a document: texts lose their carriage returns, attribute values lose nothing. */
  function NormalDocument(d: Document): Document {
    d.(children := NormalElements(d.children))
  }

  lemma {:induction false} MapAttrHasNoReturn(s: string, quotes: bool)
    ensures '\r' !in MapAttr(s, quotes)
  {
    if s != "" {
      MapAttrHasNoReturn(s[1..], quotes);
      assert '\r' !in AttrChar(s[0], quotes);
    }
  }

  lemma NameHasNoReturn(n: string)
    requires IsName(n)
    ensures '\r' !in n
  {
  }

  lemma {:induction false} PrintAttrsHasNoReturn(attrs: seq<Attr>)
    requires NamedAttrs(attrs)
    ensures '\r' !in PrintAttrs(attrs)
  {
    hide AttrChar, MapAttr, EscapeForAttr;
    if attrs != [] {
      NamedTail(attrs);
      PrintAttrsHasNoReturn(attrs[1..]);
      NameHasNoReturn(attrs[0].name);
      var v := attrs[0].value;
      QuoteAttrIsOnePass(v);
      MapAttrHasNoReturn(v, '"' in v && '\'' in v);
    }
  }

  lemma PrintOpenNormal(tag: string, attrs: seq<Attr>)
    requires IsName(tag) && NamedAttrs(attrs)
    ensures NormalizeEol(PrintOpen(tag, attrs)) == PrintOpen(tag, attrs)
  {
    PrintAttrsHasNoReturn(attrs);
    NameHasNoReturn(tag);
    NormalizeIdle(PrintOpen(tag, attrs));
  }

  lemma PrintCloseNormal(tag: string)
    requires IsName(tag)
    ensures NormalizeEol(PrintClose(tag)) == PrintClose(tag)
  {
    NameHasNoReturn(tag);
    NormalizeIdle(PrintClose(tag));
  }

  lemma PrintElementNormal(e: Element)
    requires NamedElement(e)
    ensures NormalizeEol(PrintElement(e)) == PrintElement(NormalElement(e))
  {
    var open, text, close := PrintOpen(e.tag, e.attrs), Escape(e.text), PrintClose(e.tag);
    assert PrintElement(e) == open + (text + close);
    NormalizeConcat(open, text + close);
    NormalizeConcat(text, close);
    PrintOpenNormal(e.tag, e.attrs);
    PrintCloseNormal(e.tag);
    EscapeIsOnePass(e.text);
    EscapeIsOnePass(NormalizeEol(e.text));
    NormalizeEscaped(e.text);
  }

  lemma PrintElementEnds(e: Element)
    ensures PrintElement(e)[|PrintElement(e)| - 1] == '>'
  {
  }

  lemma PrintElementsCons(e: Element, more: seq<Element>)
    ensures PrintElements([e] + more) == PrintElement(e) + PrintElements(more)
  {
    assert ([e] + more)[1..] == more;
  }

  lemma {:induction false} PrintElementsNormal(es: seq<Element>)
    requires NamedElements(es)
    ensures NormalizeEol(PrintElements(es)) == PrintElements(NormalElements(es))
  {
    if es != [] {
      PrintElementsNormal(es[1..]);
      PrintElementNormal(es[0]);
      PrintElementEnds(es[0]);
      NormalizeConcat(PrintElement(es[0]), PrintElements(es[1..]));
      PrintElementsCons(NormalElement(es[0]), NormalElements(es[1..]));
    }
  }

  lemma PrintDocumentNormal(d: Document)
    requires Named(d)
    ensures NormalizeEol(PrintDocument(d)) == PrintDocument(NormalDocument(d))
  {
    var open, body, close := PrintOpen(d.tag, d.attrs), PrintElements(d.children), PrintClose(d.tag);
    assert PrintDocument(d) == open + (body + close);
    NormalizeConcat(open, body + close);
    NormalizeConcat(body, close);
    PrintOpenNormal(d.tag, d.attrs);
    PrintCloseNormal(d.tag);
    PrintElementsNormal(d.children);
  }

  lemma NormalDocumentPrintable(d: Document)
    requires Named(d)
    ensures Named(NormalDocument(d))
    ensures Printable(NormalDocument(d)) <==> Printable(d)
  {
    var n := NormalDocument(d);
    forall i | 0 <= i < |d.children|
      ensures PrintableElement(n.children[i]) <==> PrintableElement(d.children[i])
    {
      NormalizeKeepsLegality(d.children[i].text);
    }
    if !PrintableElements(d.children) {
      var i :| 0 <= i < |d.children| && !PrintableElement(d.children[i]);
      assert !PrintableElement(n.children[i]);
    }
  }

  // ---------------------------------------------------------------- nothing else reads

  lemma {:induction false} IllegalTextStops(t: string, rest: string)
    requires !AllLegal(t) && rest != "" && rest[0] == '<'
    ensures ReadText(MapText(t) + rest) == None
  {
    var tail := MapText(t[1..]) + rest;
    assert MapText(t) + rest == TextChar(t[0]) + tail;
    NoCdataEnd(t, rest);
    if Legal(t[0]) {
      assert t == [t[0]] + t[1..];
      ReadTextStep(t[0], tail);
      IllegalTextStops(t[1..], rest);
    } else {
      assert TextChar(t[0]) == [t[0]];
    }
  }

  lemma {:induction false} IllegalQuotedStops(v: string, quotes: bool, q: char, rest: string)
    requires !AllLegal(v) && (q == '"' || q == '\'')
    requires q in v ==> q == '"' && quotes
    ensures ReadQuoted(MapAttr(v, quotes) + [q] + rest, q) == None
  {
    var tail := MapAttr(v[1..], quotes) + [q] + rest;
    assert MapAttr(v, quotes) + [q] + rest == AttrChar(v[0], quotes) + tail;
    if Legal(v[0]) {
      assert v == [v[0]] + v[1..];
      ReadQuotedStep(v[0], quotes, q, tail);
      IllegalQuotedStops(v[1..], quotes, q, rest);
    } else {
      assert AttrChar(v[0], quotes) == [v[0]];
    }
  }

  lemma IllegalValueStops(v: string, rest: string)
    requires !AllLegal(v)
    ensures var s := QuoteAttr(v) + rest; s != "" && (s[0] == '"' || s[0] == '\'') && ReadQuoted(s[1..], s[0]) == None
  {
    hide MapAttr, ReadQuoted;
    QuoteAttrIsOnePass(v);
    var quotes := '"' in v && '\'' in v;
    assert (QuoteAttr(v) + rest)[1..] == MapAttr(v, quotes) + [QuoteOf(v)] + rest;
    IllegalQuotedStops(v, quotes, QuoteOf(v), rest);
  }

  lemma IllegalAttrStops(a: Attr, rest: string)
    requires IsName(a.name) && !AllLegal(a.value)
    ensures ReadAttr(a.name + "=" + QuoteAttr(a.value) + rest) == None
  {
    hide ReadQuoted, ReadName;
    var quoted := QuoteAttr(a.value) + rest;
    var after := "=" + quoted;
    assert a.name + "=" + QuoteAttr(a.value) + rest == a.name + after;
    NameReadsBack(a.name, after);
    IllegalValueStops(a.value, rest);
    assert after[1] == quoted[0] && after[2..] == quoted[1..];
  }

  lemma ReadAttrsFails(s: string)
    requires s != "" && s[0] == ' '
    requires var a := ReadAttr(s[1..]); a.None? || ReadAttrs(a.value.1).None?
    ensures ReadAttrs(s) == None
  {
  }

  lemma {:induction false} IllegalAttrsStop(attrs: seq<Attr>, rest: string)
    requires NamedAttrs(attrs) && !LegalAttrs(attrs)
    ensures ReadAttrs(PrintAttrs(attrs) + rest) == None
  {
    hide ReadAttr, ReadAttrs;
    var a, more := attrs[0], attrs[1..];
    assert attrs == [a] + more;
    NamedTail(attrs);
    var tail := PrintAttrs(more) + rest;
    PrintAttrsUnfolds(a, more, rest);
    var s := PrintAttrs(attrs) + rest;
    assert s[1..] == a.name + "=" + QuoteAttr(a.value) + tail;
    if AllLegal(a.value) {
      AttrReadsBack(a, tail);
      IllegalAttrsStop(more, rest);
    } else {
      IllegalAttrStops(a, tail);
    }
    ReadAttrsFails(s);
  }

  lemma IllegalOpenStops(tag: string, attrs: seq<Attr>, rest: string)
    requires IsName(tag) && NamedAttrs(attrs) && !LegalAttrs(attrs)
    ensures ReadOpen(PrintOpen(tag, attrs) + rest) == None
  {
    hide PrintAttrs, ReadAttrs, ReadName, IsName, NamedAttrs, LegalAttrs;
    var end := ">" + rest;
    var tail := PrintAttrs(attrs) + end;
    assert (PrintOpen(tag, attrs) + rest)[1..] == tag + tail;
    PrintAttrsEdge(attrs, end);
    NameReadsBack(tag, tail);
    IllegalAttrsStop(attrs, end);
  }

  lemma IllegalElementStops(e: Element, rest: string)
    requires NamedElement(e) && !PrintableElement(e)
    ensures ReadElement(PrintElement(e) + rest) == None
    ensures !("</" <= PrintElement(e) + rest)
  {
    hide PrintOpen, ReadOpen, ReadText, MapText, Escape, NamedAttrs, LegalAttrs, AllLegal, IsName;
    var after := Escape(e.text) + (PrintClose(e.tag) + rest);
    assert PrintElement(e) + rest == PrintOpen(e.tag, e.attrs) + after;
    ElementIsNoClose(e, rest);
    if LegalAttrs(e.attrs) {
      OpenReadsBack(e.tag, e.attrs, after);
      EscapeIsOnePass(e.text);
      IllegalTextStops(e.text, PrintClose(e.tag) + rest);
    } else {
      IllegalOpenStops(e.tag, e.attrs, after);
    }
  }

  lemma ReadElementsFails(s: string)
    requires !("</" <= s)
    requires var e := ReadElement(s); e.None? || ReadElements(e.value.1).None?
    ensures ReadElements(s) == None
  {
  }

  lemma {:induction false} IllegalElementsStop(es: seq<Element>, rest: string)
    requires NamedElements(es) && !PrintableElements(es)
    ensures ReadElements(PrintElements(es) + rest) == None
  {
    hide PrintElement, ReadElement, ReadElements, PrintElements, PrintableElement, NamedElement;
    var e, more := es[0], es[1..];
    assert es == [e] + more;
    var tail := PrintElements(more) + rest;
    PrintElementsUnfolds(e, more, rest);
    if PrintableElement(e) {
      ElementReadsBack(e, tail);
      IllegalElementsStop(more, rest);
    } else {
      IllegalElementStops(e, tail);
    }
    ReadElementsFails(PrintElements(es) + rest);
  }

  lemma IllegalDocumentStops(d: Document)
    requires Named(d) && !Printable(d)
    ensures ReadDocument(PrintDocument(d)) == None
  {
    hide PrintableElements, NamedElements;
    var close := PrintClose(d.tag);
    assert PrintDocument(d) == PrintOpen(d.tag, d.attrs) + (PrintElements(d.children) + close);
    if LegalAttrs(d.attrs) {
      OpenReadsBack(d.tag, d.attrs, PrintElements(d.children) + close);
      IllegalElementsStop(d.children, close);
    } else {
      IllegalOpenStops(d.tag, d.attrs, PrintElements(d.children) + close);
    }
  }

  /** A printed document parses exactly when all its characters are legal, and then gives the document back up to
      the line ends of its texts. */
  lemma PrintedDocumentParses(d: Document)
    requires Named(d)
    ensures ParseXml(PrintDocument(d)) == if Printable(d) then Some(NormalDocument(d)) else None
  {
    hide *;
    PrintDocumentNormal(d);
    NormalDocumentPrintable(d);
    ParseXmlUnfolds(PrintDocument(d));
    if Printable(d) {
      DocumentReadsBack(NormalDocument(d));
    } else {
      IllegalDocumentStops(NormalDocument(d));
    }
  }

  lemma ParseXmlUnfolds(s: string)
    ensures ParseXml(s) == ReadDocument(NormalizeEol(s))
  {
    hide ReadDocument, NormalizeEol;
  }
}
