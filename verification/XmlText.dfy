/** The XML the rule printer emits, below the level of tags: the escaping of xml.sax.saxutils and its inverse, line
    ends, and which characters a document may hold, for that subset of XML 1.0. */
module XmlText {
  // ---------------------------------------------------------------- escaping

  /** `str.replace` of one character. */
  function Replace(s: string, c: char, to: string): string {
    if s == "" then "" else (if s[0] == c then to else [s[0]]) + Replace(s[1..], c, to)
  }

  /** `escape`: three passes, the ampersand first. */
  function Escape(s: string): string {
    Replace(Replace(Replace(s, '&', "&amp;"), '>', "&gt;"), '<', "&lt;")
  }

  /** The entities `quoteattr` adds: three more passes. */
  function ReplaceBlanks(s: string): string {
    Replace(Replace(Replace(s, '\n', "&#10;"), '\r', "&#13;"), '\t', "&#9;")
  }

  function EscapeForAttr(s: string): string {
    ReplaceBlanks(Escape(s))
  }

  function QuoteAttr(s: string): string {
    var data := EscapeForAttr(s);
    if '"' in data then
      if '\'' in data then "\"" + Replace(data, '"', "&quot;") + "\"" else "'" + data + "'"
    else "\"" + data + "\""
  }

  /** One pass, character by character. */
  function TextChar(c: char): string {
    if c == '&' then "&amp;" else if c == '<' then "&lt;" else if c == '>' then "&gt;" else [c]
  }

  function AttrChar(c: char, quotes: bool): string {
    if c == '\n' then "&#10;" else if c == '\r' then "&#13;" else if c == '\t' then "&#9;"
    else if c == '"' && quotes then "&quot;" else TextChar(c)
  }

  function MapText(s: string): string {
    if s == "" then "" else TextChar(s[0]) + MapText(s[1..])
  }

  function MapAttr(s: string, quotes: bool): string {
    if s == "" then "" else AttrChar(s[0], quotes) + MapAttr(s[1..], quotes)
  }

  lemma ConcatAssociates(a: string, b: string, c: string)
    ensures a + b + c == a + (b + c)
  {
  }

  lemma {:induction false} ReplaceConcat(a: string, b: string, c: char, to: string)
    ensures Replace(a + b, c, to) == Replace(a, c, to) + Replace(b, c, to)
  {
    if a == "" {
      assert a + b == b;
    } else {
      ReplaceConcat(a[1..], b, c, to);
      assert (a + b)[1..] == a[1..] + b;
      ConcatAssociates(if a[0] == c then to else [a[0]], Replace(a[1..], c, to), Replace(b, c, to));
    }
  }

  /** What a pass does to a short string without the character. */
  lemma {:induction false} ReplaceAbsent(s: string, c: char, to: string)
    requires c !in s
    ensures Replace(s, c, to) == s
  {
    if s != "" {
      ReplaceAbsent(s[1..], c, to);
    }
  }

  lemma ReplaceOne(c: char, x: char, to: string)
    ensures Replace([x], c, to) == if x == c then to else [x]
  {
    assert Replace([x][1..], c, to) == "";
  }

  lemma EscapeOne(x: char)
    ensures Escape([x]) == TextChar(x)
  {
    hide Replace;
    ReplaceOne('&', x, "&amp;");
    ReplaceOne('>', x, "&gt;");
    ReplaceOne('<', x, "&lt;");
    ReplaceAbsent("&amp;", '>', "&gt;");
    ReplaceAbsent("&amp;", '<', "&lt;");
    ReplaceAbsent("&gt;", '<', "&lt;");
  }

  lemma EscapeConcat(a: string, b: string)
    ensures Escape(a + b) == Escape(a) + Escape(b)
  {
    ReplaceConcat(a, b, '&', "&amp;");
    var a1, b1 := Replace(a, '&', "&amp;"), Replace(b, '&', "&amp;");
    ReplaceConcat(a1, b1, '>', "&gt;");
    ReplaceConcat(Replace(a1, '>', "&gt;"), Replace(b1, '>', "&gt;"), '<', "&lt;");
  }

  /** The three passes are one character map: no pass touches what an earlier one wrote. */
  lemma {:induction false} EscapeIsOnePass(s: string)
    ensures Escape(s) == MapText(s)
  {
    if s != "" {
      assert s == [s[0]] + s[1..];
      EscapeConcat([s[0]], s[1..]);
      EscapeOne(s[0]);
      EscapeIsOnePass(s[1..]);
    }
  }

  lemma ReplaceBlanksConcat(a: string, b: string)
    ensures ReplaceBlanks(a + b) == ReplaceBlanks(a) + ReplaceBlanks(b)
  {
    ReplaceConcat(a, b, '\n', "&#10;");
    var a1, b1 := Replace(a, '\n', "&#10;"), Replace(b, '\n', "&#10;");
    ReplaceConcat(a1, b1, '\r', "&#13;");
    ReplaceConcat(Replace(a1, '\r', "&#13;"), Replace(b1, '\r', "&#13;"), '\t', "&#9;");
  }

  predicate Blank(c: char) {
    c == '\n' || c == '\r' || c == '\t'
  }

  lemma ReplaceBlanksIdle(s: string)
    requires forall c :: c in s ==> !Blank(c)
    ensures ReplaceBlanks(s) == s
  {
    ReplaceAbsent(s, '\n', "&#10;");
    ReplaceAbsent(s, '\r', "&#13;");
    ReplaceAbsent(s, '\t', "&#9;");
  }

  lemma ReplaceBlanksOne(x: char)
    requires Blank(x)
    ensures ReplaceBlanks([x]) == AttrChar(x, false)
  {
    hide Replace;
    ReplaceOne('\n', x, "&#10;");
    ReplaceOne('\r', x, "&#13;");
    ReplaceOne('\t', x, "&#9;");
    ReplaceAbsent("&#10;", '\r', "&#13;");
    ReplaceAbsent("&#10;", '\t', "&#9;");
    ReplaceAbsent("&#13;", '\t', "&#9;");
  }

  lemma EscapeForAttrOne(x: char)
    ensures EscapeForAttr([x]) == AttrChar(x, false)
  {
    EscapeOne(x);
    if Blank(x) {
      ReplaceBlanksOne(x);
    } else {
      ReplaceBlanksIdle(TextChar(x));
    }
  }

  lemma {:induction false} EscapeForAttrIsOnePass(s: string)
    ensures EscapeForAttr(s) == MapAttr(s, false)
  {
    if s != "" {
      assert s == [s[0]] + s[1..];
      EscapeConcat([s[0]], s[1..]);
      ReplaceBlanksConcat(Escape([s[0]]), Escape(s[1..]));
      EscapeForAttrOne(s[0]);
      EscapeForAttrIsOnePass(s[1..]);
    } else {
      assert Escape("") == "";
    }
  }

  lemma {:induction false} QuotesPassIsOnePass(s: string)
    ensures Replace(MapAttr(s, false), '"', "&quot;") == MapAttr(s, true)
  {
    if s != "" {
      ReplaceConcat(AttrChar(s[0], false), MapAttr(s[1..], false), '"', "&quot;");
      if s[0] == '"' {
        ReplaceOne('"', '"', "&quot;");
      } else {
        ReplaceAbsent(AttrChar(s[0], false), '"', "&quot;");
      }
      QuotesPassIsOnePass(s[1..]);
    }
  }

  /** The quote a value is written in; it occurs in the value only as a reference. */
  function QuoteOf(s: string): char {
    if '"' in s && '\'' !in s then '\'' else '"'
  }

  lemma {:induction false} MapAttrQuotes(s: string, q: char)
    requires q == '"' || q == '\''
    ensures q in MapAttr(s, false) <==> q in s
  {
    if s != "" {
      MapAttrQuotes(s[1..], q);
      assert q in AttrChar(s[0], false) <==> q == s[0];
    }
  }

  /** `quoteattr` in one pass: which quote, and whether double quotes become references. */
  lemma QuoteAttrIsOnePass(s: string)
    ensures QuoteAttr(s) == [QuoteOf(s)] + MapAttr(s, '"' in s && '\'' in s) + [QuoteOf(s)]
  {
    EscapeForAttrIsOnePass(s);
    MapAttrQuotes(s, '"');
    MapAttrQuotes(s, '\'');
    QuotesPassIsOnePass(s);
  }

  // ---------------------------------------------------------------- XML 1.0: characters and line ends

  /** Section 2.2 of XML 1.0. A Dafny character is never a surrogate. */
  predicate Legal(c: char) {
    var n := c as int;
    n == 0x9 || n == 0xA || n == 0xD || 0x20 <= n <= 0xD7FF || 0xE000 <= n <= 0xFFFD || 0x10000 <= n <= 0x10FFFF
  }

  predicate AllLegal(s: string) {
    forall i :: 0 <= i < |s| ==> Legal(s[i])
  }

  /** A line end is a carriage return, with the line feed after it if there is one. */
  function EolStep(s: string): (k: nat)
    requires s != ""
    ensures 1 <= k <= |s|
  {
    if s[0] == '\r' && |s| > 1 && s[1] == '\n' then 2 else 1
  }

  /** Section 2.11 of XML 1.0, applied to the whole document before anything else. */
  function NormalizeEol(s: string): string {
    if s == "" then "" else [if s[0] == '\r' then '\n' else s[0]] + NormalizeEol(s[EolStep(s)..])
  }

  /** A line end never spans the two strings. */
  predicate NoSplit(a: string, b: string) {
    a == "" || b == "" || a[|a| - 1] != '\r' || b[0] != '\n'
  }

  lemma {:induction false} NormalizeConcat(a: string, b: string)
    requires NoSplit(a, b)
    ensures NormalizeEol(a + b) == NormalizeEol(a) + NormalizeEol(b)
    decreases |a|
  {
    if a == "" {
      assert a + b == b;
    } else {
      var k := EolStep(a);
      assert EolStep(a + b) == k;
      assert (a + b)[k..] == a[k..] + b;
      NormalizeConcat(a[k..], b);
      ConcatAssociates([if a[0] == '\r' then '\n' else a[0]], NormalizeEol(a[k..]), NormalizeEol(b));
    }
  }

  lemma {:induction false} NormalizeIdle(s: string)
    requires '\r' !in s
    ensures NormalizeEol(s) == s
  {
    if s != "" {
      NormalizeIdle(s[1..]);
    }
  }

  lemma {:induction false} NormalizeLeavesNone(s: string)
    ensures '\r' !in NormalizeEol(s)
    ensures forall c :: c != '\r' && c != '\n' ==> (c in NormalizeEol(s) <==> c in s)
    decreases |s|
  {
    if s != "" {
      var k := EolStep(s);
      NormalizeLeavesNone(s[k..]);
      assert s == s[..k] + s[k..];
    }
  }

  lemma LegalByMember(s: string)
    ensures AllLegal(s) <==> forall c :: c in s ==> Legal(c)
  {
    if AllLegal(s) {
    } else {
      var i :| 0 <= i < |s| && !Legal(s[i]);
      assert s[i] in s;
    }
  }

  lemma NormalizeKeepsLegality(s: string)
    ensures AllLegal(NormalizeEol(s)) <==> AllLegal(s)
  {
    NormalizeLeavesNone(s);
    LegalByMember(s);
    LegalByMember(NormalizeEol(s));
  }

  lemma TextCharEdges(c: char)
    ensures TextChar(c) != "" && (TextChar(c)[0] == '\n' <==> c == '\n')
    ensures TextChar(c)[|TextChar(c)| - 1] == '\r' <==> c == '\r'
    ensures c != '\r' ==> '\r' !in TextChar(c)
  {
  }

  lemma MapTextCons(c: char, s: string)
    ensures MapText([c] + s) == TextChar(c) + MapText(s)
  {
    assert ([c] + s)[1..] == s;
  }

  lemma MapTextKeepsLineEnd(s: string)
    requires s != "" && s[0] == '\r'
    ensures var m := MapText(s);
            m != "" && m[0] == '\r' && EolStep(m) == EolStep(s) && m[EolStep(s)..] == MapText(s[EolStep(s)..])
  {
    assert TextChar('\r') == "\r" && TextChar('\n') == "\n";
    if EolStep(s) == 2 {
      assert s[1..][1..] == s[2..];
      assert MapText(s) == "\r" + ("\n" + MapText(s[2..]));
    } else {
      assert MapText(s) == "\r" + MapText(s[1..]);
      if |s| > 1 {
        TextCharEdges(s[1]);
      }
    }
  }

  lemma NewlineStays()
    ensures TextChar('\n') == "\n"
  {
  }

  /** Line-end normalization passes through the escaping of text. */
  lemma {:induction false} NormalizeEscaped(s: string)
    ensures NormalizeEol(MapText(s)) == MapText(NormalizeEol(s))
    decreases |s|
  {
    hide TextChar, Replace;
    if s == "" {
    } else if s[0] == '\r' {
      NewlineStays();
      NormalizeEscaped(s[EolStep(s)..]);
      MapTextKeepsLineEnd(s);
      MapTextCons('\n', NormalizeEol(s[EolStep(s)..]));
    } else {
      TextCharEdges(s[0]);
      NormalizeEscaped(s[1..]);
      NormalizeConcat(TextChar(s[0]), MapText(s[1..]));
      NormalizeIdle(TextChar(s[0]));
      MapTextCons(s[0], NormalizeEol(s[1..]));
    }
  }
}
