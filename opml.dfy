/** OPML subscription lists (src/opml.js): the export of the feed list as an
    OPML 2.0 document, the import of the outlines carrying a feed url, and
    the XML escaping of attribute values. */
module Opml {
  import opened Values
  import opened Dom
  import opened Types
  import Seqs

  // ---- escaping ----

  /** The entity `escapeXml` writes for one character. */
  function EscapeChar(c: char): (r: string)
    ensures |r| > 0
  {
    if c == '&' then "&amp;"
    else if c == '<' then "&lt;"
    else if c == '>' then "&gt;"
    else if c == '"' then "&quot;"
    else if c == '\'' then "&apos;"
    else [c]
  }

  /** Escaping character by character. */
  function EscapeChars(s: string): (r: string)
    ensures |r| >= |s|
  {
    if s == [] then [] else EscapeChar(s[0]) + EscapeChars(s[1..])
  }

  /** `s.replace(/c/g, by)`. */
  function ReplaceAll(s: string, c: char, rep: string): string {
    if s == [] then [] else (if s[0] == c then rep else [s[0]]) + ReplaceAll(s[1..], c, rep)
  }

  /** The five replacements in the order `escapeXml` applies them. */
  function ReplaceChain(s: string): string {
    ReplaceAll(ReplaceAll(ReplaceAll(ReplaceAll(ReplaceAll(s, '&', "&amp;"), '<', "&lt;"), '>', "&gt;"), '"', "&quot;"), '\'', "&apos;")
  }

  /** `escapeXml(str)`; a falsy argument (`undefined` or `''`) gives `''`. */
  function EscapeXml(s: string): string {
    if s == "" then "" else ReplaceChain(s)
  }

  lemma {:induction false} ReplaceAllAppend(a: string, b: string, c: char, rep: string)
    ensures ReplaceAll(a + b, c, rep) == ReplaceAll(a, c, rep) + ReplaceAll(b, c, rep)
  {
    if a == [] {
      assert a + b == b;
    } else {
      assert (a + b)[1..] == a[1..] + b;
      ReplaceAllAppend(a[1..], b, c, rep);
    }
  }

  lemma {:induction false} ReplaceAllAbsent(s: string, c: char, rep: string)
    requires c !in s
    ensures ReplaceAll(s, c, rep) == s
  {
    if s != [] {
      ReplaceAllAbsent(s[1..], c, rep);
    }
  }

  lemma ReplaceChainAppend(a: string, b: string)
    ensures ReplaceChain(a + b) == ReplaceChain(a) + ReplaceChain(b)
  {
    var a1, b1 := ReplaceAll(a, '&', "&amp;"), ReplaceAll(b, '&', "&amp;");
    ReplaceAllAppend(a, b, '&', "&amp;");
    var a2, b2 := ReplaceAll(a1, '<', "&lt;"), ReplaceAll(b1, '<', "&lt;");
    ReplaceAllAppend(a1, b1, '<', "&lt;");
    var a3, b3 := ReplaceAll(a2, '>', "&gt;"), ReplaceAll(b2, '>', "&gt;");
    ReplaceAllAppend(a2, b2, '>', "&gt;");
    var a4, b4 := ReplaceAll(a3, '"', "&quot;"), ReplaceAll(b3, '"', "&quot;");
    ReplaceAllAppend(a3, b3, '"', "&quot;");
    ReplaceAllAppend(a4, b4, '\'', "&apos;");
  }

  lemma ReplaceSingle(c: char, x: char, rep: string)
    ensures ReplaceAll([c], x, rep) == if c == x then rep else [c]
  {
    assert [c][1..] == [];
  }

  /** One special character's entity survives the later replacements. */
  lemma ReplaceChainChar(c: char)
    ensures ReplaceChain([c]) == EscapeChar(c)
  {
    if c == '&' {
      ReplaceChainAmp();
    } else if c == '<' {
      ReplaceChainLt();
    } else if c == '>' {
      ReplaceChainGt();
    } else if c == '"' {
      ReplaceChainQuot();
    } else if c == '\'' {
      ReplaceChainApos();
    } else {
      ReplaceSingle(c, '&', "&amp;");
      ReplaceSingle(c, '<', "&lt;");
      ReplaceSingle(c, '>', "&gt;");
      ReplaceSingle(c, '"', "&quot;");
      ReplaceSingle(c, '\'', "&apos;");
    }
  }

  lemma ReplaceChainAmp()
    ensures ReplaceChain("&") == "&amp;"
  {
    ReplaceSingle('&', '&', "&amp;");
    var e := "&amp;";
    assert '<' !in e && '>' !in e && '"' !in e && '\'' !in e;
    ReplaceAllAbsent(e, '<', "&lt;");
    ReplaceAllAbsent(e, '>', "&gt;");
    ReplaceAllAbsent(e, '"', "&quot;");
    ReplaceAllAbsent(e, '\'', "&apos;");
  }

  lemma ReplaceChainLt()
    ensures ReplaceChain("<") == "&lt;"
  {
    ReplaceSingle('<', '&', "&amp;");
    ReplaceSingle('<', '<', "&lt;");
    var e := "&lt;";
    assert '>' !in e && '"' !in e && '\'' !in e;
    ReplaceAllAbsent(e, '>', "&gt;");
    ReplaceAllAbsent(e, '"', "&quot;");
    ReplaceAllAbsent(e, '\'', "&apos;");
  }

  lemma ReplaceChainGt()
    ensures ReplaceChain(">") == "&gt;"
  {
    ReplaceSingle('>', '&', "&amp;");
    ReplaceSingle('>', '<', "&lt;");
    ReplaceSingle('>', '>', "&gt;");
    var e := "&gt;";
    assert '"' !in e && '\'' !in e;
    ReplaceAllAbsent(e, '"', "&quot;");
    ReplaceAllAbsent(e, '\'', "&apos;");
  }

  lemma ReplaceChainQuot()
    ensures ReplaceChain("\"") == "&quot;"
  {
    ReplaceSingle('"', '&', "&amp;");
    ReplaceSingle('"', '<', "&lt;");
    ReplaceSingle('"', '>', "&gt;");
    ReplaceSingle('"', '"', "&quot;");
    var e := "&quot;";
    assert '\'' !in e;
    ReplaceAllAbsent(e, '\'', "&apos;");
  }

  lemma ReplaceChainApos()
    ensures ReplaceChain("'") == "&apos;"
  {
    ReplaceSingle('\'', '&', "&amp;");
    ReplaceSingle('\'', '<', "&lt;");
    ReplaceSingle('\'', '>', "&gt;");
    ReplaceSingle('\'', '"', "&quot;");
    ReplaceSingle('\'', '\'', "&apos;");
  }

  /** Because `&` is replaced first, the chain of replacements is the
      per-character escape: no entity it writes is escaped again. */
  lemma {:induction false} EscapeXmlIsPerChar(s: string)
    ensures EscapeXml(s) == EscapeChars(s)
  {
    if s != [] {
      assert s == [s[0]] + s[1..];
      ReplaceChainAppend([s[0]], s[1..]);
      ReplaceChainChar(s[0]);
      EscapeXmlIsPerChar(s[1..]);
      if s[1..] == [] {
        assert ReplaceChain([]) == [];
      }
    }
  }

  /** The characters that end an attribute value or open or close a tag. */
  predicate Markup(c: char) {
    c == '<' || c == '>' || c == '"' || c == '\''
  }

  predicate Special(c: char) {
    c == '&' || Markup(c)
  }

  lemma {:induction false} EscapeCharsNoMarkup(s: string)
    ensures forall i :: 0 <= i < |EscapeChars(s)| ==> !Markup(EscapeChars(s)[i])
  {
    if s != [] {
      EscapeCharsNoMarkup(s[1..]);
      var a, b := EscapeChar(s[0]), EscapeChars(s[1..]);
      assert forall i :: 0 <= i < |a + b| ==> (a + b)[i] == (if i < |a| then a[i] else b[i - |a|]);
    }
  }

  /** Escaped text holds none of `<`, `>`, `"` and `'`. */
  lemma EscapeXmlNoMarkup(s: string)
    ensures forall i :: 0 <= i < |EscapeXml(s)| ==> !Markup(EscapeXml(s)[i])
  {
    EscapeXmlIsPerChar(s);
    EscapeCharsNoMarkup(s);
  }

  lemma {:induction false} EscapeCharsPlain(s: string)
    requires forall i :: 0 <= i < |s| ==> !Special(s[i])
    ensures EscapeChars(s) == s
  {
    if s != [] {
      EscapeCharsPlain(s[1..]);
      assert s == [s[0]] + s[1..];
    }
  }

  /** Text without special characters is left as it is. */
  lemma EscapeXmlPlain(s: string)
    requires forall i :: 0 <= i < |s| ==> !Special(s[i])
    ensures EscapeXml(s) == s
  {
    EscapeXmlIsPerChar(s);
    EscapeCharsPlain(s);
  }

  /** Escaping gives the empty string exactly for the empty string. */
  lemma EscapeXmlEmpty(s: string)
    ensures EscapeXml(s) == "" <==> s == ""
  {
    EscapeXmlIsPerChar(s);
  }

  /** What an XML parser makes of an attribute value: the five entities
      decoded. */
  function Unescape(s: string): string {
    if s == [] then []
    else if |s| >= 5 && s[..5] == "&amp;" then ['&'] + Unescape(s[5..])
    else if |s| >= 4 && s[..4] == "&lt;" then ['<'] + Unescape(s[4..])
    else if |s| >= 4 && s[..4] == "&gt;" then ['>'] + Unescape(s[4..])
    else if |s| >= 6 && s[..6] == "&quot;" then ['"'] + Unescape(s[6..])
    else if |s| >= 6 && s[..6] == "&apos;" then ['\''] + Unescape(s[6..])
    else [s[0]] + Unescape(s[1..])
  }

  /** `s` does not start with `lit` when they differ at position `k`. */
  lemma NotPrefix(s: string, lit: string, k: nat)
    requires k < |lit| && k < |s| && s[k] != lit[k]
    ensures !(|s| >= |lit| && s[..|lit|] == lit)
  {
    if |s| >= |lit| {
      assert s[..|lit|][k] == s[k];
    }
  }

  lemma UnescapeChar(c: char, rest: string)
    ensures Unescape(EscapeChar(c) + rest) == [c] + Unescape(rest)
  {
    var e := EscapeChar(c);
    var s := e + rest;
    assert s[..|e|] == e && s[|e|..] == rest;
    assert forall k :: 0 <= k < |e| ==> s[k] == e[k];
    if c == '&' {
    } else if c == '<' {
      NotPrefix(s, "&amp;", 1);
    } else if c == '>' {
      NotPrefix(s, "&amp;", 1);
      NotPrefix(s, "&lt;", 1);
    } else if c == '"' {
      NotPrefix(s, "&amp;", 1);
      NotPrefix(s, "&lt;", 1);
      NotPrefix(s, "&gt;", 1);
    } else if c == '\'' {
      NotPrefix(s, "&amp;", 2);
      NotPrefix(s, "&lt;", 1);
      NotPrefix(s, "&gt;", 1);
      NotPrefix(s, "&quot;", 1);
    } else {
      NotPrefix(s, "&amp;", 0);
      NotPrefix(s, "&lt;", 0);
      NotPrefix(s, "&gt;", 0);
      NotPrefix(s, "&quot;", 0);
      NotPrefix(s, "&apos;", 0);
    }
  }

  /** Decoding the escaped text gives the text back: an exported value reads
      back unchanged. */
  lemma {:induction false} UnescapeEscape(s: string)
    ensures Unescape(EscapeXml(s)) == s
  {
    EscapeXmlIsPerChar(s);
    UnescapeEscapeChars(s);
  }

  lemma {:induction false} UnescapeEscapeChars(s: string)
    ensures Unescape(EscapeChars(s)) == s
  {
    if s != [] {
      UnescapeChar(s[0], EscapeChars(s[1..]));
      UnescapeEscapeChars(s[1..]);
      assert s == [s[0]] + s[1..];
    }
  }

  // ---- export ----

  function Header(date: string): string {
    "<?xml version=\"1.0\" encoding=\"UTF-8\"?>\n<opml version=\"2.0\">\n  <head>\n    <title>Fetch N Feed Subscriptions</title>\n    <dateCreated>"
    + date + "</dateCreated>\n  </head>\n  <body>\n"
  }

  const Footer := "  </body>\n</opml>"

  /** ` name="value"`, the value already escaped. */
  function Attribute(name: string, value: string): string {
    " " + name + "=\"" + value + "\""
  }

  /** The outline written for one feed: the template literal of the
      `forEach`, its attributes spelled through Attribute. */
  function OutlineLine(f: Feed): string {
    var title := EscapeXml(Either(f.title, f.url));
    var xmlUrl := EscapeXml(f.url);
    var htmlUrl := EscapeXml(OrElse(f.siteUrl, ""));
    "    <outline" + Attribute("type", "rss") + Attribute("text", title) + Attribute("title", title)
    + Attribute("xmlUrl", xmlUrl) + (if htmlUrl != "" then Attribute("htmlUrl", htmlUrl) else "") + "/>\n"
  }

  /** The attributes of the outline for `f`, unescaped, in the order written:
      the title falls back to the url, and `htmlUrl` is there only when the
      feed has a site url. */
  function OutlineAttrs(f: Feed): seq<(string, string)> {
    var title := Either(f.title, f.url);
    [("type", "rss"), ("text", title), ("title", title), ("xmlUrl", f.url)]
    + (if OrElse(f.siteUrl, "") != "" then [("htmlUrl", OrElse(f.siteUrl, ""))] else [])
  }

  /** The attributes, each value escaped. */
  function RenderAttrs(attrs: seq<(string, string)>): string {
    if attrs == [] then "" else Attribute(attrs[0].0, EscapeXml(attrs[0].1)) + RenderAttrs(attrs[1..])
  }

  /** The outline line is the element `outline` with exactly the attributes
      OutlineAttrs lists, each value escaped. */
  lemma OutlineLineRendersAttrs(f: Feed)
    ensures OutlineLine(f) == "    <outline" + RenderAttrs(OutlineAttrs(f)) + "/>\n"
  {
    var title := Either(f.title, f.url);
    var site := OrElse(f.siteUrl, "");
    EscapeXmlPlain("rss");
    EscapeXmlEmpty(site);
    var tail := if site != "" then [("htmlUrl", site)] else [];
    assert RenderAttrs(tail) == if site != "" then Attribute("htmlUrl", EscapeXml(site)) else "" by {
      if site != "" {
        assert tail[1..] == [];
      }
    }
    RenderFour("type", "rss", "text", title, "title", title, "xmlUrl", f.url, tail);
    assert OutlineAttrs(f) == [("type", "rss"), ("text", title), ("title", title), ("xmlUrl", f.url)] + tail;
    var x1, x2, x3, x4 := Attribute("type", "rss"), Attribute("text", EscapeXml(title)),
                          Attribute("title", EscapeXml(title)), Attribute("xmlUrl", EscapeXml(f.url));
    ConcatRegroup("    <outline", x1, x2, x3, x4, RenderAttrs(tail), "/>\n");
  }

  lemma ConcatRegroup<T>(p: seq<T>, x1: seq<T>, x2: seq<T>, x3: seq<T>, x4: seq<T>, x5: seq<T>, q: seq<T>)
    ensures p + (x1 + x2 + x3 + x4 + x5) + q == p + x1 + x2 + x3 + x4 + x5 + q
  {
  }

  /** RenderAttrs over four leading attributes, one at a time. */
  lemma RenderFour(n1: string, v1: string, n2: string, v2: string, n3: string, v3: string,
                   n4: string, v4: string, tail: seq<(string, string)>)
    ensures RenderAttrs([(n1, v1), (n2, v2), (n3, v3), (n4, v4)] + tail)
         == Attribute(n1, EscapeXml(v1)) + Attribute(n2, EscapeXml(v2)) + Attribute(n3, EscapeXml(v3))
            + Attribute(n4, EscapeXml(v4)) + RenderAttrs(tail)
  {
    var t3 := [(n4, v4)] + tail;
    var t2 := [(n3, v3)] + t3;
    var t1 := [(n2, v2)] + t2;
    assert [(n1, v1), (n2, v2), (n3, v3), (n4, v4)] + tail == [(n1, v1)] + t1;
    RenderCons(n1, v1, t1);
    RenderCons(n2, v2, t2);
    RenderCons(n3, v3, t3);
    RenderCons(n4, v4, tail);
    Reassociate(Attribute(n1, EscapeXml(v1)), Attribute(n2, EscapeXml(v2)), Attribute(n3, EscapeXml(v3)),
                Attribute(n4, EscapeXml(v4)), RenderAttrs(tail));
  }

  lemma Reassociate<T>(x1: seq<T>, x2: seq<T>, x3: seq<T>, x4: seq<T>, x5: seq<T>)
    ensures x1 + (x2 + (x3 + (x4 + x5))) == x1 + x2 + x3 + x4 + x5
  {
  }

  lemma RenderCons(n: string, v: string, tail: seq<(string, string)>)
    ensures RenderAttrs([(n, v)] + tail) == Attribute(n, EscapeXml(v)) + RenderAttrs(tail)
  {
    assert ([(n, v)] + tail)[1..] == tail;
  }

  /** The lines `line` writes for `feeds`, one after the other. */
  function Lines(feeds: seq<Feed>, line: Feed -> string): string {
    if feeds == [] then "" else Lines(feeds[..|feeds| - 1], line) + line(feeds[|feeds| - 1])
  }

  /** `exportToOPML(feeds)`, with `date` the value of `toUTCString()`. */
  method ExportToOpml(feeds: seq<Feed>, date: string) returns (opml: string)
    ensures opml == Header(date) + Lines(feeds, OutlineLine) + Footer
  {
    opml := AppendLines(Header(date), feeds, OutlineLine);
    opml := opml + Footer;
  }

  /** The `forEach` of the export: appends the line of every feed, in
      order, to `head`. */
  method AppendLines(head: string, feeds: seq<Feed>, line: Feed -> string) returns (text: string)
    ensures text == head + Lines(feeds, line)
  {
    text := head;
    var i := 0;
    while i < |feeds|
      invariant 0 <= i <= |feeds|
      invariant text == head + Lines(feeds[..i], line)
    {
      LinesSnoc(feeds[..i + 1], line);
      assert feeds[..i + 1][..i] == feeds[..i];
      text := text + line(feeds[i]);
      i := i + 1;
    }
    assert feeds[..i] == feeds;
  }

  lemma LinesSnoc(feeds: seq<Feed>, line: Feed -> string)
    requires feeds != []
    ensures Lines(feeds, line) == Lines(feeds[..|feeds| - 1], line) + line(feeds[|feeds| - 1])
  {
  }

  /** The document holds the feeds' lines in input order: exporting a list
      with more feeds appends exactly their lines. */
  lemma {:induction false} LinesAppend(a: seq<Feed>, b: seq<Feed>, line: Feed -> string)
    ensures Lines(a + b, line) == Lines(a, line) + Lines(b, line)
    decreases |b|
  {
    if b == [] {
      assert a + b == a;
    } else {
      var n := |b| - 1;
      assert (a + b)[..|a + b| - 1] == a + b[..n];
      LinesAppend(a, b[..n], line);
    }
  }

  /** One outline per feed: the document for one feed holds its outline
      line between header and footer. */
  lemma LinesSingle(f: Feed, line: Feed -> string)
    ensures Lines([f], line) == line(f)
  {
    assert [f][..0] == [];
  }

  // ---- import ----

  /** A feed read from an outline. */
  datatype OpmlFeed = OpmlFeed(title: string, url: string, siteUrl: string)

  /** `parseOPML` returns the feeds or throws. */
  datatype OpmlResult = OpmlFeeds(feeds: seq<OpmlFeed>) | InvalidOpml(message: string)

  /** `outline[xmlUrl], outline[xmlurl]`. */
  function CarriesFeedUrl(): Element -> bool {
    (e: Element) => e.name == "outline" && ("xmlUrl" in e.attrs || "xmlurl" in e.attrs)
  }

  /** The body of the `forEach`: the feed one outline gives, if its url is
      not empty. */
  function OutlineFeed(e: Element): (r: Option<OpmlFeed>)
    ensures r.Some? <==> AttrText(e, "xmlUrl") != "" || AttrText(e, "xmlurl") != ""
    ensures r.Some? ==> r.value.url != "" && r.value.title != ""
    ensures r.Some? ==>
              r.value.url == (if AttrText(e, "xmlUrl") != "" then AttrText(e, "xmlUrl") else AttrText(e, "xmlurl"))
    ensures r.Some? ==>
              r.value.title == (if AttrText(e, "title") != "" then AttrText(e, "title")
                                else if AttrText(e, "text") != "" then AttrText(e, "text")
                                else r.value.url)
    ensures r.Some? ==>
              r.value.siteUrl == (if AttrText(e, "htmlUrl") != "" then AttrText(e, "htmlUrl") else AttrText(e, "htmlurl"))
  {
    var xmlUrl := Either(AttrText(e, "xmlUrl"), AttrText(e, "xmlurl"));
    var title := FirstNonEmpty([AttrText(e, "title"), AttrText(e, "text"), xmlUrl]);
    var htmlUrl := Either(AttrText(e, "htmlUrl"), AttrText(e, "htmlurl"));
    if xmlUrl != "" then
      FirstNonEmpty3(AttrText(e, "title"), AttrText(e, "text"), xmlUrl);
      Some(OpmlFeed(title, xmlUrl, htmlUrl))
    else None
  }

  /** The feeds pushed for `outlines`, in order. */
  function OutlineFeeds(outlines: seq<Element>): seq<OpmlFeed> {
    Collect(outlines, OutlineFeed)
  }

  /** The values `read` gives for the elements it accepts, in order. */
  function Collect(elements: seq<Element>, read: Element -> Option<OpmlFeed>): seq<OpmlFeed> {
    if elements == [] then []
    else
      Collect(elements[..|elements| - 1], read)
      + match read(elements[|elements| - 1]) case Some(f) => [f] case None => []
  }

  /** `parseOPML` on the parsed document `root`. */
  method ParseOpml(root: Element) returns (r: OpmlResult)
    ensures QueryAll([root], Named("parsererror")) != [] ==> r == InvalidOpml("Invalid OPML file")
    ensures QueryAll([root], Named("parsererror")) == [] ==>
              r == OpmlFeeds(OutlineFeeds(QueryAll([root], CarriesFeedUrl())))
  {
    QueryFirstIsHead([root], Named("parsererror"));
    if QueryFirst([root], Named("parsererror")).Some? {
      return InvalidOpml("Invalid OPML file");
    }
    var feeds := CollectFeeds(QueryAll([root], CarriesFeedUrl()), OutlineFeed);
    r := OpmlFeeds(feeds);
  }

  /** The `forEach` of the import: pushes what `read` gives for each
      element, in order. */
  method CollectFeeds(elements: seq<Element>, read: Element -> Option<OpmlFeed>) returns (feeds: seq<OpmlFeed>)
    ensures feeds == Collect(elements, read)
  {
    feeds := [];
    var i := 0;
    while i < |elements|
      invariant 0 <= i <= |elements|
      invariant feeds == Collect(elements[..i], read)
    {
      assert elements[..i + 1][..i] == elements[..i];
      var entry := read(elements[i]);
      if entry.Some? {
        feeds := feeds + [entry.value];
      }
      i := i + 1;
    }
    assert elements[..i] == elements;
  }

  /** The outlines the import takes a feed from. */
  function GivesFeed(): Element -> bool {
    (e: Element) => OutlineFeed(e).Some?
  }

  /** The imported feeds are the outlines with a non-empty feed url, in
      document order, each read through OutlineFeed. */
  lemma OutlineFeedsAreFiltered(outlines: seq<Element>)
    ensures var kept := Seqs.Filter(outlines, GivesFeed());
            && |OutlineFeeds(outlines)| == |kept|
            && forall i :: 0 <= i < |kept| ==> OutlineFeeds(outlines)[i] == OutlineFeed(kept[i]).value
  {
    CollectIsFiltered(outlines, OutlineFeed, GivesFeed());
  }

  lemma {:induction false} CollectIsFiltered(elements: seq<Element>, read: Element -> Option<OpmlFeed>, p: Element -> bool)
    requires forall e :: p(e) == read(e).Some?
    ensures var kept := Seqs.Filter(elements, p);
            && |Collect(elements, read)| == |kept|
            && forall i :: 0 <= i < |kept| ==> Collect(elements, read)[i] == read(kept[i]).value
  {
    if elements != [] {
      var n := |elements| - 1;
      var init, last := elements[..n], elements[n];
      CollectIsFiltered(init, read, p);
      assert elements == init + [last];
      Seqs.FilterAppend(init, [last], p);
      assert Seqs.Filter([last], p) == if p(last) then [last] else [];
    }
  }

  /** The DOM element an XML parser builds from an outline line: the named
      attributes with their values decoded. */
  function ParsedOutline(attrs: seq<(string, string)>): Element {
    Element("outline", AttrMap(attrs), "", [])
  }

  function AttrMap(attrs: seq<(string, string)>): map<string, string> {
    if attrs == [] then map[] else AttrMap(attrs[..|attrs| - 1])[attrs[|attrs| - 1].0 := Unescape(EscapeXml(attrs[|attrs| - 1].1))]
  }

  /** Export then import: an exported feed reads back with its url, its
      title (or the url when it had none) and its site url (or `''`); a feed
      with an empty url is dropped by the import. */
  lemma OutlineRoundTrip(f: Feed)
    ensures CarriesFeedUrl()(ParsedOutline(OutlineAttrs(f)))
    ensures OutlineFeed(ParsedOutline(OutlineAttrs(f))) ==
              if f.url == "" then None else Some(OpmlFeed(Either(f.title, f.url), f.url, OrElse(f.siteUrl, "")))
  {
    var title := Either(f.title, f.url);
    var site := OrElse(f.siteUrl, "");
    OutlineAttrMap(f);
    var e := ParsedOutline(OutlineAttrs(f));
    assert AttrText(e, "xmlUrl") == f.url && AttrText(e, "xmlurl") == "";
    assert AttrText(e, "title") == title && AttrText(e, "text") == title;
    assert AttrText(e, "htmlUrl") == site && AttrText(e, "htmlurl") == "";
    FirstNonEmpty3(title, title, f.url);
  }

  /** The attributes the import sees on an exported outline. */
  lemma OutlineAttrMap(f: Feed)
    ensures var title, site := Either(f.title, f.url), OrElse(f.siteUrl, "");
            AttrMap(OutlineAttrs(f))
            == (var m := map["type" := "rss", "text" := title, "title" := title, "xmlUrl" := f.url];
                if site != "" then m["htmlUrl" := site] else m)
  {
    var title := Either(f.title, f.url);
    var site := OrElse(f.siteUrl, "");
    UnescapeEscape("rss");
    UnescapeEscape(title);
    UnescapeEscape(f.url);
    UnescapeEscape(site);
    var base := [("type", "rss"), ("text", title), ("title", title), ("xmlUrl", f.url)];
    AttrMapFour("type", "rss", "text", title, "title", title, "xmlUrl", f.url);
    if site != "" {
      AttrMapSnoc(base, "htmlUrl", site);
      assert OutlineAttrs(f) == base + [("htmlUrl", site)];
    } else {
      assert OutlineAttrs(f) == base;
    }
  }

  lemma AttrMapSnoc(a: seq<(string, string)>, k: string, v: string)
    ensures AttrMap(a + [(k, v)]) == AttrMap(a)[k := Unescape(EscapeXml(v))]
  {
    assert (a + [(k, v)])[..|a|] == a;
  }

  lemma AttrMapFour(n1: string, v1: string, n2: string, v2: string, n3: string, v3: string, n4: string, v4: string)
    ensures AttrMap([(n1, v1), (n2, v2), (n3, v3), (n4, v4)])
         == map[n1 := Unescape(EscapeXml(v1)), n2 := Unescape(EscapeXml(v2)),
                n3 := Unescape(EscapeXml(v3)), n4 := Unescape(EscapeXml(v4))]
  {
    AttrMapSnoc([], n1, v1);
    AttrMapSnoc([(n1, v1)], n2, v2);
    AttrMapSnoc([(n1, v1), (n2, v2)], n3, v3);
    AttrMapSnoc([(n1, v1), (n2, v2), (n3, v3)], n4, v4);
    assert [] + [(n1, v1)] == [(n1, v1)];
    assert [(n1, v1)] + [(n2, v2)] == [(n1, v1), (n2, v2)];
    assert [(n1, v1), (n2, v2)] + [(n3, v3)] == [(n1, v1), (n2, v2), (n3, v3)];
    assert [(n1, v1), (n2, v2), (n3, v3)] + [(n4, v4)] == [(n1, v1), (n2, v2), (n3, v3), (n4, v4)];
  }
}
