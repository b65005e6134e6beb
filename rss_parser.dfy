/** Feed fetching and parsing (src/rssParser.js): RSS 2.0 and Atom documents
    mapped to one feed shape with per-field fallbacks, fetch errors turned
    into values, and the search for a feed at the usual locations of a site. */
module RssParser {
  import opened Values
  import opened Strings
  import opened Dom
  import Seqs

  /** An item of a parsed feed; `publishedAt` is an ISO timestamp or `null`. */
  datatype Item = Item(title: string, url: string, author: string, summary: string,
                       content: string, publishedAt: Option<string>)

  datatype ParsedFeed = ParsedFeed(title: string, description: string, siteUrl: string, items: seq<Item>)

  /** What `parseXML` returns or throws. */
  datatype ParseResult = Parsed(feed: ParsedFeed) | ParseFailed(message: string)

  /** What `fetchFeed` resolves to: `{ success: true, feed }` or
      `{ success: false, error }`. */
  datatype FetchResult = Fetched(feed: ParsedFeed) | FetchFailed(error: string)

  /** What `fetch` gives: a network failure with its message, or a response
      with its status and its body as `DOMParser` reads it. */
  datatype Response = NetworkFailure(message: string) | HttpResponse(status: nat, body: Element)

  /** `getTextContent(parent, selector)`. */
  function TextContent(parent: Option<Element>, selector: string): (r: string)
    ensures parent.None? || QueryAll(parent.value.children, Named(selector)) == [] ==> r == ""
    ensures parent.Some? && QueryAll(parent.value.children, Named(selector)) != [] ==>
              r == Trim(QueryAll(parent.value.children, Named(selector))[0].text)
    ensures r == [] || (!IsSpace(r[0]) && !IsSpace(r[|r| - 1]))
  {
    QueryFirstIsHead(if parent.Some? then parent.value.children else [], Named(selector));
    match parent
    case None => ""
    case Some(p) =>
      match QueryFirst(p.children, Named(selector))
      case None => ""
      case Some(el) => Trim(el.text)
  }

  /** `!!x` for a string that may be `null`. */
  predicate Present(x: Option<string>) {
    x.Some? && x.value != ""
  }

  /** The link `getAtomLink` stops at for `rel` (`undefined` is `None`). */
  predicate LinkSelected(link: Element, rel: Option<string>) {
    !Present(rel) || Attr(link, "rel") == rel || (!Present(Attr(link, "rel")) && rel == Some("alternate"))
  }

  /** The loop of `getAtomLink`: the `href` of the first selected link, `''`
      when it has none or no link is selected. */
  function FirstLinkHref(links: seq<Element>, rel: Option<string>): string {
    if links == [] then ""
    else if LinkSelected(links[0], rel) then AttrText(links[0], "href")
    else FirstLinkHref(links[1..], rel)
  }

  /** `getAtomLink(parent, rel)`. */
  function AtomLink(parent: Option<Element>, rel: Option<string>): string {
    match parent
    case None => ""
    case Some(p) => FirstLinkHref(QueryAll(p.children, Named("link")), rel)
  }

  /** The search stops at the first selected link even when it has no
      `href`; with no selected link the result is empty. */
  lemma {:induction false} FirstLinkHrefIsFirstMatch(links: seq<Element>, rel: Option<string>)
    ensures FirstLinkHref(links, rel) ==
              match Seqs.FindIndex(links, (l: Element) => LinkSelected(l, rel))
              case None => ""
              case Some(i) => AttrText(links[i], "href")
  {
    if links != [] && !LinkSelected(links[0], rel) {
      FirstLinkHrefIsFirstMatch(links[1..], rel);
    }
  }

  /** Without `rel` the first link wins; with `alternate` a link without a
      `rel` is accepted too; the parent absent gives `''`. */
  lemma AtomLinkCases(p: Element, link: Element, rest: seq<Element>)
    requires QueryAll(p.children, Named("link")) == [link] + rest
    ensures AtomLink(Some(p), None) == AttrText(link, "href")
    ensures !Present(Attr(link, "rel")) ==> AtomLink(Some(p), Some("alternate")) == AttrText(link, "href")
    ensures AtomLink(None, Some("alternate")) == "" && AtomLink(None, None) == ""
  {
  }

  /** `parseDate(s) || null`, with the calendar parsing `new Date(s)` and
      `toISOString` left to `toIso` (`None` for an invalid date). */
  function ParseDate(s: string, toIso: string -> Option<string>): (r: Option<string>)
    ensures r.Some? ==> s != "" && r.value != "" && toIso(s) == r
    ensures s == "" ==> r.None?
    ensures s != "" && toIso(s).Some? && toIso(s).value != "" ==> r == toIso(s)
  {
    if s == "" then None
    else match toIso(s)
      case Some(iso) => if iso == "" then None else Some(iso)
      case None => None
  }

  function RssItem(item: Element, toIso: string -> Option<string>): Item {
    var e := Some(item);
    Item(
      Either(TextContent(e, "title"), "Untitled"),
      TextContent(e, "link"),
      FirstNonEmpty([TextContent(e, "dc:creator"), TextContent(e, "creator"), TextContent(e, "author")]),
      TextContent(e, "description"),
      FirstNonEmpty([TextContent(e, "content:encoded"), TextContent(e, "encoded"), TextContent(e, "description")]),
      ParseDate(TextContent(e, "pubDate"), toIso))
  }

  /** `parseRSS(doc, channel)`. */
  function ParseRss(channel: Element, toIso: string -> Option<string>): (r: ParsedFeed)
    ensures r.title != ""
    ensures r.title == if TextContent(Some(channel), "title") != "" then TextContent(Some(channel), "title") else "Untitled Feed"
    ensures r.description == TextContent(Some(channel), "description")
    ensures r.siteUrl == TextContent(Some(channel), "link")
    ensures |r.items| == |QueryAll(channel.children, Named("item"))|
    ensures forall i :: 0 <= i < |r.items| ==> r.items[i] == RssItem(QueryAll(channel.children, Named("item"))[i], toIso)
  {
    var c := Some(channel);
    var items := QueryAll(channel.children, Named("item"));
    ParsedFeed(
      Either(TextContent(c, "title"), "Untitled Feed"),
      TextContent(c, "description"),
      TextContent(c, "link"),
      seq(|items|, i requires 0 <= i < |items| => RssItem(items[i], toIso)))
  }

  /** The RSS item fallbacks: a title always; the author from `dc:creator`,
      `creator` or `author`, the first that is not blank; the content from
      `content:encoded`, `encoded` or `description`. */
  lemma RssItemFallbacks(item: Element, toIso: string -> Option<string>)
    ensures RssItem(item, toIso).title != ""
    ensures RssItem(item, toIso).title == "Untitled" <==>
              TextContent(Some(item), "title") == "" || TextContent(Some(item), "title") == "Untitled"
    ensures RssItem(item, toIso).author ==
              if TextContent(Some(item), "dc:creator") != "" then TextContent(Some(item), "dc:creator")
              else if TextContent(Some(item), "creator") != "" then TextContent(Some(item), "creator")
              else TextContent(Some(item), "author")
    ensures RssItem(item, toIso).content ==
              if TextContent(Some(item), "content:encoded") != "" then TextContent(Some(item), "content:encoded")
              else if TextContent(Some(item), "encoded") != "" then TextContent(Some(item), "encoded")
              else RssItem(item, toIso).summary
  {
    var e := Some(item);
    FirstNonEmpty3(TextContent(e, "dc:creator"), TextContent(e, "creator"), TextContent(e, "author"));
    FirstNonEmpty3(TextContent(e, "content:encoded"), TextContent(e, "encoded"), TextContent(e, "description"));
  }

  function AtomEntry(entry: Element, toIso: string -> Option<string>): Item {
    var e := Some(entry);
    Item(
      Either(TextContent(e, "title"), "Untitled"),
      FirstNonEmpty([AtomLink(e, Some("alternate")), AtomLink(e, None)]),
      TextContent(QueryFirst(entry.children, Named("author")), "name"),
      TextContent(e, "summary"),
      FirstNonEmpty([TextContent(e, "content"), TextContent(e, "summary")]),
      ParseDate(Either(TextContent(e, "published"), TextContent(e, "updated")), toIso))
  }

  /** `parseAtom(doc, feed)`. */
  function ParseAtom(feed: Element, toIso: string -> Option<string>): (r: ParsedFeed)
    ensures r.title != ""
    ensures r.title == if TextContent(Some(feed), "title") != "" then TextContent(Some(feed), "title") else "Untitled Feed"
    ensures r.description == TextContent(Some(feed), "subtitle")
    ensures r.siteUrl == AtomLink(Some(feed), Some("alternate"))
    ensures |r.items| == |QueryAll(feed.children, Named("entry"))|
    ensures forall i :: 0 <= i < |r.items| ==> r.items[i] == AtomEntry(QueryAll(feed.children, Named("entry"))[i], toIso)
  {
    var f := Some(feed);
    var entries := QueryAll(feed.children, Named("entry"));
    ParsedFeed(
      Either(TextContent(f, "title"), "Untitled Feed"),
      TextContent(f, "subtitle"),
      AtomLink(f, Some("alternate")),
      seq(|entries|, i requires 0 <= i < |entries| => AtomEntry(entries[i], toIso)))
  }

  /** The Atom entry fallbacks: the url is the alternate link, else any
      link's; the date comes from `published`, else from `updated`. */
  lemma AtomEntryFallbacks(entry: Element, toIso: string -> Option<string>)
    ensures AtomLink(Some(entry), Some("alternate")) != "" ==>
              AtomEntry(entry, toIso).url == AtomLink(Some(entry), Some("alternate"))
    ensures AtomLink(Some(entry), Some("alternate")) == "" ==>
              AtomEntry(entry, toIso).url == AtomLink(Some(entry), None)
    ensures TextContent(Some(entry), "published") != "" ==>
              AtomEntry(entry, toIso).publishedAt == ParseDate(TextContent(Some(entry), "published"), toIso)
    ensures TextContent(Some(entry), "published") == "" ==>
              AtomEntry(entry, toIso).publishedAt == ParseDate(TextContent(Some(entry), "updated"), toIso)
    ensures QueryAll(entry.children, Named("author")) == [] ==> AtomEntry(entry, toIso).author == ""
  {
    FirstNonEmpty2(AtomLink(Some(entry), Some("alternate")), AtomLink(Some(entry), None));
    QueryFirstIsHead(entry.children, Named("author"));
  }

  /** `parseXML` on the parsed document `root`. */
  function ParseXml(root: Element, toIso: string -> Option<string>): ParseResult {
    if QueryFirst([root], Named("parsererror")).Some? then ParseFailed("Invalid XML")
    else match QueryFirst([root], Named("channel"))
      case Some(channel) => Parsed(ParseRss(channel, toIso))
      case None =>
        match QueryFirst([root], Named("feed"))
        case Some(feed) => Parsed(ParseAtom(feed, toIso))
        case None => ParseFailed("Unknown feed format")
  }

  /** The format dispatch: a parse error wins, then the first `channel` (RSS),
      then the first `feed` (Atom); with neither the format is unknown. */
  lemma ParseXmlDispatch(root: Element, toIso: string -> Option<string>)
    ensures QueryAll([root], Named("parsererror")) != [] ==> ParseXml(root, toIso) == ParseFailed("Invalid XML")
    ensures QueryAll([root], Named("parsererror")) == [] && QueryAll([root], Named("channel")) != [] ==>
              ParseXml(root, toIso) == Parsed(ParseRss(QueryAll([root], Named("channel"))[0], toIso))
    ensures QueryAll([root], Named("parsererror")) == [] && QueryAll([root], Named("channel")) == []
            && QueryAll([root], Named("feed")) != [] ==>
              ParseXml(root, toIso) == Parsed(ParseAtom(QueryAll([root], Named("feed"))[0], toIso))
    ensures ParseXml(root, toIso) == ParseFailed("Unknown feed format") <==>
              QueryAll([root], Named("parsererror")) == [] && QueryAll([root], Named("channel")) == []
              && QueryAll([root], Named("feed")) == []
  {
    QueryFirstIsHead([root], Named("parsererror"));
    QueryFirstIsHead([root], Named("channel"));
    QueryFirstIsHead([root], Named("feed"));
  }

  // ---- fetchFeed ----

  function DigitChar(d: nat): char
    requires d < 10
  {
    ('0' as int + d) as char
  }

  /** A status code in decimal, as a template literal prints it. */
  function Decimal(n: nat): (r: string)
    ensures |r| > 0
    ensures forall i :: 0 <= i < |r| ==> '0' <= r[i] <= '9'
  {
    if n < 10 then [DigitChar(n)] else Decimal(n / 10) + [DigitChar(n % 10)]
  }

  function DecimalValue(s: string): int {
    if s == [] then 0 else DecimalValue(s[..|s| - 1]) * 10 + (s[|s| - 1] as int - '0' as int)
  }

  /** The decimal text names the status it was made from. */
  lemma {:induction false} DecimalRoundTrip(n: nat)
    ensures DecimalValue(Decimal(n)) == n
  {
    if n >= 10 {
      DecimalRoundTrip(n / 10);
      var s := Decimal(n);
      assert s[..|s| - 1] == Decimal(n / 10);
    }
  }

  /** `fetchFeed(url)` once the proxy request came back as `response`. A
      network failure keeps its message (or a generic one), a status outside
      200-299 becomes `HTTP <status>`, a document that does not parse gives
      the parser's message. */
  function FetchFeed(response: Response, toIso: string -> Option<string>): (r: FetchResult)
    ensures r.FetchFailed? ==> r.error != ""
    ensures r.Fetched? <==> response.HttpResponse? && 200 <= response.status <= 299
                            && ParseXml(response.body, toIso).Parsed?
    ensures response.HttpResponse? && !(200 <= response.status <= 299) ==>
              r.FetchFailed? && |r.error| > 5 && r.error[..5] == "HTTP " && DecimalValue(r.error[5..]) == response.status
    ensures r.Fetched? ==> r.feed == ParseXml(response.body, toIso).feed
    ensures response.HttpResponse? && 200 <= response.status <= 299 && ParseXml(response.body, toIso).ParseFailed? ==>
              r == FetchFailed(ParseXml(response.body, toIso).message)
    ensures response.NetworkFailure? ==>
              r == FetchFailed(if response.message != "" then response.message else "Failed to fetch feed")
  {
    match response
    case NetworkFailure(message) => FetchFailed(Either(message, "Failed to fetch feed"))
    case HttpResponse(status, body) =>
      if !(200 <= status <= 299) then
        DecimalRoundTrip(status);
        var e := "HTTP " + Decimal(status);
        assert e[5..] == Decimal(status);
        FetchFailed(e)
      else match ParseXml(body, toIso)
        case Parsed(feed) => Fetched(feed)
        case ParseFailed(message) => FetchFailed(message)
  }

  // ---- discovery ----

  const FeedSuffixes: seq<string> := ["/feed", "/feed.xml", "/rss", "/rss.xml", "/atom.xml", "/index.xml"]

  /** `siteUrl.replace(/\/$/, '')`. */
  function StripSlash(s: string): (r: string)
    ensures s == r || s == r + "/"
  {
    if |s| > 0 && s[|s| - 1] == '/' then s[..|s| - 1] else s
  }

  /** `possibleFeedUrls(siteUrl)`. */
  function PossibleFeedUrls(siteUrl: string): (r: seq<string>)
    ensures |r| == 6
    ensures forall i :: 0 <= i < 6 ==> r[i] == StripSlash(siteUrl) + FeedSuffixes[i]
  {
    var base := StripSlash(siteUrl);
    seq(6, i requires 0 <= i < 6 => base + FeedSuffixes[i])
  }

  /** One trailing slash makes no difference to the candidates, and only
      one is removed. */
  lemma PossibleFeedUrlsSlash(siteUrl: string)
    ensures (siteUrl == [] || siteUrl[|siteUrl| - 1] != '/') ==>
              PossibleFeedUrls(siteUrl + "/") == PossibleFeedUrls(siteUrl)
    ensures PossibleFeedUrls(siteUrl + "//")[0] == siteUrl + "//feed"
  {
    assert (siteUrl + "/")[..|siteUrl|] == siteUrl;
    assert (siteUrl + "//")[..|siteUrl| + 1] == siteUrl + "/";
    assert siteUrl + "/" + "/feed" == siteUrl + "//feed";
  }

  datatype Discovery = Discovered(feedUrl: string, feed: ParsedFeed) | NotDiscovered(error: string)

  /** The loop of `discoverFeed`: try the urls in order, stop at the first
      success. */
  function FirstSuccess(urls: seq<string>, fetchAt: string -> FetchResult): Discovery {
    if urls == [] then NotDiscovered("No feed found at common locations")
    else match fetchAt(urls[0])
      case Fetched(feed) => Discovered(urls[0], feed)
      case FetchFailed(_) => FirstSuccess(urls[1..], fetchAt)
  }

  /** `discoverFeed(siteUrl)`; `fetchAt(url)` is what `fetchFeed(url)`
      resolves to. */
  function DiscoverFeed(siteUrl: string, fetchAt: string -> FetchResult): Discovery {
    FirstSuccess(PossibleFeedUrls(siteUrl), fetchAt)
  }

  /** Discovery finds the first candidate whose fetch succeeds, and fails
      exactly when every candidate fails. */
  lemma {:induction false} FirstSuccessIsFirst(urls: seq<string>, fetchAt: string -> FetchResult)
    ensures FirstSuccess(urls, fetchAt).NotDiscovered? <==> forall i :: 0 <= i < |urls| ==> fetchAt(urls[i]).FetchFailed?
    ensures FirstSuccess(urls, fetchAt).Discovered? ==>
              exists i :: 0 <= i < |urls| && urls[i] == FirstSuccess(urls, fetchAt).feedUrl
                          && fetchAt(urls[i]) == Fetched(FirstSuccess(urls, fetchAt).feed)
                          && forall j :: 0 <= j < i ==> fetchAt(urls[j]).FetchFailed?
  {
    if urls != [] && fetchAt(urls[0]).FetchFailed? {
      FirstSuccessIsFirst(urls[1..], fetchAt);
      var r := FirstSuccess(urls, fetchAt);
      if r.Discovered? {
        var i :| 0 <= i < |urls[1..]| && urls[1..][i] == r.feedUrl && fetchAt(urls[1..][i]) == Fetched(r.feed)
                 && forall j :: 0 <= j < i ==> fetchAt(urls[1..][j]).FetchFailed?;
        assert urls[i + 1] == r.feedUrl;
        forall j | 0 <= j < i + 1 ensures fetchAt(urls[j]).FetchFailed? {
          if j > 0 { assert urls[j] == urls[1..][j - 1]; }
        }
      } else {
        forall i | 0 <= i < |urls| ensures fetchAt(urls[i]).FetchFailed? {
          if i > 0 { assert urls[i] == urls[1..][i - 1]; }
        }
      }
    }
  }

  /** The discovered url is one of the six candidates, tried in order. */
  lemma DiscoverFeedCandidates(siteUrl: string, fetchAt: string -> FetchResult)
    ensures DiscoverFeed(siteUrl, fetchAt).NotDiscovered? <==>
              forall i :: 0 <= i < 6 ==> fetchAt(StripSlash(siteUrl) + FeedSuffixes[i]).FetchFailed?
    ensures DiscoverFeed(siteUrl, fetchAt).Discovered? ==>
              exists i :: 0 <= i < 6 && DiscoverFeed(siteUrl, fetchAt).feedUrl == StripSlash(siteUrl) + FeedSuffixes[i]
                          && forall j :: 0 <= j < i ==> fetchAt(StripSlash(siteUrl) + FeedSuffixes[j]).FetchFailed?
  {
    FirstSuccessIsFirst(PossibleFeedUrls(siteUrl), fetchAt);
  }
}
