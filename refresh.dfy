/** `refreshFeed` and `refreshAllFeeds` of src/feedManager.js as functions of
    the dataset: the feed-health update, the duplicate and date filter over
    the fetched items, and the counts reported. The clock, the cutoff date
    and the generated ids are parameters; `fetch` stands for `fetchFeed`. */
module Refresh {
  import opened Values
  import opened Types
  import opened Seqs
  import opened Strings
  import opened FeedOps
  import opened ArticleOps
  import opened RssParser

  /** What `refreshFeed` resolves to. */
  datatype RefreshResult = Refreshed(newArticles: nat, totalItems: nat) | RefreshFailed(error: string)

  /** An entry of `refreshAllFeeds`' list: the feed as it was listed, then
      its refresh result. */
  datatype FeedReport = FeedReport(feedId: string, title: string, result: RefreshResult)

  /** `existingUrls`: the urls of the feed's articles when the refresh starts. */
  function KnownUrls(articles: seq<Article>, feedId: string): set<string> {
    set a | a in articles && a.feedId == feedId :: a.url
  }

  /** `item.publishedAt || now()`. */
  function EffectiveDate(item: Item, now: string): string {
    OrElse(item.publishedAt, now)
  }

  /** An item is added when its url is not among the known ones and its
      date is not before the cutoff. */
  predicate Admits(known: set<string>, cutoff: string, now: string, item: Item) {
    item.url !in known && AtMost(cutoff, EffectiveDate(item, now))
  }

  /** The object the loop hands to `addArticle`. */
  function AsInput(item: Item, feedId: string): ArticleInput {
    ArticleInput(feedId, item.title, item.url, item.author, item.summary, item.content, item.publishedAt)
  }

  /** The articles the loop appends, in item order; the k-th gets `ids(k)`.
      `known` is not extended as articles are added. */
  function Added(items: seq<Item>, feedId: string, known: set<string>, cutoff: string, now: string,
                 ids: nat -> string): seq<Article>
  {
    if items == [] then []
    else
      var init := Added(items[..|items| - 1], feedId, known, cutoff, now, ids);
      var item := items[|items| - 1];
      if Admits(known, cutoff, now, item) then init + [NewArticle(AsInput(item, feedId), ids(|init|), now)]
      else init
  }

  /** `Admits` as the test of a `filter`. */
  function Admitting(known: set<string>, cutoff: string, now: string): Item -> bool {
    (item: Item) => Admits(known, cutoff, now, item)
  }

  /** The added articles are the admitted items, in order, each made an
      article of the feed fetched now. */
  lemma {:induction false} AddedAreAdmitted(items: seq<Item>, feedId: string, known: set<string>, cutoff: string,
                                           now: string, ids: nat -> string)
    ensures var added := Added(items, feedId, known, cutoff, now, ids);
            var admitted := Filter(items, Admitting(known, cutoff, now));
            && |added| == |admitted|
            && forall k :: 0 <= k < |added| ==> added[k] == NewArticle(AsInput(admitted[k], feedId), ids(k), now)
    decreases |items|
  {
    var p := Admitting(known, cutoff, now);
    if items != [] {
      var n := |items| - 1;
      var item := items[n];
      AddedAreAdmitted(items[..n], feedId, known, cutoff, now, ids);
      assert items == items[..n] + [item];
      FilterAppend(items[..n], [item], p);
      assert [item][1..] == [];
      var init := Added(items[..n], feedId, known, cutoff, now, ids);
      var before := Filter(items[..n], p);
      var added := Added(items, feedId, known, cutoff, now, ids);
      var admitted := Filter(items, p);
      if p(item) {
        assert Filter([item], p) == [item];
        var last := NewArticle(AsInput(item, feedId), ids(|init|), now);
        assert added == init + [last];
        assert admitted == before + [item];
        forall k | 0 <= k < |added| ensures added[k] == NewArticle(AsInput(admitted[k], feedId), ids(k), now) {
          if k < |init| {
            assert added[k] == init[k] && admitted[k] == before[k];
          } else {
            assert k == |init| == |before|;
            assert added[k] == last && admitted[k] == item;
          }
        }
      } else {
        assert Filter([item], p) == [];
        assert added == init;
        assert admitted == before;
      }
    }
  }

  /** The spread `updateFeed` applies after a failed fetch. */
  function FailurePatch(feed: Feed, now: string): FeedPatch {
    NoChange.(errorCount := Some(feed.errorCount + 1), lastFetchedAt := Some(Some(now)))
  }

  /** The spread after a successful fetch: the title only while it is still
      the url, then the site url, description, fetch time and a cleared
      error count. */
  function SuccessPatch(feed: Feed, parsed: ParsedFeed, now: string): FeedPatch {
    NoChange.(title := Some(if feed.title == feed.url then parsed.title else feed.title),
              siteUrl := Some(Some(parsed.siteUrl)), description := Some(Some(parsed.description)),
              lastFetchedAt := Some(Some(now)), errorCount := Some(0))
  }

  /** The dataset after the first save of a refresh, the `updateFeed` of the
      feed's health. */
  function AfterHealth(d: AppData, feedId: string, fetch: string -> FetchResult, now: string): AppData {
    match GetFeed(d.feeds, feedId)
    case None => d
    case Some(feed) =>
      var patch := match fetch(feed.url)
        case FetchFailed(_) => FailurePatch(feed, now)
        case Fetched(parsed) => SuccessPatch(feed, parsed, now);
      match UpdateFeed(d.feeds, feedId, patch)
      case None => d
      case Some((feeds, _)) => d.(feeds := feeds)
  }

  /** `refreshFeed(feedId)`: the dataset it leaves (before the save stamps
      it) and its result. */
  function RefreshOne(d: AppData, feedId: string, fetch: string -> FetchResult, cutoff: string, now: string,
                      ids: nat -> string): (AppData, RefreshResult)
  {
    match GetFeed(d.feeds, feedId)
    case None => (d, RefreshFailed("Feed not found"))
    case Some(feed) =>
      match fetch(feed.url)
      case FetchFailed(e) => (AfterHealth(d, feedId, fetch, now), RefreshFailed(e))
      case Fetched(parsed) =>
        var added := Added(parsed.items, feedId, KnownUrls(d.articles, feedId), cutoff, now, ids);
        (AfterHealth(d, feedId, fetch, now).(articles := d.articles + added),
         Refreshed(|added|, |parsed.items|))
  }

  /** An unknown feed id changes nothing and reports "Feed not found". */
  lemma RefreshUnknownFeed(d: AppData, feedId: string, fetch: string -> FetchResult, cutoff: string, now: string,
                           ids: nat -> string)
    requires forall i :: 0 <= i < |d.feeds| ==> d.feeds[i].id != feedId
    ensures RefreshOne(d, feedId, fetch, cutoff, now, ids) == (d, RefreshFailed("Feed not found"))
  {
  }

  /** Feed health: a failed fetch counts one more error and records the
      time, a successful one clears the count, records the time and the
      site details, and replaces the title only while it equals the url.
      Nothing else about the feed, and no other feed, changes. */
  lemma RefreshHealth(d: AppData, feedId: string, fetch: string -> FetchResult, now: string)
    requires GetFeed(d.feeds, feedId).Some?
    ensures var feed := GetFeed(d.feeds, feedId).value;
            var k := FindIndex(d.feeds, WithId(feedId)).value;
            var after := AfterHealth(d, feedId, fetch, now).feeds;
            && |after| == |d.feeds|
            && (forall j :: 0 <= j < |d.feeds| && j != k ==> after[j] == d.feeds[j])
            && after[k].id == feed.id && after[k].url == feed.url && after[k].tags == feed.tags
            && after[k].folderId == feed.folderId && after[k].isEnabled == feed.isEnabled
            && after[k].lastFetchedAt == Some(now)
            && (fetch(feed.url).FetchFailed? ==>
                  after[k] == feed.(errorCount := feed.errorCount + 1, lastFetchedAt := Some(now)))
            && (fetch(feed.url).Fetched? ==>
                  && after[k].errorCount == 0
                  && after[k].title == (if feed.title == feed.url then fetch(feed.url).feed.title else feed.title)
                  && after[k].siteUrl == Some(fetch(feed.url).feed.siteUrl)
                  && after[k].description == Some(fetch(feed.url).feed.description))
  {
  }

  /** The title is filled in once: after a success that gave the feed a
      title other than its url, later successes keep that title. */
  lemma TitleFilledOnce(feed: Feed, first: ParsedFeed, second: ParsedFeed, t1: string, t2: string)
    requires feed.title == feed.url && first.title != feed.url
    ensures var once := Patched(feed, SuccessPatch(feed, first, t1));
            && once.title == first.title
            && Patched(once, SuccessPatch(once, second, t2)).title == first.title
  {
  }

  /** Dedup and window: no added article has a url the feed already had,
      every added article's date is at or after the cutoff, and every added
      article belongs to the feed. */
  lemma {:induction false} AddedRespectsFilters(items: seq<Item>, feedId: string, known: set<string>, cutoff: string,
                                              now: string, ids: nat -> string)
    ensures forall a :: a in Added(items, feedId, known, cutoff, now, ids) ==>
              && a.url !in known && a.feedId == feedId && a.fetchedAt == now
              && AtMost(cutoff, OrElse(a.publishedAt, now))
    decreases |items|
  {
    if items != [] {
      AddedRespectsFilters(items[..|items| - 1], feedId, known, cutoff, now, ids);
    }
  }

  /** The window in terms of items: an item dated before the cutoff is
      never added, and an undated item the feed does not know is added when
      the cutoff is not after now. */
  lemma {:induction false} WindowByItem(items: seq<Item>, feedId: string, known: set<string>, cutoff: string,
                                      now: string, ids: nat -> string)
    ensures forall k :: 0 <= k < |items| && items[k].publishedAt.Some? && items[k].publishedAt.value != ""
                          && Below(items[k].publishedAt.value, cutoff) ==>
              forall a :: a in Added(items, feedId, known, cutoff, now, ids) ==> a.url != items[k].url || a.url in UrlsExcept(items, k)
    ensures forall k :: 0 <= k < |items| && items[k].publishedAt.None? && items[k].url !in known && AtMost(cutoff, now) ==>
              exists a :: a in Added(items, feedId, known, cutoff, now, ids) && a.url == items[k].url
    decreases |items|
  {
    if items != [] {
      var n := |items| - 1;
      var init := items[..n];
      WindowByItem(init, feedId, known, cutoff, now, ids);
      var rest := Added(init, feedId, known, cutoff, now, ids);
      var all := Added(items, feedId, known, cutoff, now, ids);
      assert forall a :: a in rest ==> a in all;
      forall k | 0 <= k < |items| && items[k].publishedAt.Some? && items[k].publishedAt.value != ""
                 && Below(items[k].publishedAt.value, cutoff)
        ensures forall a :: a in all ==> a.url != items[k].url || a.url in UrlsExcept(items, k)
      {
        forall a | a in all && a.url == items[k].url ensures a.url in UrlsExcept(items, k) {
          if k == n {
            BelowIffNotAtLeast(items[k].publishedAt.value, cutoff);
            assert a in rest;
            AddedUrlsFromItems(init, feedId, known, cutoff, now, ids);
            var m :| 0 <= m < n && init[m].url == a.url;
            assert items[m].url == a.url;
          } else if a in rest {
            assert a.url in UrlsExcept(init, k);
            var m :| 0 <= m < |init| && m != k && init[m].url == a.url;
            assert items[m].url == a.url;
          } else {
            assert a.url == items[n].url;
          }
        }
      }
      forall k | 0 <= k < |items| && items[k].publishedAt.None? && items[k].url !in known && AtMost(cutoff, now)
        ensures exists a :: a in all && a.url == items[k].url
      {
        if k == n {
          var a := NewArticle(AsInput(items[n], feedId), ids(|rest|), now);
          assert a in all;
        } else {
          assert init[k] == items[k];
          var a :| a in rest && a.url == init[k].url;
          assert a in all;
        }
      }
    }
  }

  /** The urls of all items but the k-th. */
  function UrlsExcept(items: seq<Item>, k: nat): set<string> {
    set m | 0 <= m < |items| && m != k :: items[m].url
  }

  /** Every added article's url is the url of an item. */
  lemma {:induction false} AddedUrlsFromItems(items: seq<Item>, feedId: string, known: set<string>, cutoff: string,
                                            now: string, ids: nat -> string)
    ensures forall a :: a in Added(items, feedId, known, cutoff, now, ids) ==>
              exists m :: 0 <= m < |items| && items[m].url == a.url
    decreases |items|
  {
    if items != [] {
      var n := |items| - 1;
      AddedUrlsFromItems(items[..n], feedId, known, cutoff, now, ids);
      forall a | a in Added(items, feedId, known, cutoff, now, ids)
        ensures exists m :: 0 <= m < |items| && items[m].url == a.url
      {
        if a in Added(items[..n], feedId, known, cutoff, now, ids) {
          var m :| 0 <= m < n && items[..n][m].url == a.url;
          assert items[m].url == a.url;
        } else {
          assert items[n].url == a.url;
        }
      }
    }
  }

  /** `existingUrls` is not updated inside the loop: two new items with the
      same url in one payload both become articles. */
  lemma DuplicateItemsBothAdded(item: Item, feedId: string, known: set<string>, cutoff: string, now: string,
                                ids: nat -> string)
    requires Admits(known, cutoff, now, item)
    ensures |Added([item, item], feedId, known, cutoff, now, ids)| == 2
    ensures Added([item, item], feedId, known, cutoff, now, ids)[0].url == Added([item, item], feedId, known, cutoff, now, ids)[1].url
  {
    assert [item, item][..1] == [item];
    assert [item][..0] == [];
    var once := Added([item], feedId, known, cutoff, now, ids);
    assert Added([item][..0], feedId, known, cutoff, now, ids) == [];
    var first := NewArticle(AsInput(item, feedId), ids(0), now);
    assert once == [] + [first];
    assert once == [NewArticle(AsInput(item, feedId), ids(0), now)];
    assert Added([item, item], feedId, known, cutoff, now, ids) == once + [NewArticle(AsInput(item, feedId), ids(1), now)];
  }

  /** The counts: a successful refresh reports the payload's length as the
      total and the number of articles appended as new; the articles before
      it stay, in order, in front. */
  lemma RefreshCounts(d: AppData, feedId: string, fetch: string -> FetchResult, cutoff: string, now: string,
                      ids: nat -> string)
    requires GetFeed(d.feeds, feedId).Some? && fetch(GetFeed(d.feeds, feedId).value.url).Fetched?
    ensures var (after, result) := RefreshOne(d, feedId, fetch, cutoff, now, ids);
            var items := fetch(GetFeed(d.feeds, feedId).value.url).feed.items;
            && result.Refreshed?
            && result.totalItems == |items|
            && |after.articles| == |d.articles| + result.newArticles
            && after.articles[..|d.articles|] == d.articles
            && result.newArticles <= |items|
  {
    var items := fetch(GetFeed(d.feeds, feedId).value.url).feed.items;
    var known := KnownUrls(d.articles, feedId);
    AddedAreAdmitted(items, feedId, known, cutoff, now, ids);
    var after := RefreshOne(d, feedId, fetch, cutoff, now, ids).0;
    assert after.articles == d.articles + Added(items, feedId, known, cutoff, now, ids);
    assert after.articles[..|d.articles|] == d.articles;
  }

  /** A refresh changes only the feeds and articles, and keeps every feed
      id and url where it was. */
  lemma RefreshKeepsTheRest(d: AppData, feedId: string, fetch: string -> FetchResult, cutoff: string, now: string,
                            ids: nat -> string)
    ensures var after := RefreshOne(d, feedId, fetch, cutoff, now, ids).0;
            && after.(feeds := d.feeds, articles := d.articles) == d
            && FeedIds(after.feeds) == FeedIds(d.feeds)
            && |after.feeds| == |d.feeds|
            && forall i :: 0 <= i < |d.feeds| ==> after.feeds[i].url == d.feeds[i].url
  {
    var after := RefreshOne(d, feedId, fetch, cutoff, now, ids).0;
    match GetFeed(d.feeds, feedId)
    case None =>
    case Some(feed) =>
      var patch := match fetch(feed.url)
        case FetchFailed(_) => FailurePatch(feed, now)
        case Fetched(parsed) => SuccessPatch(feed, parsed, now);
      GetFeedIsUpdated(d.feeds, feedId, patch);
      UpdateKeepsIds(d.feeds, feedId, patch);
      assert AfterHealth(d, feedId, fetch, now).feeds == UpdateFeed(d.feeds, feedId, patch).value.0;
  }

  /** Refreshing again with the same payload adds nothing, provided the
      second cutoff is not earlier than the first and the first was not
      after the first refresh's clock. */
  lemma SecondRefreshAddsNothing(d: AppData, feedId: string, fetch: string -> FetchResult,
                                 cutoff1: string, now1: string, ids1: nat -> string,
                                 cutoff2: string, now2: string, ids2: nat -> string)
    requires GetFeed(d.feeds, feedId).Some? && fetch(GetFeed(d.feeds, feedId).value.url).Fetched?
    requires AtMost(cutoff1, cutoff2) && AtMost(cutoff1, now1)
    ensures var once := RefreshOne(d, feedId, fetch, cutoff1, now1, ids1).0;
            var (twice, result) := RefreshOne(once, feedId, fetch, cutoff2, now2, ids2);
            && twice.articles == once.articles
            && result.Refreshed? && result.newArticles == 0
  {
    var feed := GetFeed(d.feeds, feedId).value;
    var items := fetch(feed.url).feed.items;
    var known1 := KnownUrls(d.articles, feedId);
    var added := Added(items, feedId, known1, cutoff1, now1, ids1);
    var once := RefreshOne(d, feedId, fetch, cutoff1, now1, ids1).0;
    FoundAfterRefresh(d, feedId, fetch, cutoff1, now1, ids1);
    assert once.articles == d.articles + added;
    var known2 := KnownUrls(once.articles, feedId);
    AddedRespectsFilters(items, feedId, known1, cutoff1, now1, ids1);
    assert known1 <= known2;
    assert forall a :: a in added ==> a.url in known2 by {
      forall a | a in added ensures a.url in known2 {
        assert a in once.articles && a.feedId == feedId;
      }
    }
    NoItemAdmittedAgain(items, feedId, known1, cutoff1, now1, ids1, known2, cutoff2, now2);
    NothingAdmitted(items, feedId, known2, cutoff2, now2, ids2);
  }

  /** A refresh keeps the feed under its id, with its url. */
  lemma FoundAfterRefresh(d: AppData, feedId: string, fetch: string -> FetchResult, cutoff: string, now: string,
                          ids: nat -> string)
    requires GetFeed(d.feeds, feedId).Some?
    ensures var once := RefreshOne(d, feedId, fetch, cutoff, now, ids).0;
            GetFeed(once.feeds, feedId).Some? && GetFeed(once.feeds, feedId).value.url == GetFeed(d.feeds, feedId).value.url
  {
    var once := RefreshOne(d, feedId, fetch, cutoff, now, ids).0;
    RefreshKeepsTheRest(d, feedId, fetch, cutoff, now, ids);
    var k := FindIndex(d.feeds, WithId(feedId)).value;
    assert FeedIds(once.feeds)[k] == feedId;
    assert forall j :: 0 <= j < k ==> FeedIds(once.feeds)[j] == FeedIds(d.feeds)[j];
    FirstIndex(once.feeds, WithId(feedId), k);
  }

  /** Once the urls of the added articles are known, an item the first pass
      admitted has a known url, and one it passed over for its date is
      before any later cutoff: no item is admitted a second time. */
  lemma NoItemAdmittedAgain(items: seq<Item>, feedId: string, known1: set<string>, cutoff1: string, now1: string,
                            ids1: nat -> string, known2: set<string>, cutoff2: string, now2: string)
    requires AtMost(cutoff1, cutoff2) && AtMost(cutoff1, now1) && known1 <= known2
    requires forall a :: a in Added(items, feedId, known1, cutoff1, now1, ids1) ==> a.url in known2
    ensures forall item :: item in items ==> !Admits(known2, cutoff2, now2, item)
  {
    forall item | item in items ensures !Admits(known2, cutoff2, now2, item) {
      if item.url !in known1 && AtMost(cutoff1, EffectiveDate(item, now1)) {
        AdmittedIsAdded(items, item, feedId, known1, cutoff1, now1, ids1);
      } else if item.url !in known1 {
        // dated before the first cutoff, hence before the second
        assert item.publishedAt.Some? && item.publishedAt.value != "";
        BelowIffNotAtLeast(item.publishedAt.value, cutoff1);
        BelowAtMostTransitive(item.publishedAt.value, cutoff1, cutoff2);
        BelowIffNotAtLeast(item.publishedAt.value, cutoff2);
      }
    }
  }

  /** An admitted item of the payload is added. */
  lemma {:induction false} AdmittedIsAdded(items: seq<Item>, item: Item, feedId: string, known: set<string>,
                                         cutoff: string, now: string, ids: nat -> string)
    requires item in items && Admits(known, cutoff, now, item)
    ensures exists a :: a in Added(items, feedId, known, cutoff, now, ids) && a.url == item.url
    decreases |items|
  {
    var n := |items| - 1;
    var all := Added(items, feedId, known, cutoff, now, ids);
    if items[n] == item {
      assert all[|all| - 1].url == item.url;
    } else {
      assert item in items[..n] by {
        var m :| 0 <= m < |items| && items[m] == item;
        assert m < n;
        assert items[..n][m] == item;
      }
      AdmittedIsAdded(items[..n], item, feedId, known, cutoff, now, ids);
      var a :| a in Added(items[..n], feedId, known, cutoff, now, ids) && a.url == item.url;
      assert a in all;
    }
  }

  /** With no item admitted, nothing is added. */
  lemma {:induction false} NothingAdmitted(items: seq<Item>, feedId: string, known: set<string>, cutoff: string,
                                         now: string, ids: nat -> string)
    requires forall item :: item in items ==> !Admits(known, cutoff, now, item)
    ensures Added(items, feedId, known, cutoff, now, ids) == []
    decreases |items|
  {
    if items != [] {
      var n := |items| - 1;
      assert forall item :: item in items[..n] ==> item in items;
      NothingAdmitted(items[..n], feedId, known, cutoff, now, ids);
    }
  }

  // ---- refreshAllFeeds ----

  /** The dataset as a save leaves it: stamped when the save wrote it. */
  function Stamped(d: AppData, now: string, wrote: bool): AppData {
    if wrote then d.(lastSyncedAt := Str(now)) else d
  }

  /** The first `n` turns of `refreshAllFeeds` over the listed feeds: one
      `refreshFeed` after the other, each on the dataset the earlier ones
      left and stamped when its saves reached the database; `ids(i)` are
      the ids the i-th refresh generates and `open` whether the saves reach
      a database. */
  function RefreshFirst(d: AppData, feeds: seq<Feed>, n: nat, fetch: string -> FetchResult, cutoff: string,
                        now: string, ids: nat -> nat -> string, open: bool): (r: (AppData, seq<FeedReport>))
    requires n <= |feeds|
    ensures |r.1| == n
    ensures forall i :: 0 <= i < n ==> r.1[i].feedId == feeds[i].id && r.1[i].title == feeds[i].title
    decreases n
  {
    if n == 0 then (d, [])
    else
      var prev := RefreshFirst(d, feeds, n - 1, fetch, cutoff, now, ids, open);
      var step := RefreshOne(prev.0, feeds[n - 1].id, fetch, cutoff, now, ids(n - 1));
      (Stamped(step.0, now, open && GetFeed(prev.0.feeds, feeds[n - 1].id).Some?),
       prev.1 + [FeedReport(feeds[n - 1].id, feeds[n - 1].title, step.1)])
  }

  /** `trace[k]` is the state after the first `k` turns, for every `k` up
      to the number of listed feeds. */
  ghost predicate Traces(trace: seq<(AppData, seq<FeedReport>)>, d: AppData, feeds: seq<Feed>,
                         fetch: string -> FetchResult, cutoff: string, now: string, ids: nat -> nat -> string,
                         open: bool)
  {
    && |trace| == |feeds| + 1
    && forall k {:trigger RefreshFirst(d, feeds, k, fetch, cutoff, now, ids, open)} ::
         0 <= k <= |feeds| ==> trace[k] == RefreshFirst(d, feeds, k, fetch, cutoff, now, ids, open)
  }

  /** The states of a whole run, turn by turn. */
  ghost function Trace(d: AppData, feeds: seq<Feed>, fetch: string -> FetchResult, cutoff: string, now: string,
                       ids: nat -> nat -> string, open: bool): (trace: seq<(AppData, seq<FeedReport>)>)
    ensures Traces(trace, d, feeds, fetch, cutoff, now, ids, open)
    ensures trace[|feeds|] == RefreshAll(d, feeds, fetch, cutoff, now, ids, open)
  {
    seq(|feeds| + 1, k requires 0 <= k <= |feeds| => RefreshFirst(d, feeds, k, fetch, cutoff, now, ids, open))
  }

  /** The i-th turn of a traced run refreshes the i-th listed feed, which
      is still in the dataset, and leads from `trace[i]` to `trace[i + 1]`. */
  lemma TraceStep(trace: seq<(AppData, seq<FeedReport>)>, d: AppData, feeds: seq<Feed>, i: nat,
                  fetch: string -> FetchResult, cutoff: string, now: string, ids: nat -> nat -> string, open: bool)
    requires i < |feeds| && feeds[i] in d.feeds && Traces(trace, d, feeds, fetch, cutoff, now, ids, open)
    ensures GetFeed(trace[i].0.feeds, feeds[i].id).Some?
    ensures var step := RefreshOne(trace[i].0, feeds[i].id, fetch, cutoff, now, ids(i));
            trace[i + 1] == (Stamped(step.0, now, open), trace[i].1 + [FeedReport(feeds[i].id, feeds[i].title, step.1)])
  {
    assert trace[i] == RefreshFirst(d, feeds, i, fetch, cutoff, now, ids, open);
    assert trace[i + 1] == RefreshFirst(d, feeds, i + 1, fetch, cutoff, now, ids, open);
    EveryListedFeedFound(d, feeds, i, fetch, cutoff, now, ids, open);
  }

  /** `refreshAllFeeds` over the listed feeds: one report per feed, with
      the id and title the feed was listed with. */
  function RefreshAll(d: AppData, feeds: seq<Feed>, fetch: string -> FetchResult, cutoff: string, now: string,
                      ids: nat -> nat -> string, open: bool): (r: (AppData, seq<FeedReport>))
    ensures |r.1| == |feeds|
    ensures forall i :: 0 <= i < |feeds| ==> r.1[i].feedId == feeds[i].id && r.1[i].title == feeds[i].title
  {
    RefreshFirst(d, feeds, |feeds|, fetch, cutoff, now, ids, open)
  }

  /** Refreshing keeps every feed id and url and changes nothing but feeds,
      articles and the sync stamp; so every listed feed of the dataset is
      still found when its turn comes. */
  lemma {:induction false} RefreshAllKeepsFeeds(d: AppData, feeds: seq<Feed>, n: nat, fetch: string -> FetchResult,
                                               cutoff: string, now: string, ids: nat -> nat -> string, open: bool)
    requires n <= |feeds|
    ensures var after := RefreshFirst(d, feeds, n, fetch, cutoff, now, ids, open).0;
            && FeedIds(after.feeds) == FeedIds(d.feeds)
            && after.(feeds := d.feeds, articles := d.articles, lastSyncedAt := d.lastSyncedAt) == d
    decreases n
  {
    if n > 0 {
      RefreshAllKeepsFeeds(d, feeds, n - 1, fetch, cutoff, now, ids, open);
      var before := RefreshFirst(d, feeds, n - 1, fetch, cutoff, now, ids, open).0;
      RefreshKeepsTheRest(before, feeds[n - 1].id, fetch, cutoff, now, ids(n - 1));
    }
  }

  /** A feed whose id is in the list of feeds is found. */
  lemma FoundById(feeds: seq<Feed>, f: Feed)
    requires f in feeds
    ensures GetFeed(feeds, f.id).Some?
  {
  }

  /** Every listed feed of the dataset is still there when its turn comes,
      so its report is that of a real refresh, never "Feed not found"
      for want of the feed. */
  lemma EveryListedFeedFound(d: AppData, feeds: seq<Feed>, i: nat, fetch: string -> FetchResult, cutoff: string,
                             now: string, ids: nat -> nat -> string, open: bool)
    requires i < |feeds| && feeds[i] in d.feeds
    ensures GetFeed(RefreshFirst(d, feeds, i, fetch, cutoff, now, ids, open).0.feeds, feeds[i].id).Some?
  {
    var before := RefreshFirst(d, feeds, i, fetch, cutoff, now, ids, open).0;
    RefreshAllKeepsFeeds(d, feeds, i, fetch, cutoff, now, ids, open);
    var m :| 0 <= m < |d.feeds| && d.feeds[m] == feeds[i];
    assert FeedIds(before.feeds)[m] == feeds[i].id;
    FoundById(before.feeds, before.feeds[m]);
  }

  /** A turn appends one report and keeps the earlier ones. */
  lemma ReportsGrow(d: AppData, feeds: seq<Feed>, n: nat, fetch: string -> FetchResult,
                    cutoff: string, now: string, ids: nat -> nat -> string, open: bool)
    requires 0 < n <= |feeds|
    ensures RefreshFirst(d, feeds, n, fetch, cutoff, now, ids, open).1[..n - 1]
            == RefreshFirst(d, feeds, n - 1, fetch, cutoff, now, ids, open).1
    ensures RefreshFirst(d, feeds, n, fetch, cutoff, now, ids, open).1[n - 1]
            == FeedReport(feeds[n - 1].id, feeds[n - 1].title,
                          RefreshOne(RefreshFirst(d, feeds, n - 1, fetch, cutoff, now, ids, open).0,
                                     feeds[n - 1].id, fetch, cutoff, now, ids(n - 1)).1)
  {
    var prev := RefreshFirst(d, feeds, n - 1, fetch, cutoff, now, ids, open).1;
    var last := RefreshFirst(d, feeds, n, fetch, cutoff, now, ids, open).1[n - 1];
    assert RefreshFirst(d, feeds, n, fetch, cutoff, now, ids, open).1 == prev + [last];
  }

  /** Along a run, every turn appends one report and keeps the earlier ones. */
  lemma TraceReportsGrow(trace: seq<(AppData, seq<FeedReport>)>, d: AppData, feeds: seq<Feed>,
                         fetch: string -> FetchResult, cutoff: string, now: string, ids: nat -> nat -> string,
                         open: bool)
    requires Traces(trace, d, feeds, fetch, cutoff, now, ids, open)
    ensures forall k :: 0 < k < |trace| ==>
              |trace[k - 1].1| <= |trace[k].1| && trace[k].1[..|trace[k - 1].1|] == trace[k - 1].1
  {
    forall k | 0 < k < |trace|
      ensures |trace[k - 1].1| <= |trace[k].1| && trace[k].1[..|trace[k - 1].1|] == trace[k - 1].1
    {
      ReportsGrow(d, feeds, k, fetch, cutoff, now, ids, open);
      assert trace[k] == RefreshFirst(d, feeds, k, fetch, cutoff, now, ids, open);
      assert trace[k - 1] == RefreshFirst(d, feeds, k - 1, fetch, cutoff, now, ids, open);
    }
  }

  /** Reports, once made, stay as later turns run: the reports of the
      first `m` turns begin the reports of the whole run. */
  lemma ReportsStay(d: AppData, feeds: seq<Feed>, m: nat, fetch: string -> FetchResult,
                    cutoff: string, now: string, ids: nat -> nat -> string, open: bool)
    requires m <= |feeds|
    ensures RefreshAll(d, feeds, fetch, cutoff, now, ids, open).1[..m]
            == RefreshFirst(d, feeds, m, fetch, cutoff, now, ids, open).1
  {
    var trace := Trace(d, feeds, fetch, cutoff, now, ids, open);
    TraceReportsGrow(trace, d, feeds, fetch, cutoff, now, ids, open);
    var series := seq(|trace|, k requires 0 <= k < |trace| => trace[k].1);
    PrefixesStay(series, |feeds|, m);
    assert trace[m] == RefreshFirst(d, feeds, m, fetch, cutoff, now, ids, open);
  }

  /** The i-th report is the result of refreshing the i-th feed after the
      ones before it. */
  lemma ReportOfPrefix(d: AppData, feeds: seq<Feed>, i: nat, fetch: string -> FetchResult,
                       cutoff: string, now: string, ids: nat -> nat -> string, open: bool)
    requires i < |feeds|
    ensures RefreshAll(d, feeds, fetch, cutoff, now, ids, open).1[i]
            == FeedReport(feeds[i].id, feeds[i].title,
                          RefreshOne(RefreshFirst(d, feeds, i, fetch, cutoff, now, ids, open).0,
                                     feeds[i].id, fetch, cutoff, now, ids(i)).1)
  {
    ReportsStay(d, feeds, i + 1, fetch, cutoff, now, ids, open);
    ReportsGrow(d, feeds, i + 1, fetch, cutoff, now, ids, open);
    var reports := RefreshAll(d, feeds, fetch, cutoff, now, ids, open).1;
    assert reports[i] == reports[..i + 1][i];
  }

  /** Refreshing keeps every feed's url in place. */
  lemma {:induction false} RefreshKeepsUrls(d: AppData, feeds: seq<Feed>, n: nat, fetch: string -> FetchResult,
                                          cutoff: string, now: string, ids: nat -> nat -> string, open: bool)
    requires n <= |feeds|
    ensures var after := RefreshFirst(d, feeds, n, fetch, cutoff, now, ids, open).0;
            |after.feeds| == |d.feeds| && forall i :: 0 <= i < |d.feeds| ==> after.feeds[i].url == d.feeds[i].url
    decreases n
  {
    if n > 0 {
      RefreshKeepsUrls(d, feeds, n - 1, fetch, cutoff, now, ids, open);
      var before := RefreshFirst(d, feeds, n - 1, fetch, cutoff, now, ids, open).0;
      RefreshKeepsTheRest(before, feeds[n - 1].id, fetch, cutoff, now, ids(n - 1));
    }
  }
}
