/** The feed section of src/feedManager.js as functions of the dataset:
    the record `addFeed` creates, the `updateFeed` spread, the cascading
    `deleteFeed` and the feed queries. */
module FeedOps {
  import opened Values
  import opened Types
  import opened Seqs

  /** `f => f.id === id`. */
  function WithId(id: string): Feed -> bool {
    (f: Feed) => f.id == id
  }

  /** `f => f.id !== id`. */
  function WithoutId(id: string): Feed -> bool {
    (f: Feed) => f.id != id
  }

  /** `a => a.feedId !== id`. */
  function NotOfFeed(id: string): Article -> bool {
    (a: Article) => a.feedId != id
  }

  /** The feed `addFeed(url, title)` creates: the title falls back to the
      url, no tags, no errors, enabled, and none of the fields a refresh
      fills in. */
  function NewFeed(id: string, url: string, title: Option<string>, now: string): (f: Feed)
    ensures f.id == id && f.url == url && f.addedAt == now
    ensures f.title == (if title.Some? && title.value != "" then title.value else url)
    ensures f.tags == [] && f.errorCount == 0 && f.isEnabled
    ensures f.siteUrl.None? && f.description.None? && f.folderId.None? && f.lastFetchedAt.None?
  {
    Feed(id, OrElse(title, url), url, None, None, [], None, now, None, 0, true)
  }

  /** The `updates` object of `updateFeed`: each field present or not; for
      a field the feed may lack, a present `undefined` is `Some(None)`. */
  datatype FeedPatch = FeedPatch(
    id: Option<string>,
    title: Option<string>,
    url: Option<string>,
    siteUrl: Option<Option<string>>,
    description: Option<Option<string>>,
    tags: Option<seq<string>>,
    folderId: Option<Option<string>>,
    addedAt: Option<string>,
    lastFetchedAt: Option<Option<string>>,
    errorCount: Option<int>,
    isEnabled: Option<bool>)

  const NoChange := FeedPatch(None, None, None, None, None, None, None, None, None, None, None)

  /** `{ ...feed, ...updates }`. */
  function Patched(f: Feed, p: FeedPatch): Feed {
    Feed(
      p.id.GetOr(f.id),
      p.title.GetOr(f.title),
      p.url.GetOr(f.url),
      p.siteUrl.GetOr(f.siteUrl),
      p.description.GetOr(f.description),
      p.tags.GetOr(f.tags),
      p.folderId.GetOr(f.folderId),
      p.addedAt.GetOr(f.addedAt),
      p.lastFetchedAt.GetOr(f.lastFetchedAt),
      p.errorCount.GetOr(f.errorCount),
      p.isEnabled.GetOr(f.isEnabled))
  }

  /** A spread with no fields is the identity, and a spread without `id`
      keeps the feed's id. */
  lemma PatchedFields(f: Feed, p: FeedPatch)
    ensures Patched(f, NoChange) == f
    ensures p.id.None? ==> Patched(f, p).id == f.id
    ensures p.url.None? ==> Patched(f, p).url == f.url
  {
  }

  /** `updateFeed(id, updates)` on the feed list: `null` when no feed has
      the id; otherwise the first feed with the id is replaced by its
      spread with the updates and every other feed stays where it was. */
  function UpdateFeed(feeds: seq<Feed>, id: string, p: FeedPatch): (r: Option<(seq<Feed>, Feed)>)
    ensures r.None? <==> forall i :: 0 <= i < |feeds| ==> feeds[i].id != id
    ensures r.Some? ==>
              var k := FindIndex(feeds, WithId(id)).value;
              && |r.value.0| == |feeds|
              && r.value.0[k] == r.value.1 == Patched(feeds[k], p)
              && forall j :: 0 <= j < |feeds| && j != k ==> r.value.0[j] == feeds[j]
  {
    match FindIndex(feeds, WithId(id))
    case None => None
    case Some(k) =>
      var g := Patched(feeds[k], p);
      Some((feeds[k := g], g))
  }

  /** `getFeed(id)`. */
  function GetFeed(feeds: seq<Feed>, id: string): Option<Feed> {
    Find(feeds, WithId(id))
  }

  /** The feed `getFeed` returns is the one `updateFeed` replaces. */
  lemma GetFeedIsUpdated(feeds: seq<Feed>, id: string, p: FeedPatch)
    ensures GetFeed(feeds, id).None? <==> UpdateFeed(feeds, id, p).None?
    ensures GetFeed(feeds, id).Some? ==>
              UpdateFeed(feeds, id, p).value.1 == Patched(GetFeed(feeds, id).value, p)
  {
  }

  /** After an update that keeps the id, `getFeed` finds the updated feed. */
  lemma {:induction false} UpdateThenGet(feeds: seq<Feed>, id: string, p: FeedPatch)
    requires p.id.None? && UpdateFeed(feeds, id, p).Some?
    ensures GetFeed(UpdateFeed(feeds, id, p).value.0, id) == Some(UpdateFeed(feeds, id, p).value.1)
  {
    var k := FindIndex(feeds, WithId(id)).value;
    var r := UpdateFeed(feeds, id, p).value.0;
    assert r[k].id == id;
    assert forall j :: 0 <= j < k ==> r[j] == feeds[j] && !WithId(id)(r[j]);
    FirstIndex(r, WithId(id), k);
  }

  /** `deleteFeed(id)` on the dataset: nothing when no feed has the id (the
      call returns `false`); otherwise the feeds without that id and the
      articles of the remaining feeds, in their original order (the filters),
      every other field as it was. */
  function DeleteFeed(d: AppData, id: string): (r: Option<AppData>)
    ensures r.None? <==> forall i :: 0 <= i < |d.feeds| ==> d.feeds[i].id != id
    ensures r.Some? ==>
              && (forall f :: f in r.value.feeds <==> f in d.feeds && f.id != id)
              && (forall a :: a in r.value.articles <==> a in d.articles && a.feedId != id)
              && |r.value.feeds| < |d.feeds|
              && r.value.folders == d.folders && r.value.tags == d.tags
              && r.value.preferences == d.preferences && r.value.notes == d.notes
    ensures r.Some? ==>
              && r.value.feeds == Filter(d.feeds, WithoutId(id))
              && r.value.articles == Filter(d.articles, NotOfFeed(id))
              && r.value.(feeds := d.feeds, articles := d.articles) == d
  {
    var feeds := Filter(d.feeds, WithoutId(id));
    FilterKeepsLength(d.feeds, WithoutId(id));
    if |feeds| == |d.feeds| then None
    else Some(d.(feeds := feeds, articles := Filter(d.articles, NotOfFeed(id))))
  }

  /** The kept feeds and articles are in their original relative order:
      deleting one feed and then another is deleting both. */
  lemma DeleteFeedTwice(d: AppData, a: string, b: string)
    requires DeleteFeed(d, a).Some? && DeleteFeed(DeleteFeed(d, a).value, b).Some?
    ensures DeleteFeed(DeleteFeed(d, a).value, b).value.feeds
            == Filter(d.feeds, Both(WithoutId(a), WithoutId(b)))
    ensures DeleteFeed(DeleteFeed(d, a).value, b).value.articles
            == Filter(d.articles, Both(NotOfFeed(a), NotOfFeed(b)))
  {
    FilterKeepsLength(d.feeds, WithoutId(a));
    FilterFilter(d.feeds, WithoutId(a), WithoutId(b));
    FilterFilter(d.articles, NotOfFeed(a), NotOfFeed(b));
  }

  function InFolder(folderId: Option<string>): Feed -> bool {
    (f: Feed) => f.folderId == folderId
  }

  function HasTag(tag: string): Feed -> bool {
    (f: Feed) => tag in f.tags
  }

  function IsEnabled(): Feed -> bool {
    (f: Feed) => f.isEnabled
  }

  /** `getFeedsByFolder(folderId)`: `undefined` selects the feeds in no
      folder. Like every `Array.filter` below, the feeds keep their order
      (Filter) and each occurs as often as in the input. */
  function FeedsByFolder(feeds: seq<Feed>, folderId: Option<string>): (r: seq<Feed>)
    ensures forall f :: f in r <==> f in feeds && f.folderId == folderId
    ensures r == Filter(feeds, InFolder(folderId))
    ensures forall f :: multiset(r)[f] == if f.folderId == folderId then multiset(feeds)[f] else 0
  {
    FilterCounts(feeds, InFolder(folderId));
    Filter(feeds, InFolder(folderId))
  }

  /** `getFeedsByTag(tagName)`. */
  function FeedsByTag(feeds: seq<Feed>, tag: string): (r: seq<Feed>)
    ensures forall f :: f in r <==> f in feeds && tag in f.tags
    ensures r == Filter(feeds, HasTag(tag))
    ensures forall f :: multiset(r)[f] == if tag in f.tags then multiset(feeds)[f] else 0
  {
    FilterCounts(feeds, HasTag(tag));
    Filter(feeds, HasTag(tag))
  }

  /** `getAllFeeds().filter(f => f.isEnabled)`: the order `refreshAllFeeds`
      walks. */
  function EnabledFeeds(feeds: seq<Feed>): (r: seq<Feed>)
    ensures forall f :: f in r <==> f in feeds && f.isEnabled
    ensures r == Filter(feeds, IsEnabled())
    ensures forall f :: multiset(r)[f] == if f.isEnabled then multiset(feeds)[f] else 0
  {
    FilterCounts(feeds, IsEnabled());
    Filter(feeds, IsEnabled())
  }

  /** The ids of the feeds, in order. */
  function FeedIds(feeds: seq<Feed>): seq<string> {
    seq(|feeds|, i requires 0 <= i < |feeds| => feeds[i].id)
  }

  /** An update without `id` keeps every feed id in place, so a feed found
      before it is found after it. */
  lemma UpdateKeepsIds(feeds: seq<Feed>, id: string, p: FeedPatch)
    requires p.id.None? && UpdateFeed(feeds, id, p).Some?
    ensures FeedIds(UpdateFeed(feeds, id, p).value.0) == FeedIds(feeds)
  {
  }
}
