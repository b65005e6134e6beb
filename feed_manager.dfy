/** src/feedManager.js: the operations the interface calls. Each reads the
    dataset of the database module, computes the new collections and hands
    them to `updateData`, which overlays and saves; the result is awaited
    after that save, so an operation whose save never completes never
    resolves. Every method is proved against the function of the dataset
    that specifies it (FeedOps, ArticleOps, Organize, Refresh). */
module FeedManager {
  import opened Values
  import opened Types
  import opened Seqs
  import opened RssParser
  import opened Database
  import F = FeedOps
  import A = ArticleOps
  import O = Organize
  import R = Refresh

  // ============ FEEDS ============

  /** `addFeed(url, title)`: appends the new feed, saves, resolves with it. */
  method AddFeed(db: Database, url: string, title: Option<string>, id: string, now: string)
    returns (r: Settled<Feed>)
    requires db.Valid()
    modifies db
    ensures db.Valid() && db.prefsShared == old(db.prefsShared)
    ensures db.Committed(old(db.data).(feeds := old(db.data).feeds + [F.NewFeed(id, url, title, now)]), now)
    ensures r == After(db.SaveSettles(), F.NewFeed(id, url, title, now))
  {
    var d := db.data;
    var feed := F.NewFeed(id, url, title, now);
    var settled := db.UpdateData(NoFields.(feeds := Some(d.feeds + [feed])), now);
    r := After(settled, feed);
  }

  /** `updateFeed(id, updates)`: `null` and nothing written when no feed has
      the id; otherwise the spread feed replaces the first with the id, is
      saved and returned. */
  method UpdateFeed(db: Database, id: string, updates: F.FeedPatch, now: string)
    returns (r: Settled<Option<Feed>>)
    requires db.Valid()
    modifies db
    ensures db.Valid() && db.prefsShared == old(db.prefsShared)
    ensures F.UpdateFeed(old(db.data).feeds, id, updates).None? ==> r == Resolved(None) && unchanged(db)
    ensures F.UpdateFeed(old(db.data).feeds, id, updates).Some? ==>
              var (feeds, updated) := F.UpdateFeed(old(db.data).feeds, id, updates).value;
              && db.Committed(old(db.data).(feeds := feeds), now)
              && r == After(db.SaveSettles(), Some(updated))
  {
    var d := db.data;
    var index := FindIndex(d.feeds, F.WithId(id));
    if index.None? {
      return Resolved(None);
    }
    var updated := F.Patched(d.feeds[index.value], updates);
    var newFeeds := d.feeds[index.value := updated];
    var settled := db.UpdateData(NoFields.(feeds := Some(newFeeds)), now);
    r := After(settled, Some(updated));
  }

  /** `deleteFeed(id)`: `false` and nothing written when no feed has the id;
      otherwise the feed and its articles are removed and saved. */
  method DeleteFeed(db: Database, id: string, now: string) returns (r: Settled<bool>)
    requires db.Valid()
    modifies db
    ensures db.Valid() && db.prefsShared == old(db.prefsShared)
    ensures F.DeleteFeed(old(db.data), id).None? ==> r == Resolved(false) && unchanged(db)
    ensures F.DeleteFeed(old(db.data), id).Some? ==>
              db.Committed(F.DeleteFeed(old(db.data), id).value, now) && r == After(db.SaveSettles(), true)
  {
    var d := db.data;
    var newFeeds := Filter(d.feeds, F.WithoutId(id));
    if |newFeeds| == |d.feeds| {
      return Resolved(false);
    }
    var newArticles := Filter(d.articles, F.NotOfFeed(id));
    var settled := db.UpdateData(NoFields.(feeds := Some(newFeeds), articles := Some(newArticles)), now);
    r := After(settled, true);
  }

  // ============ ARTICLES ============

  /** `addArticle(article)`: appends the new article, saves, resolves with it. */
  method AddArticle(db: Database, article: A.ArticleInput, id: string, now: string) returns (r: Settled<Article>)
    requires db.Valid()
    modifies db
    ensures db.Valid() && db.prefsShared == old(db.prefsShared)
    ensures db.Committed(old(db.data).(articles := old(db.data).articles + [A.NewArticle(article, id, now)]), now)
    ensures r == After(db.SaveSettles(), A.NewArticle(article, id, now))
  {
    var d := db.data;
    var newArticle := A.NewArticle(article, id, now);
    var settled := db.UpdateData(NoFields.(articles := Some(d.articles + [newArticle])), now);
    r := After(settled, newArticle);
  }

  /** The body the article changes share: find the article, replace it by
      `change` of it and save; nothing is written when no article has the
      id. */
  method ChangeArticle(db: Database, id: string, change: Article -> Article, now: string)
    returns (found: bool, settled: bool)
    requires db.Valid()
    modifies db
    ensures db.Valid() && db.prefsShared == old(db.prefsShared)
    ensures found <==> A.ChangeArticle(old(db.data).articles, id, change).Some?
    ensures !found ==> settled && unchanged(db)
    ensures found ==> db.Committed(old(db.data).(articles := A.ChangeArticle(old(db.data).articles, id, change).value), now)
                      && settled == db.SaveSettles()
  {
    var d := db.data;
    var index := FindIndex(d.articles, A.ArticleWithId(id));
    if index.None? {
      return false, true;
    }
    var newArticles := d.articles[index.value := change(d.articles[index.value])];
    settled := db.UpdateData(NoFields.(articles := Some(newArticles)), now);
    found := true;
  }

  /** `markArticleRead(id)`. */
  method MarkArticleRead(db: Database, id: string, now: string) returns (settled: bool)
    requires db.Valid()
    modifies db
    ensures db.Valid() && db.prefsShared == old(db.prefsShared)
    ensures A.ChangeArticle(old(db.data).articles, id, A.MarkedRead(now)).None? ==> settled && unchanged(db)
    ensures A.ChangeArticle(old(db.data).articles, id, A.MarkedRead(now)).Some? ==>
              && db.Committed(old(db.data).(articles := A.ChangeArticle(old(db.data).articles, id, A.MarkedRead(now)).value), now)
              && settled == db.SaveSettles()
  {
    var _, s := ChangeArticle(db, id, A.MarkedRead(now), now);
    settled := s;
  }

  /** `markArticleUnread(id)`. */
  method MarkArticleUnread(db: Database, id: string, now: string) returns (settled: bool)
    requires db.Valid()
    modifies db
    ensures db.Valid() && db.prefsShared == old(db.prefsShared)
    ensures A.ChangeArticle(old(db.data).articles, id, A.MarkedUnread()).None? ==> settled && unchanged(db)
    ensures A.ChangeArticle(old(db.data).articles, id, A.MarkedUnread()).Some? ==>
              && db.Committed(old(db.data).(articles := A.ChangeArticle(old(db.data).articles, id, A.MarkedUnread()).value), now)
              && settled == db.SaveSettles()
  {
    var _, s := ChangeArticle(db, id, A.MarkedUnread(), now);
    settled := s;
  }

  /** `toggleArticleStar(id)`: `false` for an unknown id, else the new flag. */
  method ToggleArticleStar(db: Database, id: string, now: string) returns (r: Settled<bool>)
    requires db.Valid()
    modifies db
    ensures db.Valid() && db.prefsShared == old(db.prefsShared)
    ensures A.ToggleStar(old(db.data).articles, id, now).None? ==> r == Resolved(false) && unchanged(db)
    ensures A.ToggleStar(old(db.data).articles, id, now).Some? ==>
              var (articles, starred) := A.ToggleStar(old(db.data).articles, id, now).value;
              && db.Committed(old(db.data).(articles := articles), now)
              && r == After(db.SaveSettles(), starred)
  {
    var d := db.data;
    var index := FindIndex(d.articles, A.ArticleWithId(id));
    if index.None? {
      return Resolved(false);
    }
    var isNowStarred := !d.articles[index.value].isStarred;
    var _, settled := ChangeArticle(db, id, A.ToggledStar(now), now);
    r := After(settled, isNowStarred);
  }

  /** `archiveArticle(id)`. */
  method ArchiveArticle(db: Database, id: string, now: string) returns (settled: bool)
    requires db.Valid()
    modifies db
    ensures db.Valid() && db.prefsShared == old(db.prefsShared)
    ensures A.ChangeArticle(old(db.data).articles, id, A.Archived()).None? ==> settled && unchanged(db)
    ensures A.ChangeArticle(old(db.data).articles, id, A.Archived()).Some? ==>
              && db.Committed(old(db.data).(articles := A.ChangeArticle(old(db.data).articles, id, A.Archived()).value), now)
              && settled == db.SaveSettles()
  {
    var _, s := ChangeArticle(db, id, A.Archived(), now);
    settled := s;
  }

  /** `toggleArticleArchive(id)`: `false` for an unknown id, else the new flag. */
  method ToggleArticleArchive(db: Database, id: string, now: string) returns (r: Settled<bool>)
    requires db.Valid()
    modifies db
    ensures db.Valid() && db.prefsShared == old(db.prefsShared)
    ensures A.ToggleArchive(old(db.data).articles, id).None? ==> r == Resolved(false) && unchanged(db)
    ensures A.ToggleArchive(old(db.data).articles, id).Some? ==>
              var (articles, archived) := A.ToggleArchive(old(db.data).articles, id).value;
              && db.Committed(old(db.data).(articles := articles), now)
              && r == After(db.SaveSettles(), archived)
  {
    var d := db.data;
    var index := FindIndex(d.articles, A.ArticleWithId(id));
    if index.None? {
      return Resolved(false);
    }
    var isNowArchived := !d.articles[index.value].isArchived;
    var _, settled := ChangeArticle(db, id, A.ToggledArchive(), now);
    r := After(settled, isNowArchived);
  }

  // ============ FOLDERS ============

  /** `addFolder(name, parentId)`. */
  method AddFolder(db: Database, name: string, parentId: Option<string>, id: string, now: string)
    returns (r: Settled<Folder>)
    requires db.Valid()
    modifies db
    ensures db.Valid() && db.prefsShared == old(db.prefsShared)
    ensures db.Committed(old(db.data).(folders := O.AddFolder(old(db.data).folders, id, name, parentId)), now)
    ensures r == After(db.SaveSettles(), Folder(id, name, parentId, |old(db.data).folders|))
  {
    var d := db.data;
    var folder := Folder(id, name, parentId, |d.folders|);
    var settled := db.UpdateData(NoFields.(folders := Some(d.folders + [folder])), now);
    r := After(settled, folder);
  }

  /** `deleteFolder(id)`: `false` for an unknown id; otherwise the folder is
      removed and its feeds leave it. */
  method DeleteFolder(db: Database, id: string, now: string) returns (r: Settled<bool>)
    requires db.Valid()
    modifies db
    ensures db.Valid() && db.prefsShared == old(db.prefsShared)
    ensures O.DeleteFolder(old(db.data), id).None? ==> r == Resolved(false) && unchanged(db)
    ensures O.DeleteFolder(old(db.data), id).Some? ==>
              db.Committed(O.DeleteFolder(old(db.data), id).value, now) && r == After(db.SaveSettles(), true)
  {
    var d := db.data;
    var newFolders := Filter(d.folders, O.FolderWithoutId(id));
    if |newFolders| == |d.folders| {
      return Resolved(false);
    }
    var newFeeds := seq(|d.feeds|, i requires 0 <= i < |d.feeds| =>
                      if d.feeds[i].folderId == Some(id) then d.feeds[i].(folderId := None) else d.feeds[i]);
    var settled := db.UpdateData(NoFields.(folders := Some(newFolders), feeds := Some(newFeeds)), now);
    r := After(settled, true);
  }

  /** `getAllFolders()`: sorts the stored folder list itself (nothing is
      saved) and returns it. */
  method GetAllFolders(db: Database) returns (folders: seq<Folder>)
    requires db.Valid()
    modifies db
    ensures db.Valid()
    ensures db.data == old(db.data).(folders := O.SortFolders(old(db.data).folders))
    ensures folders == db.data.folders
    ensures db.store == old(db.store) && db.dbOpen == old(db.dbOpen) && db.initialized == old(db.initialized)
    ensures db.legacyBlob == old(db.legacyBlob) && db.defaultPrefs == old(db.defaultPrefs)
    ensures db.prefsShared == old(db.prefsShared)
  {
    db.data := db.data.(folders := O.SortFolders(db.data.folders));
    folders := db.data.folders;
  }

  // ============ TAGS ============

  /** `addTag(name, color)`: an existing tag of that name, in any case, is
      returned and nothing is written; otherwise the new tag is appended. */
  method AddTag(db: Database, name: string, color: string, id: string, now: string) returns (r: Settled<Tag>)
    requires db.Valid()
    modifies db
    ensures db.Valid() && db.prefsShared == old(db.prefsShared)
    ensures var (tags, tag) := O.AddTag(old(db.data).tags, id, name, color);
            && (tags == old(db.data).tags ==> r == Resolved(tag) && unchanged(db))
            && (tags != old(db.data).tags ==>
                  db.Committed(old(db.data).(tags := tags), now) && r == After(db.SaveSettles(), tag))
  {
    var d := db.data;
    var existing := Find(d.tags, O.NamedLike(name));
    if existing.Some? {
      return Resolved(existing.value);
    }
    var tag := Tag(id, name, color);
    var settled := db.UpdateData(NoFields.(tags := Some(d.tags + [tag])), now);
    r := After(settled, tag);
  }

  /** `deleteTag(id)`: `false` for an unknown id; otherwise the tag goes and
      its name is taken off every feed and article. */
  method DeleteTag(db: Database, id: string, now: string) returns (r: Settled<bool>)
    requires db.Valid()
    modifies db
    ensures db.Valid() && db.prefsShared == old(db.prefsShared)
    ensures O.DeleteTag(old(db.data), id).None? ==> r == Resolved(false) && unchanged(db)
    ensures O.DeleteTag(old(db.data), id).Some? ==>
              db.Committed(O.DeleteTag(old(db.data), id).value, now) && r == After(db.SaveSettles(), true)
  {
    var d := db.data;
    var tagToDelete := Find(d.tags, O.TagWithId(id));
    if tagToDelete.None? {
      return Resolved(false);
    }
    var name := tagToDelete.value.name;
    var newTags := Filter(d.tags, (x: Tag) => x.id != id);
    var newFeeds := seq(|d.feeds|, i requires 0 <= i < |d.feeds| => d.feeds[i].(tags := O.Untagged(d.feeds[i].tags, name)));
    var newArticles := seq(|d.articles|, i requires 0 <= i < |d.articles| =>
                         d.articles[i].(tags := O.Untagged(d.articles[i].tags, name)));
    var settled := db.UpdateData(NoFields.(tags := Some(newTags), feeds := Some(newFeeds), articles := Some(newArticles)), now);
    r := After(settled, true);
  }

  // ============ CLEANUP ============

  /** `cleanupOldArticles()`, with `cutoff` the ISO string of now minus the
      retention days: writes only when something is dropped, and reports
      how many were. */
  method CleanupOldArticles(db: Database, cutoff: string, now: string) returns (r: Settled<nat>)
    requires db.Valid()
    modifies db
    ensures db.Valid() && db.prefsShared == old(db.prefsShared)
    ensures var (kept, removed) := A.Cleanup(old(db.data).articles, cutoff);
            && (removed == 0 ==> r == Resolved(0) && unchanged(db))
            && (removed > 0 ==> db.Committed(old(db.data).(articles := kept), now) && r == After(db.SaveSettles(), removed))
  {
    var d := db.data;
    var originalCount := |d.articles|;
    var newArticles := Filter(d.articles, A.Retained(cutoff));
    if |newArticles| < originalCount {
      var settled := db.UpdateData(NoFields.(articles := Some(newArticles)), now);
      return After(settled, originalCount - |newArticles|);
    }
    r := Resolved(originalCount - |newArticles|);
  }

  // ============ REFRESH ============

  /** `refreshFeed(feedId)`. An unknown id changes nothing. Otherwise the
      feed's health is saved first; when that save never completes nothing
      further happens. After a successful fetch, every item whose url the
      feed's articles did not have at the start and whose date is not before
      the cutoff is added, each with its own save. */
  method RefreshFeed(db: Database, feedId: string, fetch: string -> FetchResult, cutoff: string, now: string,
                     ids: nat -> string) returns (r: Settled<R.RefreshResult>)
    requires db.Valid()
    modifies db
    ensures db.Valid() && db.prefsShared == old(db.prefsShared)
    ensures F.GetFeed(old(db.data).feeds, feedId).None? ==>
              r == Resolved(R.RefreshFailed("Feed not found")) && unchanged(db)
    ensures F.GetFeed(old(db.data).feeds, feedId).Some? ==>
              && r == After(db.SaveSettles(), R.RefreshOne(old(db.data), feedId, fetch, cutoff, now, ids).1)
              && db.Committed(if r.Resolved? then R.RefreshOne(old(db.data), feedId, fetch, cutoff, now, ids).0
                              else R.AfterHealth(old(db.data), feedId, fetch, now), now)
  {
    var d := db.data;
    var found := F.GetFeed(d.feeds, feedId);
    if found.None? {
      return Resolved(R.RefreshFailed("Feed not found"));
    }
    var feed := found.value;
    var result := fetch(feed.url);
    if result.FetchFailed? {
      F.GetFeedIsUpdated(d.feeds, feedId, R.FailurePatch(feed, now));
      var updated := UpdateFeed(db, feedId, R.FailurePatch(feed, now), now);
      if updated.NeverSettles? {
        return NeverSettles;
      }
      return Resolved(R.RefreshFailed(result.error));
    }
    F.GetFeedIsUpdated(d.feeds, feedId, R.SuccessPatch(feed, result.feed, now));
    var updated := UpdateFeed(db, feedId, R.SuccessPatch(feed, result.feed, now), now);
    if updated.NeverSettles? {
      return NeverSettles;
    }
    var existingUrls := R.KnownUrls(d.articles, feedId);
    var newCount := AddItems(db, result.feed.items, feedId, existingUrls, cutoff, now, ids, old(db.store));
    r := Resolved(R.Refreshed(newCount, |result.feed.items|));
  }

  /** The loop of `refreshFeed` over the fetched items: each item the feed
      did not know (by url, as of the start) and dated no earlier than the
      cutoff is added with `addArticle`. Every save settles, and each
      leaves the stores holding the dataset as written over `base`. */
  method AddItems(db: Database, items: seq<Item>, feedId: string, existingUrls: set<string>, cutoff: string,
                  now: string, ids: nat -> string, ghost base: Store) returns (newCount: nat)
    requires db.Valid() && db.SaveSettles()
    requires db.dbOpen ==> db.data.lastSyncedAt == Str(now) && db.store == Written(base, db.data, db.refused)
    modifies db
    ensures db.Valid() && db.prefsShared == old(db.prefsShared)
    ensures db.dbOpen == old(db.dbOpen) && db.initialized == old(db.initialized)
    ensures db.legacyBlob == old(db.legacyBlob) && db.defaultPrefs == old(db.defaultPrefs)
    ensures newCount == |R.Added(items, feedId, existingUrls, cutoff, now, ids)|
    ensures db.data == old(db.data).(articles := old(db.data).articles + R.Added(items, feedId, existingUrls, cutoff, now, ids))
    ensures db.store == if db.dbOpen then Written(base, db.data, db.refused) else old(db.store)
  {
    newCount := 0;
    var i := 0;
    while i < |items|
      invariant 0 <= i <= |items|
      invariant db.Valid() && db.prefsShared == old(db.prefsShared)
      invariant db.dbOpen == old(db.dbOpen) && db.initialized == old(db.initialized)
      invariant db.legacyBlob == old(db.legacyBlob) && db.defaultPrefs == old(db.defaultPrefs)
      invariant newCount == |R.Added(items[..i], feedId, existingUrls, cutoff, now, ids)|
      invariant db.data == old(db.data).(articles := old(db.data).articles + R.Added(items[..i], feedId, existingUrls, cutoff, now, ids))
      invariant db.store == if db.dbOpen then Written(base, db.data, db.refused) else old(db.store)
    {
      var item := items[i];
      assert items[..i + 1][..i] == items[..i];
      if R.Admits(existingUrls, cutoff, now, item) {
        ghost var before := db.data;
        var _ := AddArticle(db, R.AsInput(item, feedId), ids(newCount), now);
        WrittenTwice(base, before, db.data, db.refused);
        newCount := newCount + 1;
      }
      i := i + 1;
    }
    assert items[..i] == items;
  }

  /** One turn of `refreshAllFeeds()`'s loop: `refreshFeed` of the i-th
      listed feed, which is still in the dataset; `trace` holds the states
      of the whole run. */
  method RefreshTurn(db: Database, ghost d: AppData, feeds: seq<Feed>, i: nat, fetch: string -> FetchResult,
                     cutoff: string, now: string, ids: nat -> nat -> string,
                     ghost trace: seq<(AppData, seq<R.FeedReport>)>, ghost results: seq<R.FeedReport>,
                     ghost base: Store) returns (report: Settled<R.FeedReport>)
    requires i < |feeds| && feeds[i] in d.feeds
    requires db.Valid() && R.Traces(trace, d, feeds, fetch, cutoff, now, ids, db.dbOpen)
    requires (db.data, results) == trace[i]
    requires SameRecords(db.data, d)
    requires i > 0 ==> db.SaveSettles()
    requires db.store == if i > 0 && db.dbOpen then Written(base, db.data, db.refused) else base
    modifies db
    ensures db.Valid() && db.prefsShared == old(db.prefsShared)
    ensures db.dbOpen == old(db.dbOpen) && db.initialized == old(db.initialized)
    ensures db.legacyBlob == old(db.legacyBlob) && db.defaultPrefs == old(db.defaultPrefs)
    ensures report.Resolved? <==> db.SaveSettles()
    ensures report.NeverSettles? ==> i == 0 && db.Committed(R.AfterHealth(old(db.data), feeds[i].id, fetch, now), now)
    ensures report.Resolved? ==>
              && (db.data, results + [report.value]) == trace[i + 1]
              && SameRecords(db.data, d)
              && db.store == if db.dbOpen then Written(base, db.data, db.refused) else base
  {
    R.TraceStep(trace, d, feeds, i, fetch, cutoff, now, ids, db.dbOpen);
    R.RefreshKeepsTheRest(db.data, feeds[i].id, fetch, cutoff, now, ids(i));
    ghost var before := db.data;
    var result := RefreshFeed(db, feeds[i].id, fetch, cutoff, now, ids(i));
    if result.NeverSettles? {
      return NeverSettles;
    }
    report := Resolved(R.FeedReport(feeds[i].id, feeds[i].title, result.value));
    assert SameRecords(before, db.data);
    if i > 0 {
      SameRecordsSaveAlike(before, db.data);
      WrittenTwice(base, before, db.data, db.refused);
    }
  }

  /** The loop of `refreshAllFeeds()` over the listed feeds, proved against
      the run's `trace`. */
  method RefreshEach(db: Database, ghost d: AppData, feeds: seq<Feed>, fetch: string -> FetchResult,
                     cutoff: string, now: string, ids: nat -> nat -> string,
                     ghost trace: seq<(AppData, seq<R.FeedReport>)>) returns (r: Settled<seq<R.FeedReport>>)
    requires db.Valid() && db.data == d && forall f :: f in feeds ==> f in d.feeds
    requires R.Traces(trace, d, feeds, fetch, cutoff, now, ids, db.dbOpen)
    modifies db
    ensures db.Valid() && db.prefsShared == old(db.prefsShared)
    ensures r == After(|feeds| == 0 || db.SaveSettles(), trace[|feeds|].1)
    ensures r.Resolved? ==>
              && db.data == trace[|feeds|].0
              && db.store == (if |feeds| > 0 && db.dbOpen then Written(old(db.store), db.data, db.refused) else old(db.store))
              && db.dbOpen == old(db.dbOpen) && db.initialized == old(db.initialized)
              && db.legacyBlob == old(db.legacyBlob) && db.defaultPrefs == old(db.defaultPrefs)
    ensures r.NeverSettles? ==> db.Committed(R.AfterHealth(old(db.data), feeds[0].id, fetch, now), now)
  {
    var results: seq<R.FeedReport> := [];
    var i := 0;
    assert trace[0] == R.RefreshFirst(d, feeds, 0, fetch, cutoff, now, ids, db.dbOpen);
    while i < |feeds|
      invariant 0 <= i <= |feeds|
      invariant db.Valid() && db.prefsShared == old(db.prefsShared)
      invariant db.dbOpen == old(db.dbOpen) && db.initialized == old(db.initialized)
      invariant db.legacyBlob == old(db.legacyBlob) && db.defaultPrefs == old(db.defaultPrefs)
      invariant (db.data, results) == trace[i]
      invariant SameRecords(db.data, d)
      invariant db.SaveSettles() == old(db.SaveSettles()) && (i > 0 ==> db.SaveSettles())
      invariant db.store == if i > 0 && db.dbOpen then Written(old(db.store), db.data, db.refused) else old(db.store)
    {
      var report := RefreshTurn(db, d, feeds, i, fetch, cutoff, now, ids, trace, results, old(db.store));
      if report.NeverSettles? {
        return NeverSettles;
      }
      results := results + [report.value];
      i := i + 1;
    }
    r := Resolved(results);
  }

  /** `refreshAllFeeds()`: refreshes the enabled feeds listed at the start,
      one after the other, and reports each with the id and title it was
      listed with. Only the first refresh's save can fail to complete (every
      save of a run settles alike), and then the whole call never resolves. */
  method RefreshAllFeeds(db: Database, fetch: string -> FetchResult, cutoff: string, now: string,
                         ids: nat -> nat -> string) returns (r: Settled<seq<R.FeedReport>>)
    requires db.Valid()
    modifies db
    ensures db.Valid() && db.prefsShared == old(db.prefsShared)
    ensures var feeds := F.EnabledFeeds(old(db.data).feeds);
            var (after, reports) := R.RefreshAll(old(db.data), feeds, fetch, cutoff, now, ids, old(db.dbOpen));
            && r == After(|feeds| == 0 || db.SaveSettles(), reports)
            && (r.Resolved? ==>
                  && db.data == after
                  && db.store == (if |feeds| > 0 && db.dbOpen then Written(old(db.store), after, db.refused) else old(db.store))
                  && db.dbOpen == old(db.dbOpen) && db.initialized == old(db.initialized)
                  && db.legacyBlob == old(db.legacyBlob) && db.defaultPrefs == old(db.defaultPrefs))
            && (r.NeverSettles? ==> db.Committed(R.AfterHealth(old(db.data), feeds[0].id, fetch, now), now))
  {
    var feeds := F.EnabledFeeds(db.data.feeds);
    ghost var trace := R.Trace(db.data, feeds, fetch, cutoff, now, ids, db.dbOpen);
    r := RefreshEach(db, db.data, feeds, fetch, cutoff, now, ids, trace);
  }
}
