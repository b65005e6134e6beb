# Fetch N Feed: a verified model of the data store and the feed-sync engine

Fetch N Feed is a browser RSS/Atom reader. This project models, in Dafny, the
part of it that owns the data:

- `src/database.js`: the IndexedDB persistence layer. It keeps an in-memory
  dataset, writes every collection to its object store, reads the stores back,
  migrates a legacy localStorage blob once, and handles import, export and
  clear. It is modelled as the class `Database.Database`. The object stores are
  a value (`Database.Store`). A save is a function of the dataset (`Written`,
  `SaveOutcome`).
- `src/database-localStorage-backup.js.js`: the earlier localStorage layer,
  modelled as the class `LegacyDatabase.LegacyDatabase`.
- `src/feedManager.js`: the operations on feeds, articles, folders and tags,
  the retention sweep and the refresh of one feed or of all enabled feeds.
  Every operation is a method over a `Database` (module `FeedManager`). Each
  method is proved against a function of the dataset (modules `FeedOps`,
  `ArticleOps`, `Organize`, `Refresh`), and the properties of the operation
  are proved about that function.
- `src/rssParser.js`: RSS 2.0 and Atom parsing over an abstract DOM (module
  `Dom`), `fetchFeed`, the candidate feed urls and feed discovery (module
  `RssParser`).
- `src/opml.js`: the OPML export with its XML escaping, and the OPML import
  (module `Opml`).
- `src/types.js`: the entities and the default dataset (module `Types`).

Supporting modules:

- `Values`: JavaScript truthiness, `||` and the fate of an awaited promise.
  `Settled.NeverSettles` stands for a promise that never completes.
- `Strings`: string order as `<` and `localeCompare` use it, `trim` and
  `toLowerCase`.
- `Seqs`: `filter`, `find`, `findIndex` and a comparator sort.

Three behaviours of the code are modelled as written:

1. **A save of a dataset without `notes`/`noteTags` never completes.**
   `saveToIndexedDB` calls `replaceStoreContents` with `undefined` for
   those stores. That throws inside an IndexedDB callback, so `Promise.all`
   neither resolves nor rejects. The default dataset has no `notes`, so after
   `loadData` falls back to defaults, every operation that saves hangs
   (`Database.DefaultsSaveHangs`). A store whose write is refused makes the
   save report `false` instead (`refused` is the set of such stores). The
   `try`/`catch` around the save (src/database.js:268-290) only handles a
   rejection, so an operation whose save hangs never returns a result.
   The same happens when the first record of a store keyed by `id` has no
   valid `id` (src/database.js:169): `store.put` throws in the same callback
   before any request is pending (`Database.UnkeyedRuleHangs`). When an
   earlier `put` of that store is still pending, the abort fails that
   request, its `onerror` rejects (src/database.js:176), and the save
   reports `false` instead (`Database.LaterUnkeyedRuleFails`).
2. **Duplicates within one payload are kept.** `refreshFeed` builds
   `existingUrls` once and does not update it inside the loop. Two items with
   the same url are therefore both added (`Refresh.DuplicateItemsBothAdded`),
   since only urls stored before the loop are checked (src/feedManager.js:337-344).
   Two refreshes with the same payload
   still add nothing the second time (`Refresh.SecondRefreshAddsNothing`).
3. **Retention keeps highlighted articles.** `cleanupOldArticles` tests
   `highlights.length > 0`, not notes, and compares ISO strings with `>`.

Also modelled as written: `addFolder` numbers a folder by the count of folders,
so two folders can share an order after a deletion
(`Organize.DeleteThenAddSharesOrder`). `getAllFolders` sorts the stored list in
place without saving. The legacy `importData` keeps the payload without merging
it with the defaults.

Environment inputs are parameters:

- clock values (`now`, the cutoffs);
- generated ids;
- the outcome of `fetch`;
- date parsing (`toIso`);
- whether the database opens, whether its stores can be read, and which stores
  refuse writes;
- the parsed form of JSON text.

## Model

| member | source | states |
|---|---|---|
| Types.DefaultsShape | src/types.js:4-21 | the default dataset has version 1, empty feed, article, folder, tag, filter-rule, training-signal and saved-search lists, no notes, and exactly six preferences with their default values (30 retention days, weekly refresh, list view, system theme, notifications on, speed 1.0) |
| Types.WithDefaults | src/database.js:197-201 | each collection and the version is the payload's when present, else the default; `lastSyncedAt`, notes and note tags are the payload's; each preference is the payload's value when it has the key, else the default, and the keys are the union |
| Types.WithDefaultsOverlays | src/database.js:197-201 | merging an empty object, or the defaults themselves, gives the defaults |
| Types.WithDefaultsOfObject | src/database.js:385-389 | a complete dataset merged with the defaults is itself |
| Types.WithDefaultsIdempotent | src/database.js:185-208 | merging a merged dataset again changes nothing, so migration is idempotent |
| Values.FirstNonEmpty | src/rssParser.js:39 | a `||` chain gives the first non-empty candidate, and `''` exactly when all candidates are empty |
| Values.FirstNonEmpty2 | src/rssParser.js:56 | `a || b` case by case |
| Values.FirstNonEmpty3 | src/rssParser.js:41 | `a || b || c` case by case |
| Strings.BelowTotal | src/feedManager.js:178 | any two strings are equal or ordered one way, as the sort comparators need |
| Strings.BelowTransitive | src/feedManager.js:178 | string order is transitive |
| Strings.BelowIffNotAtLeast | src/feedManager.js:346 | `a < b` holds exactly when `b <= a` fails, so the window test and the retention test are complements |
| Strings.Lower | src/feedManager.js:238 | lower-casing keeps the length |
| Strings.LowerIdempotent | src/feedManager.js:238 | lower-casing twice is lower-casing once |
| Strings.Trim | src/rssParser.js:68 | the result neither starts nor ends with white space |
| Strings.TrimIsInfix | src/rssParser.js:68 | the result is an infix of the input, and everything cut off is white space |
| Strings.TrimIdempotent | src/rssParser.js:68 | trimming twice is trimming once |
| Seqs.Filter | src/feedManager.js:40 | the kept elements are exactly those passing the test, from the input, and no more of them than in the input |
| Seqs.FilterKeepsLength | src/feedManager.js:42 | a filter keeps the length exactly when every element passes, and then it is the identity; this is the "not found" test of `deleteFeed` |
| Seqs.FilterFilter | src/feedManager.js:38-49 | filtering twice is filtering by both tests |
| Seqs.FilterAppend | src/feedManager.js:38-49 | filtering distributes over concatenation |
| Seqs.FindIndex | src/feedManager.js:26 | the index found is the first whose element passes, and none means no element passes |
| Seqs.Find | src/feedManager.js:52 | an element is found exactly when one passes, and it is the first element that passes |
| Seqs.SortBySorted | src/feedManager.js:229 | the sort returns a permutation of its input in comparator order |
| Dom.QueryAllMatches | src/rssParser.js:30 | every element `querySelectorAll` returns matches the selector |
| Dom.QueryTreeMatches | src/rssParser.js:30 | the same for one subtree |
| Dom.QueryFirstIsHead | src/rssParser.js:67 | `querySelector` returns the first element `querySelectorAll` would, and nothing exactly when that is empty |
| Dom.QueryFirstTreeIsHead | src/rssParser.js:67 | the same for one subtree |
| FeedOps.NewFeed | src/feedManager.js:7-22 | the new feed has the given id and url, the title falls back to the url, and it is enabled, untagged, error-free and unfetched |
| FeedOps.PatchedFields | src/feedManager.js:30 | an empty spread is the identity, and a spread without `id` or `url` keeps them |
| FeedOps.UpdateFeed | src/feedManager.js:24-36 | no result exactly when no feed has the id; otherwise the first such feed is replaced by its spread and every other feed stays |
| FeedOps.GetFeedIsUpdated | src/feedManager.js:51-53 | `getFeed` finds a feed exactly when `updateFeed` does, and it is the feed that gets updated |
| FeedOps.UpdateThenGet | src/feedManager.js:24-36 | after an update that keeps the id, `getFeed` returns the updated feed |
| FeedOps.UpdateKeepsIds | src/feedManager.js:24-36 | an update without `id` keeps every feed id in place |
| FeedOps.DeleteFeed | src/feedManager.js:38-49 | nothing exactly when no feed has the id; otherwise the feed and its articles are filtered out, the rest keep their order, and every other field stays as it was |
| FeedOps.DeleteFeedTwice | src/feedManager.js:38-49 | deleting two feeds one after the other keeps the rest in their original order |
| FeedOps.FeedsByFolder | src/feedManager.js:59-61 | exactly the feeds of that folder (or of no folder), in their input order (the filter) and each as often as in the input |
| FeedOps.FeedsByTag | src/feedManager.js:63-65 | exactly the feeds carrying the tag, in their input order and each as often as in the input |
| FeedOps.EnabledFeeds | src/feedManager.js:366 | exactly the enabled feeds, in the stored order that the refresh run walks, each as often as stored |
| ArticleOps.NewArticle | src/feedManager.js:69-86 | the new article keeps the input's feed, title, url, author, summary, content and date, gets the id and fetch time, is unread, unstarred and unarchived, and its flags agree with its stamps |
| ArticleOps.ChangeArticle | src/feedManager.js:88-102 | no result exactly when no article has the id; otherwise only the first article with the id is changed |
| ArticleOps.ChangesKeepConsistency | src/feedManager.js:88-170 | every flag change keeps flags and stamps consistent, and the read and star changes touch only their own fields |
| ArticleOps.ToggleTwice | src/feedManager.js:120-170 | two star toggles restore the flag, and two archive toggles restore the article |
| ArticleOps.ToggleStar | src/feedManager.js:120-137 | unknown id gives nothing; otherwise only that article changes: the flag is flipped, the stamp is `now` when starring and cleared when unstarring, and the result is the new flag |
| ArticleOps.ToggleArchive | src/feedManager.js:154-170 | unknown id gives nothing; otherwise only that article changes, its archive flag flipped, and the result is the new flag |
| ArticleOps.ToggleStarTwice | src/feedManager.js:120-137 | toggling the star twice restores every article's star flag |
| ArticleOps.ComparatorsArePreorders | src/feedManager.js:175-195 | both article comparators are total preorders |
| ArticleOps.FilterKeepsSorted | src/feedManager.js:188 | filtering a sorted list keeps it sorted |
| ArticleOps.ArticlesByFeedSorted | src/feedManager.js:175-179 | exactly the feed's unarchived articles, newest first, as a permutation of the filtered list |
| ArticleOps.AllArticlesSorted | src/feedManager.js:181-185 | exactly the unarchived articles, newest first, as a permutation of the filtered list |
| ArticleOps.UnreadArticlesSorted | src/feedManager.js:187-189 | the same multiset as the unarchived unread articles, newest first |
| ArticleOps.StarredArticlesSorted | src/feedManager.js:191-195 | exactly the starred articles, archived or not, most recently starred first |
| ArticleOps.Cleanup | src/feedManager.js:280-301 | the survivors are the articles starred, highlighted or fetched after the cutoff, in their order and multiplicity (the filter); the count is the number dropped, zero exactly when nothing is dropped |
| ArticleOps.CleanupIdempotent | src/feedManager.js:280-301 | a second sweep with the same cutoff drops nothing |
| ArticleOps.CleanupMonotone | src/feedManager.js:282-294 | a later cutoff keeps no article an earlier one dropped |
| Organize.AddFolder | src/feedManager.js:199-211 | the folder is appended with the count of earlier folders as its order |
| Organize.AddFolderKeepsNumbering | src/feedManager.js:199-211 | orders that equal positions stay so, and the new folder sorts last |
| Organize.DeleteFolder | src/feedManager.js:213-226 | nothing exactly when no folder has the id; otherwise the folder is filtered out in order, feeds in it lose their folder and stay in place, and every other field stays as it was |
| Organize.DeleteFolderKeepsFeeds | src/feedManager.js:213-226 | no feed remains in the deleted folder, and every feed keeps its id and url |
| Organize.DeleteThenAddSharesOrder | src/feedManager.js:199-226 | after deleting the first of two folders, a new folder gets the survivor's order |
| Organize.SortFoldersSorted | src/feedManager.js:228-230 | the folders are rearranged by ascending `sortOrder` |
| Organize.AddTag | src/feedManager.js:234-249 | an existing tag is returned and the list is kept exactly when a name matches in any case, and it is the first such tag; otherwise a new tag is appended |
| Organize.AddTagKeepsDistinct | src/feedManager.js:234-249 | tag names stay distinct ignoring case |
| Organize.AddTagIdempotent | src/feedManager.js:234-249 | adding the same name again, in any case, returns the first tag and changes nothing |
| Organize.Untagged | src/feedManager.js:262 | the other names, in their order and each as often as before |
| Organize.DeleteTag | src/feedManager.js:251-272 | nothing exactly when no tag has the id; otherwise the tag is filtered out in order, its name is removed from every feed and article, and every other field stays as it was |
| Organize.DeleteTagCascade | src/feedManager.js:251-272 | no feed or article keeps the deleted name, and every other tag name stays on its feed |
| Refresh.AddedAreAdmitted | src/feedManager.js:343-360 | the added articles are the admitted items in order, each with its own id |
| Refresh.RefreshUnknownFeed | src/feedManager.js:308-310 | an unknown feed changes nothing and reports "Feed not found" |
| Refresh.RefreshHealth | src/feedManager.js:313-329 | a failure adds one error and records the fetch time; a success clears the errors and takes the site url and description |
| Refresh.TitleFilledOnce | src/feedManager.js:323-329 | the title is filled from the payload only while it equals the url |
| Refresh.AddedRespectsFilters | src/feedManager.js:337-360 | no added article has a url the feed already had, and none is dated before the cutoff |
| Refresh.WindowByItem | src/feedManager.js:343-348 | an item dated before the cutoff is never added; an undated new item is added when now is within the window |
| Refresh.AddedUrlsFromItems | src/feedManager.js:343-360 | every added url is an item's url |
| Refresh.DuplicateItemsBothAdded | src/feedManager.js:337-360 | two admitted items with one url are both added |
| Refresh.AdmittedIsAdded | src/feedManager.js:343-360 | every admitted item is added |
| Refresh.NothingAdmitted | src/feedManager.js:343-360 | with no admitted item nothing is added |
| Refresh.RefreshCounts | src/feedManager.js:343-362 | a success reports the number added and the payload's length |
| Refresh.RefreshKeepsTheRest | src/feedManager.js:304-363 | a refresh changes only feeds and articles, keeps every feed's id and url, and only appends articles |
| Refresh.FoundAfterRefresh | src/feedManager.js:304-363 | the feed is found under its id afterwards, with its url |
| Refresh.NoItemAdmittedAgain | src/feedManager.js:337-360 | once the added urls are known, no item of the payload is admitted again |
| Refresh.SecondRefreshAddsNothing | src/feedManager.js:304-363 | refreshing again with the same payload and a later cutoff adds no article |
| Refresh.RefreshFirst | src/feedManager.js:365-375 | after n turns there are n reports, each with the id and title the feed was listed with |
| Refresh.RefreshAll | src/feedManager.js:365-375 | one report per listed feed, in order, with its listed id and title |
| Refresh.RefreshAllKeepsFeeds | src/feedManager.js:365-375 | a run keeps every feed id in place and changes only feeds and articles |
| Refresh.EveryListedFeedFound | src/feedManager.js:369-372 | each listed feed is still found when its turn comes |
| Refresh.ReportsStay | src/feedManager.js:369-372 | later turns never change reports already made |
| Refresh.ReportOfPrefix | src/feedManager.js:369-372 | the i-th report is `refreshFeed` of the i-th feed on the dataset the earlier turns left |
| Refresh.RefreshKeepsUrls | src/feedManager.js:365-375 | a run keeps every feed's url in place |
| FeedManager.AddFeed | src/feedManager.js:7-22 | the feed is appended and saved, and the call resolves with it exactly when the save completes |
| FeedManager.UpdateFeed | src/feedManager.js:24-36 | unknown id: `null` and nothing written; otherwise the update is saved and the updated feed returned |
| FeedManager.DeleteFeed | src/feedManager.js:38-49 | unknown id: `false` and nothing written; otherwise the feed and its articles are removed and saved |
| FeedManager.AddArticle | src/feedManager.js:69-86 | the article is appended and saved, and the call resolves with it |
| FeedManager.ChangeArticle | src/feedManager.js:88-102 | found exactly when an article has the id; otherwise nothing is written |
| FeedManager.MarkArticleRead | src/feedManager.js:88-102 | unknown id changes nothing; otherwise the article is marked read with a stamp and saved |
| FeedManager.MarkArticleUnread | src/feedManager.js:104-118 | unknown id changes nothing; otherwise the article is marked unread and saved |
| FeedManager.ToggleArticleStar | src/feedManager.js:120-137 | unknown id: `false` and nothing written; otherwise the toggled flag is saved and returned |
| FeedManager.ArchiveArticle | src/feedManager.js:139-152 | unknown id changes nothing; otherwise the article is archived and saved |
| FeedManager.ToggleArticleArchive | src/feedManager.js:154-170 | unknown id: `false` and nothing written; otherwise the toggled flag is saved and returned |
| FeedManager.AddFolder | src/feedManager.js:199-211 | the numbered folder is appended, saved and returned |
| FeedManager.DeleteFolder | src/feedManager.js:213-226 | unknown id: `false` and nothing written; otherwise the folder cascade is saved |
| FeedManager.GetAllFolders | src/feedManager.js:228-230 | the stored folder list is sorted in place and returned, and nothing is saved |
| FeedManager.AddTag | src/feedManager.js:234-249 | an existing tag is returned without a write; otherwise the new tag is saved and returned |
| FeedManager.DeleteTag | src/feedManager.js:251-272 | unknown id: `false` and nothing written; otherwise the tag cascade is saved |
| FeedManager.CleanupOldArticles | src/feedManager.js:280-301 | writes only when something is dropped, and reports how many were |
| FeedManager.AddItems | src/feedManager.js:343-360 | the loop appends exactly the admitted items as articles, saving each, and counts them |
| FeedManager.RefreshFeed | src/feedManager.js:304-363 | unknown feed: "Feed not found" and nothing written; otherwise the dataset and result are those of the refresh function, or the health update alone when its save never completes |
| FeedManager.RefreshTurn | src/feedManager.js:369-372 | one turn moves the state from the trace's i-th entry to the next, and appends the report |
| FeedManager.RefreshEach | src/feedManager.js:369-373 | the loop ends in the state and reports of the whole run |
| FeedManager.RefreshAllFeeds | src/feedManager.js:365-375 | the enabled feeds are refreshed in order with one report each; the dataset is that of the run, or the first health update when that save never completes |
| Database.EncodePreferences | src/database.js:280 | the preferences record is the preferences plus `id`, which is `main` unless a preference of that name overrides it |
| Database.DecodePreferences | src/database.js:238-242 | the read preferences have no `id`, and each value is the first record's when it has the key, else the default |
| Database.PreferencesRoundTrip | src/database.js:238-242 | preferences that cover the defaults and have no `id` read back as written |
| Database.MetaRoundTrip | src/database.js:282-285 | the meta entries read back as the saved `version` and `lastSyncedAt`, and nothing else |
| Database.DecodeMeta | src/database.js:244-248 | the meta object has exactly the stored keys, each with its last value |
| Database.Written | src/database.js:150-182 | a save with nothing refused and no throwing store leaves the stores holding exactly that dataset; a refused or throwing store keeps its records |
| Database.SaveOutcome | src/database.js:267-292 | `false` exactly when a store refuses or a store's write throws with a `put` pending; never completes exactly when neither happens and some store's write throws with nothing pending; `true` exactly when every store writes |
| Database.SaveSucceedsExactly | src/database.js:150-182 | `true` exactly when nothing is refused, notes and note tags are present, every record of a store keyed by `id` has a valid one, and a preference named `id` is a valid key |
| Database.StoreRoundTrip | src/database.js:250-263 | loading after a save that resolved `true` gives back the saved dataset |
| Database.UnkeyedRuleHangs | src/database.js:158-176 | a first filter rule without a valid `id` makes the save fail to report `true`, and hang unless some store rejects; the filter-rule store stays as it was while feeds and articles are written |
| Database.LaterUnkeyedRuleFails | src/database.js:168-176 | an unkeyed filter rule after a keyed one makes the save report `false`; the filter-rule store stays as it was while feeds and articles are written |
| Database.WrittenTwice | src/database.js:267-292 | two saves leave what the second alone would, when the same stores throw for both |
| Database.RefusedWriteKeepsStore | src/database.js:150-182 | stores whose writes are refused keep their contents |
| Database.DefaultsSaveHangs | src/database.js:274-275 | saving the defaults never completes, leaves the notes store alone and empties the feeds |
| Database.OverlayIsSpread | src/database.js:364-367 | `updateData` is the object spread: empty updates change nothing, and two updates compose |
| Database.Migrated | src/database.js:185-208 | a blob is migrated exactly when it parses, and the result is the merge with the defaults |
| Database.ReloadAfterSave | src/database.js:314-326 | a dataset with feeds or articles whose save resolved `true` is what the next load gives |
| Database.EmptyStoreLoadsDefaults | src/database.js:318-326 | stores without feeds and articles load as the defaults |
| Database.MigrationWins | src/database.js:300-313 | a legacy blob takes precedence over the stores |
| Database.ExportImportRoundTrip | src/database.js:376-397 | an exported dataset with a version is accepted by the import and merges back to itself |
| Database.Database.constructor | src/database.js:25-27 | the module starts with the defaults in memory, no database and not ready |
| Database.Database.SaveData | src/database.js:340-356 | without a database: `false` and nothing changed; otherwise stamped and written, `true` once the save settles |
| Database.Database.UpdateData | src/database.js:364-367 | the spread is applied and then saved |
| Database.Database.SetSyncFolder | src/database.js:370-373 | the path is set, in the shared defaults too while they are shared, and then saved |
| Database.Database.ExportData | src/database.js:376-378 | the export is importable exactly when the version is truthy |
| Database.Database.ImportData | src/database.js:381-397 | an importable payload replaces the dataset merged with the defaults and is saved; anything else gives `false` and changes nothing |
| Database.Database.ClearData | src/database.js:400-414 | the defaults are in memory and written when the database is open, and the blob is removed once that completes |
| Database.Database.ReadBack | src/database.js:211-264 | the read dataset is every store's contents with the meta values and the preferences over the defaults |
| Database.Database.LoadData | src/database.js:295-337 | the loaded dataset covers each case: migration, read failure, stored data, defaults; the blob is removed only after the migration save completes |
| LegacyDatabase.LoadedFrom | src/database-localStorage-backup.js.js:36-58 | the loaded dataset always has feeds, articles and the default preference keys |
| LegacyDatabase.LoadSaveLoad | src/database-localStorage-backup.js.js:22-58 | a load, then a save (which stamps `lastSyncedAt`), then a load gives the stamped dataset |
| LegacyDatabase.MigrationAgreesWithLegacyLoad | src/database-localStorage-backup.js.js:39-46 | the IndexedDB migration reads a blob as the legacy load does |
| LegacyDatabase.ImportedGapsFilledOnLoad | src/database-localStorage-backup.js.js:83-95 | an import keeps gaps, which the next load fills with the defaults |
| LegacyDatabase.LegacyDatabase.constructor | src/database-localStorage-backup.js.js:18-19 | the module starts with the defaults |
| LegacyDatabase.LegacyDatabase.SaveData | src/database-localStorage-backup.js.js:22-33 | stamps the dataset and stores it, reporting `false` and keeping the old text when the storage is full |
| LegacyDatabase.LegacyDatabase.LoadData | src/database-localStorage-backup.js.js:36-58 | the dataset is the stored text merged with the defaults, or the defaults |
| LegacyDatabase.LegacyDatabase.UpdateData | src/database-localStorage-backup.js.js:66-69 | the spread is applied, stamped and stored |
| LegacyDatabase.LegacyDatabase.SetSyncFolder | src/database-localStorage-backup.js.js:72-75 | rejects and changes nothing without preferences; otherwise sets the path and saves |
| LegacyDatabase.LegacyDatabase.ExportData | src/database-localStorage-backup.js.js:78-80 | the export is importable exactly when it has a truthy version, feeds and articles |
| LegacyDatabase.LegacyDatabase.ImportData | src/database-localStorage-backup.js.js:83-95 | accepts exactly an importable payload, which replaces the dataset as it is; anything else changes nothing |
| LegacyDatabase.LegacyDatabase.ClearData | src/database-localStorage-backup.js.js:98-101 | the defaults are in memory and the stored text is removed |
| RssParser.TextContent | src/rssParser.js:65-69 | the trimmed text of the first matching descendant, or `''` when there is none |
| RssParser.FirstLinkHrefIsFirstMatch | src/rssParser.js:71-80 | the search stops at the first selected link, even one without `href` |
| RssParser.AtomLinkCases | src/rssParser.js:71-80 | without `rel` the first link wins; with `alternate` a link without `rel` qualifies; no parent gives `''` |
| RssParser.ParseDate | src/rssParser.js:82-90 | a date exactly for non-empty text that converts to a non-empty value, and it is the converted value |
| RssParser.ParseRss | src/rssParser.js:29-45 | the channel's title or `Untitled Feed`, its description and link, and item i is read from the i-th `item` element |
| RssParser.RssItemFallbacks | src/rssParser.js:36-43 | the item title, author and content fall back as the `||` chains say |
| RssParser.ParseAtom | src/rssParser.js:47-63 | the feed's title or `Untitled Feed`, its subtitle and alternate link, and item i is read from the i-th `entry` element |
| RssParser.AtomEntryFallbacks | src/rssParser.js:54-61 | the entry url, date and author fall back as written |
| RssParser.ParseXmlDispatch | src/rssParser.js:4-27 | a parse error wins, then RSS, then Atom, and otherwise "Unknown feed format" |
| RssParser.Decimal | src/rssParser.js:100 | a status code prints as a non-empty string of digits |
| RssParser.DecimalRoundTrip | src/rssParser.js:100 | the printed status reads back as the status |
| RssParser.FetchFeed | src/rssParser.js:93-117 | success exactly for a 2xx response whose body parses, carrying the parsed feed; a failure carries the parse message, `HTTP <status>` for other statuses, or the network message (else `Failed to fetch feed`) |
| RssParser.StripSlash | src/rssParser.js:121 | at most one trailing slash is removed |
| RssParser.PossibleFeedUrls | src/rssParser.js:120-130 | six candidates, the base followed by each suffix in order |
| RssParser.PossibleFeedUrlsSlash | src/rssParser.js:120-130 | one trailing slash makes no difference, and only one is removed |
| RssParser.FirstSuccessIsFirst | src/rssParser.js:136-143 | the result is the first url whose fetch succeeds, and failure means every fetch failed |
| RssParser.DiscoverFeedCandidates | src/rssParser.js:133-144 | a discovered url is the first successful candidate |
| Opml.EscapeChar | src/opml.js:65-69 | every character escapes to a non-empty text |
| Opml.EscapeChars | src/opml.js:62-70 | escaping never shortens |
| Opml.ReplaceChainChar | src/opml.js:64-69 | the chain of replacements maps each special character to its entity |
| Opml.ReplaceChainAppend | src/opml.js:64-69 | the chain of replacements distributes over concatenation |
| Opml.EscapeXmlIsPerChar | src/opml.js:62-70 | since `&` goes first, `escapeXml` escapes character by character |
| Opml.EscapeXmlNoMarkup | src/opml.js:62-70 | escaped text has none of `<`, `>`, `"`, `'` |
| Opml.EscapeXmlPlain | src/opml.js:62-70 | text without special characters is unchanged |
| Opml.EscapeXmlEmpty | src/opml.js:63 | the result is empty exactly for empty input |
| Opml.UnescapeEscape | src/opml.js:62-70 | decoding the entities gives the original text back |
| Opml.OutlineLineRendersAttrs | src/opml.js:21 | the outline line is the element with its attributes, each escaped |
| Opml.ExportToOpml | src/opml.js:4-28 | the document is the header, one line per feed in order, and the footer |
| Opml.AppendLines | src/opml.js:16-22 | the loop appends every feed's line in order |
| Opml.LinesAppend | src/opml.js:16-22 | the lines for a concatenated list are the lines for each part, in order |
| Opml.LinesSingle | src/opml.js:16-22 | one feed gives exactly its own line |
| Opml.OutlineFeed | src/opml.js:44-56 | a feed exactly when `xmlUrl` or `xmlurl` is non-empty; its url is `xmlUrl || xmlurl`, its title `title || text || url`, its site url `htmlUrl || htmlurl || ''` |
| Opml.ParseOpml | src/opml.js:31-59 | a parse error gives "Invalid OPML file"; otherwise one feed per outline with a feed url, in order |
| Opml.CollectFeeds | src/opml.js:44-56 | the loop pushes each accepted outline's feed in order |
| Opml.OutlineFeedsAreFiltered | src/opml.js:41-58 | the imported feeds are the outlines with a non-empty feed url, in order |
| Opml.CollectIsFiltered | src/opml.js:44-56 | collecting is filtering, then reading |
| Opml.OutlineAttrMap | src/opml.js:17-21 | an exported outline carries the title, the url and the site url when present |
| Opml.OutlineRoundTrip | src/opml.js:16-56 | an exported feed imports back with its url, its title (or url) and its site url |

## Left out

- `src/main.js` and the article extractor (`src/ articleExtractor.js`, whose file name starts with a space) are not part of this model.
- The notes, note-tag, filter-rule, training-signal and saved-search operations are not part of this model. The datasets carry those collections only so that they are saved and loaded.
- JSON text is not modelled as text. `JSON.parse` is a `Blob` value (empty, malformed, or the parsed object), and `JSON.stringify` is the dataset as an object.
- `fetch`, the CORS proxy url and `encodeURIComponent` are left out. `fetchFeed` takes the response as a value, and refresh and discovery take a function from url to fetch outcome.
- `DOMParser` is left out: parsing starts from an element tree. Selectors are plain element names, so the `dc\:creator` and `content\:encoded` namespace forms are modelled as names.
- `new Date`, `toISOString`, `toUTCString` and the day arithmetic of the cutoffs are parameters. `RssParser.ParseDate` takes date conversion as the function `toIso`.
- `generateId` and `now` are parameters. Each article added by one refresh gets its own id, and all share one `now`.
- Concurrency: the model runs each operation alone. Interleaved operations racing on `updateData` are not modelled.
- IndexedDB returns records in key order. The model reads them back in the order they were written, so it does not capture reordering by key.
- Database.Written: a store is the sequence of records written. IndexedDB keeps one record per `id`, so two records sharing an id collapse to the last one written; the model keeps both.
- Database.StoreRoundTrip: holds for the model's store. With two records sharing an id, or records not in key order, the real store reads back fewer or reordered records.
- Database.ReloadAfterSave: inherits the same gap as Database.StoreRoundTrip (shared ids collapse and records come back in key order).
- `replaceStoreContents`' per-record callbacks and transactions are collapsed into one outcome per store: written, refused, or hanging.
- `openDatabase`'s schema creation and indexes are left out. `LoadData` takes whether opening and reading succeed as parameters.
- `downloadOPML` (Blob, object URL, DOM anchor) is left out.
- `isReady`, `getData`, `getFeed`, `getAllFeeds`, `getArticle` and `getAllTags` return stored state. They are plain reads of the fields.
- Seqs.SortBySorted: proves sorted order and a permutation, but not that the sort is stable.
- Strings.Lower: maps only ASCII letters, not the full Unicode case mapping of `toLowerCase`.
- Strings are sequences of code points. Strings are compared by code point, not by UTF-16 unit, and `localeCompare` is modelled as that order.
- FeedManager.GetAllFolders: the in-place `sort` of the stored array is a reassignment of the folder list.
- Opml.OutlineAttrMap: the parser is modelled as decoding the five XML entities only. XML attribute-value normalisation (a tab, line feed or carriage return read back as a space) and the characters XML 1.0 forbids (other C0 controls, U+FFFE, U+FFFF) are not modelled.
- Opml.OutlineRoundTrip: holds for the model's parser above. For a title, url or site url containing a tab, line feed, carriage return or a character XML 1.0 forbids, a real parser returns a different value or rejects the file, which the model does not capture.
- Logging: the `console.error` and `console.log` calls are left out; they do not change state or results.
- Refresh.RefreshAll: one `cutoff` and one `now` serve the whole run. The source reads the clock again for each feed (the cutoff at src/feedManager.js:331-334) and for each undated item (`now()` at src/feedManager.js:346), so articles of one run may carry different timestamps there.
- Organize.SortFoldersSorted: a `sortOrder` that is not a number (NaN comparisons) is not modelled. Orders are integers.
