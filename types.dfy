/** The entities of the reader and the default, empty dataset every merge
    starts from (src/types.js). */
module Types {
  import opened Values

  /** A subscribed feed. Optional fields are absent until a refresh (or an
      update) sets them. */
  datatype Feed = Feed(
    id: string,
    title: string,
    url: string,
    siteUrl: Option<string>,
    description: Option<string>,
    tags: seq<string>,
    folderId: Option<string>,
    addedAt: string,
    lastFetchedAt: Option<string>,
    errorCount: int,
    isEnabled: bool)

  /** A stored article; `publishedAt` is `null` when the feed gave no date. */
  datatype Article = Article(
    id: string,
    feedId: string,
    title: string,
    url: string,
    author: string,
    summary: string,
    content: string,
    publishedAt: Option<string>,
    fetchedAt: string,
    isRead: bool,
    readAt: Option<string>,
    isStarred: bool,
    starredAt: Option<string>,
    isArchived: bool,
    engagementScore: int,
    highlights: seq<Record>,
    tags: seq<string>)

  datatype Folder = Folder(id: string, name: string, parentId: Option<string>, sortOrder: int)

  datatype Tag = Tag(id: string, name: string, color: string)

  /** The preferences object: an open set of keys. */
  type Prefs = map<string, Scalar>

  /** The in-memory dataset of the IndexedDB version. `notes` and `noteTags`
      may be absent (the defaults have neither); a missing `version` or
      `lastSyncedAt` is `Undefined`. */
  datatype AppData = AppData(
    version: Scalar,
    lastSyncedAt: Scalar,
    feeds: seq<Feed>,
    articles: seq<Article>,
    folders: seq<Folder>,
    tags: seq<Tag>,
    notes: Option<seq<Record>>,
    noteTags: Option<seq<Record>>,
    filterRules: seq<Record>,
    trainingSignals: seq<Record>,
    savedSearches: seq<Record>,
    preferences: Prefs)

  /** A parsed JSON object that may carry any subset of the dataset's
      top-level fields: an import payload, a legacy blob, the argument of
      `updateData`, or the whole legacy dataset. */
  datatype PartialData = PartialData(
    version: Scalar,
    lastSyncedAt: Scalar,
    feeds: Option<seq<Feed>>,
    articles: Option<seq<Article>>,
    folders: Option<seq<Folder>>,
    tags: Option<seq<Tag>>,
    notes: Option<seq<Record>>,
    noteTags: Option<seq<Record>>,
    filterRules: Option<seq<Record>>,
    trainingSignals: Option<seq<Record>>,
    savedSearches: Option<seq<Record>>,
    preferences: Option<Prefs>)

  /** The object with no fields. */
  const NoFields := PartialData(Undefined, Undefined, None, None, None, None, None, None, None, None, None, None)

  /** `defaultAppData.preferences` as declared. */
  const DefaultPreferences: Prefs := map[
    "globalRefreshInterval" := Num(10080.0),
    "defaultView" := Str("list"),
    "theme" := Str("system"),
    "articleRetentionDays" := Num(30.0),
    "notificationsEnabled" := Bool(true),
    "ttsSpeed" := Num(1.0)]

  /** `{ ...defaultAppData }` while the shared preferences object holds
      `prefs` (it starts as DefaultPreferences and can be mutated in place). */
  function Defaults(prefs: Prefs): AppData {
    AppData(Num(1.0), Undefined, [], [], [], [], None, None, [], [], [], prefs)
  }

  /** The dataset as the JSON object it serialises to: every field present,
      except the optional ones that are absent. */
  function AsObject(d: AppData): PartialData {
    PartialData(d.version, d.lastSyncedAt, Some(d.feeds), Some(d.articles), Some(d.folders),
                Some(d.tags), d.notes, d.noteTags, Some(d.filterRules), Some(d.trainingSignals),
                Some(d.savedSearches), Some(d.preferences))
  }

  /** `{ ...defaultAppData, ...p, preferences: { ...defaultAppData.preferences, ...p.preferences } }`:
      the merge used by the migration, the import and the legacy load. */
  function WithDefaults(prefs: Prefs, p: PartialData): (d: AppData)
    ensures d.version == (if p.version.Undefined? then Defaults(prefs).version else p.version)
    ensures d.lastSyncedAt == p.lastSyncedAt
    ensures d.feeds == (if p.feeds.Some? then p.feeds.value else Defaults(prefs).feeds)
    ensures d.articles == (if p.articles.Some? then p.articles.value else Defaults(prefs).articles)
    ensures d.folders == (if p.folders.Some? then p.folders.value else Defaults(prefs).folders)
    ensures d.tags == (if p.tags.Some? then p.tags.value else Defaults(prefs).tags)
    ensures d.notes == p.notes && d.noteTags == p.noteTags
    ensures d.filterRules == (if p.filterRules.Some? then p.filterRules.value else Defaults(prefs).filterRules)
    ensures d.trainingSignals == (if p.trainingSignals.Some? then p.trainingSignals.value else Defaults(prefs).trainingSignals)
    ensures d.savedSearches == (if p.savedSearches.Some? then p.savedSearches.value else Defaults(prefs).savedSearches)
    ensures d.preferences.Keys == prefs.Keys + (if p.preferences.Some? then p.preferences.value.Keys else {})
    ensures forall k :: k in d.preferences ==>
              d.preferences[k] == if p.preferences.Some? && k in p.preferences.value then p.preferences.value[k] else prefs[k]
  {
    AppData(
      if p.version.Undefined? then Num(1.0) else p.version,
      p.lastSyncedAt,
      p.feeds.GetOr([]),
      p.articles.GetOr([]),
      p.folders.GetOr([]),
      p.tags.GetOr([]),
      p.notes,
      p.noteTags,
      p.filterRules.GetOr([]),
      p.trainingSignals.GetOr([]),
      p.savedSearches.GetOr([]),
      prefs + p.preferences.GetOr(map[]))
  }

  /** The two extreme payloads: an empty object merges to the defaults, and
      so do the defaults themselves. */
  lemma WithDefaultsOverlays(prefs: Prefs, p: PartialData)
    ensures WithDefaults(prefs, NoFields) == Defaults(prefs)
    ensures WithDefaults(prefs, AsObject(Defaults(prefs))) == Defaults(prefs)
  {
  }

  /** A dataset survives being serialised and merged back with the defaults
      when its version is set and its preferences cover the default keys:
      the export/import round trip. */
  lemma WithDefaultsOfObject(prefs: Prefs, d: AppData)
    requires !d.version.Undefined? && prefs.Keys <= d.preferences.Keys
    ensures WithDefaults(prefs, AsObject(d)) == d
  {
    assert prefs + d.preferences == d.preferences;
  }

  /** Running the merge twice gives what running it once gives (the legacy
      migration is idempotent). */
  lemma WithDefaultsIdempotent(prefs: Prefs, p: PartialData)
    ensures WithDefaults(prefs, AsObject(WithDefaults(prefs, p))) == WithDefaults(prefs, p)
  {
    var d := WithDefaults(prefs, p);
    WithDefaultsOfObject(prefs, d);
  }

  /** `{ ...base, ...u }` on plain objects: the fields `u` carries replace
      those of `base`, every other field of `base` stays. */
  function Spread(base: PartialData, u: PartialData): PartialData {
    PartialData(
      if u.version.Undefined? then base.version else u.version,
      if u.lastSyncedAt.Undefined? then base.lastSyncedAt else u.lastSyncedAt,
      if u.feeds.Some? then u.feeds else base.feeds,
      if u.articles.Some? then u.articles else base.articles,
      if u.folders.Some? then u.folders else base.folders,
      if u.tags.Some? then u.tags else base.tags,
      if u.notes.Some? then u.notes else base.notes,
      if u.noteTags.Some? then u.noteTags else base.noteTags,
      if u.filterRules.Some? then u.filterRules else base.filterRules,
      if u.trainingSignals.Some? then u.trainingSignals else base.trainingSignals,
      if u.savedSearches.Some? then u.savedSearches else base.savedSearches,
      if u.preferences.Some? then u.preferences else base.preferences)
  }

  /** What `importData` checks before it accepts a payload:
      `imported.version && imported.feeds && imported.articles`. */
  predicate Importable(p: PartialData) {
    Truthy(p.version) && p.feeds.Some? && p.articles.Some?
  }

  /** The text stored under a localStorage key, or handed to `importData`, as
      `JSON.parse` sees it: empty, not JSON, or an object. */
  datatype Blob = EmptyText | Malformed | Payload(parsed: PartialData)

  /** The constant itself: version 1, every collection empty, no notes, note
      tags or sync stamp, and the documented preference values. */
  lemma DefaultsShape()
    ensures Defaults(DefaultPreferences).version == Num(1.0)
    ensures Defaults(DefaultPreferences).feeds == [] && Defaults(DefaultPreferences).articles == []
    ensures Defaults(DefaultPreferences).folders == [] && Defaults(DefaultPreferences).tags == []
    ensures Defaults(DefaultPreferences).filterRules == [] && Defaults(DefaultPreferences).trainingSignals == []
    ensures Defaults(DefaultPreferences).savedSearches == []
    ensures Defaults(DefaultPreferences).notes.None? && Defaults(DefaultPreferences).noteTags.None?
    ensures Defaults(DefaultPreferences).lastSyncedAt.Undefined?
    ensures DefaultPreferences["articleRetentionDays"] == Num(30.0)
    ensures DefaultPreferences["globalRefreshInterval"] == Num(10080.0)
    ensures DefaultPreferences["defaultView"] == Str("list") && DefaultPreferences["theme"] == Str("system")
    ensures DefaultPreferences["notificationsEnabled"] == Bool(true) && DefaultPreferences["ttsSpeed"] == Num(1.0)
    ensures |DefaultPreferences.Keys| == 6
    ensures "syncFolderPath" !in DefaultPreferences && "id" !in DefaultPreferences
  {
  }
}
