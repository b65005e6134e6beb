/** The IndexedDB persistence layer (src/database.js): an in-memory dataset,
    eleven object stores it is written to and read back from, the one-time
    migration of the older localStorage blob, and the operations the rest of
    the application calls. */
module Database {
  import opened Values
  import opened Types

  /** The object stores, one per top-level collection plus `preferences`
      and `meta`. */
  datatype Collection =
    | Feeds | Articles | Folders | Tags | Notes | NoteTags
    | FilterRules | TrainingSignals | SavedSearches | Preferences | Meta

  /** A record of the `meta` store. */
  datatype MetaEntry = MetaEntry(key: string, value: Scalar)

  /** What the object stores hold, each as the records `getAll` returns. */
  datatype Store = Store(
    feeds: seq<Feed>,
    articles: seq<Article>,
    folders: seq<Folder>,
    tags: seq<Tag>,
    notes: seq<Record>,
    noteTags: seq<Record>,
    filterRules: seq<Record>,
    trainingSignals: seq<Record>,
    savedSearches: seq<Record>,
    preferences: seq<Record>,
    meta: seq<MetaEntry>)

  const EmptyStore := Store([], [], [], [], [], [], [], [], [], [], [])

  // ---- preferences: one record with the id "main" ----

  /** `{ id: 'main', ...preferences }`. */
  function EncodePreferences(p: Prefs): (r: Record)
    ensures r.Keys == p.Keys + {"id"}
    ensures forall k :: k in p ==> r[k] == p[k]
    ensures "id" !in p ==> r["id"] == Str("main")
  {
    map["id" := Str("main")] + p
  }

  /** The preferences `loadFromIndexedDB` rebuilds: the defaults overlaid with
      the first stored record, without its `id`. */
  function DecodePreferences(defaults: Prefs, records: seq<Record>): (r: Prefs)
    ensures "id" !in r
    ensures r.Keys == (defaults.Keys + (if |records| > 0 then records[0].Keys else {})) - {"id"}
    ensures forall k :: k in r ==> r[k] == if |records| > 0 && k in records[0] then records[0][k] else defaults[k]
  {
    (if |records| > 0 then defaults + records[0] else defaults) - {"id"}
  }

  /** The preferences record reads back as written, when the preferences
      have no `id` key of their own and cover every default key. */
  lemma PreferencesRoundTrip(defaults: Prefs, p: Prefs)
    requires "id" !in p && defaults.Keys <= p.Keys
    ensures DecodePreferences(defaults, [EncodePreferences(p)]) == p
  {
    var r := DecodePreferences(defaults, [EncodePreferences(p)]);
    assert forall k :: k in r ==> r[k] == p[k];
  }

  // ---- meta: version and lastSyncedAt ----

  function EncodeMeta(d: AppData): seq<MetaEntry> {
    [MetaEntry("version", d.version), MetaEntry("lastSyncedAt", d.lastSyncedAt)]
  }

  /** `meta[key]` after the `forEach` that copies the entries in order: the
      value of the last entry with that key, `undefined` when none has it. */
  function MetaValue(entries: seq<MetaEntry>, key: string): Scalar {
    if entries == [] then Undefined
    else if entries[|entries| - 1].key == key then entries[|entries| - 1].value
    else MetaValue(entries[..|entries| - 1], key)
  }

  /** `obj[key]` on a plain object. */
  function Lookup(m: map<string, Scalar>, key: string): Scalar {
    if key in m then m[key] else Undefined
  }

  /** The meta entries written by a save read back as the values saved. */
  lemma MetaRoundTrip(d: AppData)
    ensures MetaValue(EncodeMeta(d), "version") == d.version
    ensures MetaValue(EncodeMeta(d), "lastSyncedAt") == d.lastSyncedAt
    ensures forall k :: k != "version" && k != "lastSyncedAt" ==> MetaValue(EncodeMeta(d), k) == Undefined
  {
    var e := EncodeMeta(d);
    assert e[..1] == [MetaEntry("version", d.version)];
    assert e[..1][..0] == [];
    forall k | k != "version" && k != "lastSyncedAt" ensures MetaValue(e, k) == Undefined {
      assert MetaValue(e, k) == MetaValue(e[..1], k) == MetaValue(e[..1][..0], k);
    }
  }

  /** The `forEach` that builds the `meta` object from the stored entries. */
  method DecodeMeta(entries: seq<MetaEntry>) returns (meta: map<string, Scalar>)
    ensures forall k :: k in meta <==> exists i :: 0 <= i < |entries| && entries[i].key == k
    ensures forall k :: Lookup(meta, k) == MetaValue(entries, k)
  {
    meta := map[];
    var i := 0;
    while i < |entries|
      invariant 0 <= i <= |entries|
      invariant forall k :: k in meta <==> exists j :: 0 <= j < i && entries[j].key == k
      invariant forall k :: Lookup(meta, k) == MetaValue(entries[..i], k)
    {
      assert entries[..i + 1][..i] == entries[..i];
      meta := meta[entries[i].key := entries[i].value];
      i := i + 1;
    }
    assert entries[..i] == entries;
  }

  // ---- reading and writing the stores ----

  /** `loadFromIndexedDB`: every collection as stored, the preferences over
      the defaults, `version` falling back to 1 and `lastSyncedAt` to
      `null` when the stored value is falsy. */
  function Loaded(defaults: Prefs, s: Store): AppData {
    AppData(
      Or(MetaValue(s.meta, "version"), Num(1.0)),
      Or(MetaValue(s.meta, "lastSyncedAt"), Null),
      s.feeds, s.articles, s.folders, s.tags,
      Some(s.notes), Some(s.noteTags),
      s.filterRules, s.trainingSignals, s.savedSearches,
      DecodePreferences(defaults, s.preferences))
  }

  /** A valid IndexedDB key among the scalars: a string or a number. */
  predicate IsKey(v: Scalar) {
    v.Str? || v.Num?
  }

  /** The record carries a valid `id`, the key path of its store. */
  predicate HasKey(r: Record) {
    "id" in r && IsKey(r["id"])
  }

  /** Every record carries a valid `id`. */
  predicate Keyed(records: seq<Record>) {
    records == [] || (HasKey(records[0]) && Keyed(records[1..]))
  }

  /** A keyed sequence is keyed at every index, and an unkeyed record makes
      the sequence unkeyed. */
  lemma {:induction false} KeyedAt(records: seq<Record>, i: nat)
    requires i < |records|
    ensures Keyed(records) ==> HasKey(records[i])
  {
    if i > 0 {
      KeyedAt(records[1..], i - 1);
    }
  }

  /** How the write of one store ends. Its `onsuccess` callback throws on a
      missing collection (`items.length` of `undefined`) or on the `put` of a
      record without a valid `id`; the transaction then aborts. With nothing
      pending the store's promise never settles (`Hangs`); with a `put`
      pending the abort fails that request, whose `onerror` rejects
      (`Rejects`). */
  datatype WriteStatus = Writes | Hangs | Rejects

  function RecordsStatus(records: seq<Record>): WriteStatus {
    if Keyed(records) then Writes
    else if !HasKey(records[0]) then Hangs
    else Rejects
  }

  /** The status of each store that can throw. */
  datatype StoreStatuses = StoreStatuses(
    notes: WriteStatus, noteTags: WriteStatus, filterRules: WriteStatus,
    trainingSignals: WriteStatus, savedSearches: WriteStatus, preferences: WriteStatus)

  /** Some store ends with `w`. */
  predicate Any(st: StoreStatuses, w: WriteStatus) {
    || st.notes == w || st.noteTags == w || st.filterRules == w
    || st.trainingSignals == w || st.savedSearches == w || st.preferences == w
  }

  /** The statuses for `d`: the preferences record's key is a preference
      named `id` when there is one. Feeds, articles, folders and tags
      always have a string id. */
  function Statuses(d: AppData): StoreStatuses {
    StoreStatuses(
      if d.notes.None? then Hangs else RecordsStatus(d.notes.value),
      if d.noteTags.None? then Hangs else RecordsStatus(d.noteTags.value),
      RecordsStatus(d.filterRules),
      RecordsStatus(d.trainingSignals),
      RecordsStatus(d.savedSearches),
      if "id" in d.preferences && !IsKey(d.preferences["id"]) then Hangs else Writes)
  }

  /** The stores after `saveToIndexedDB` wrote `d`. Each collection is
      replaced in its own transaction; one whose store refuses the write
      keeps its old contents, and so does one whose callback throws (the
      transaction then aborts). */
  function Written(s: Store, d: AppData, refused: set<Collection>): (r: Store)
    ensures refused == {} && Statuses(d) == StoreStatuses(Writes, Writes, Writes, Writes, Writes, Writes) ==>
              r == Store(d.feeds, d.articles, d.folders, d.tags, d.notes.value, d.noteTags.value,
                         d.filterRules, d.trainingSignals, d.savedSearches,
                         [EncodePreferences(d.preferences)], EncodeMeta(d))
  {
    var st := Statuses(d);
    Store(
      if Feeds in refused then s.feeds else d.feeds,
      if Articles in refused then s.articles else d.articles,
      if Folders in refused then s.folders else d.folders,
      if Tags in refused then s.tags else d.tags,
      if Notes in refused || st.notes != Writes then s.notes else d.notes.value,
      if NoteTags in refused || st.noteTags != Writes then s.noteTags else d.noteTags.value,
      if FilterRules in refused || st.filterRules != Writes then s.filterRules else d.filterRules,
      if TrainingSignals in refused || st.trainingSignals != Writes then s.trainingSignals else d.trainingSignals,
      if SavedSearches in refused || st.savedSearches != Writes then s.savedSearches else d.savedSearches,
      if Preferences in refused || st.preferences != Writes then s.preferences else [EncodePreferences(d.preferences)],
      if Meta in refused then s.meta else EncodeMeta(d))
  }

  /** What `saveToIndexedDB` resolves to. `Promise.all` rejects as soon as one
      store refuses or aborts with a `put` pending (caught: `false`);
      otherwise a store whose callback throws with nothing pending leaves
      one promise that neither resolves nor rejects, and the save never
      completes. */
  function SaveOutcome(d: AppData, refused: set<Collection>): (r: Settled<bool>)
    ensures r == Resolved(true) <==> refused == {} && Statuses(d) == StoreStatuses(Writes, Writes, Writes, Writes, Writes, Writes)
    ensures r == Resolved(false) <==> refused != {} || Any(Statuses(d), Rejects)
    ensures r == NeverSettles <==> refused == {} && !Any(Statuses(d), Rejects) && Any(Statuses(d), Hangs)
  {
    if refused != {} || Any(Statuses(d), Rejects) then Resolved(false)
    else if Any(Statuses(d), Hangs) then NeverSettles
    else Resolved(true)
  }

  /** A save reports `true` exactly when nothing is refused, notes and note
      tags are present, every record of a store keyed by `id` has a valid
      one, and a preference named `id` is a valid key. */
  lemma SaveSucceedsExactly(d: AppData, refused: set<Collection>)
    ensures SaveOutcome(d, refused) == Resolved(true) <==>
              && refused == {} && d.notes.Some? && d.noteTags.Some?
              && Keyed(d.notes.value) && Keyed(d.noteTags.value)
              && Keyed(d.filterRules) && Keyed(d.trainingSignals) && Keyed(d.savedSearches)
              && ("id" in d.preferences ==> IsKey(d.preferences["id"]))
  {
  }

  /** The dataset as `loadData` finds it again after a successful save of
      `d`: the store round trip. */
  lemma StoreRoundTrip(defaults: Prefs, s: Store, d: AppData)
    requires SaveOutcome(d, {}) == Resolved(true)
    requires "id" !in d.preferences && defaults.Keys <= d.preferences.Keys
    requires Truthy(d.version) && (d.lastSyncedAt == Null || Truthy(d.lastSyncedAt))
    ensures Loaded(defaults, Written(s, d, {})) == d
  {
    MetaRoundTrip(d);
    PreferencesRoundTrip(defaults, d.preferences);
  }

  /** Two saves in a row leave what the second alone would, as long as the
      same stores throw for both datasets. */
  lemma WrittenTwice(s: Store, d1: AppData, d2: AppData, refused: set<Collection>)
    requires Statuses(d1) == Statuses(d2)
    ensures Written(Written(s, d1, refused), d2, refused) == Written(s, d2, refused)
  {
  }

  /** The two datasets hold the same records wherever a write can throw. */
  predicate SameRecords(d1: AppData, d2: AppData) {
    && d1.notes == d2.notes && d1.noteTags == d2.noteTags
    && d1.filterRules == d2.filterRules && d1.trainingSignals == d2.trainingSignals
    && d1.savedSearches == d2.savedSearches && d1.preferences == d2.preferences
  }

  lemma SameRecordsSaveAlike(d1: AppData, d2: AppData)
    requires SameRecords(d1, d2)
    ensures Statuses(d1) == Statuses(d2)
  {
  }

  /** A first filter rule without a valid `id` makes `store.put` throw
      before any request is pending: unless some store rejects, the save
      never completes. The filter-rule store keeps its old records, while
      the other stores are written. */
  lemma UnkeyedRuleHangs(s: Store, d: AppData)
    requires |d.filterRules| > 0 && !HasKey(d.filterRules[0])
    ensures SaveOutcome(d, {}) != Resolved(true)
    ensures !Any(Statuses(d), Rejects) ==> SaveOutcome(d, {}) == NeverSettles
    ensures Written(s, d, {}).filterRules == s.filterRules
    ensures Written(s, d, {}).feeds == d.feeds && Written(s, d, {}).articles == d.articles
  {
    assert Statuses(d).filterRules == Hangs;
  }

  /** An unkeyed filter rule after a keyed one throws while the first `put`
      is pending: the abort fails that request, its `onerror` rejects, and
      the save reports `false`. The filter-rule store keeps its old
      records. */
  lemma LaterUnkeyedRuleFails(s: Store, d: AppData, i: nat)
    requires 0 < i < |d.filterRules| && HasKey(d.filterRules[0]) && !HasKey(d.filterRules[i])
    ensures SaveOutcome(d, {}) == Resolved(false)
    ensures Written(s, d, {}).filterRules == s.filterRules
    ensures Written(s, d, {}).feeds == d.feeds && Written(s, d, {}).articles == d.articles
  {
    KeyedAt(d.filterRules, i);
    assert Statuses(d).filterRules == Rejects;
  }

  /** A store a refused save did not reach reads back unchanged. */
  lemma RefusedWriteKeepsStore(s: Store, d: AppData)
    ensures Written(s, d, {Feeds, Articles, Folders, Tags, Notes, NoteTags, FilterRules,
                           TrainingSignals, SavedSearches, Preferences, Meta}) == s
  {
  }

  /** The defaults never reach the stores in full: saving them leaves the
      previous notes and note tags in place and never completes. */
  lemma DefaultsSaveHangs(s: Store, prefs: Prefs)
    ensures SaveOutcome(Defaults(prefs), {}) == NeverSettles
    ensures Written(s, Defaults(prefs), {}).notes == s.notes
    ensures Written(s, Defaults(prefs), {}).feeds == []
  {
  }

  // ---- merges ----

  /** `{ ...appData, ...updates }`. */
  function Overlay(d: AppData, u: PartialData): AppData {
    AppData(
      if u.version.Undefined? then d.version else u.version,
      if u.lastSyncedAt.Undefined? then d.lastSyncedAt else u.lastSyncedAt,
      u.feeds.GetOr(d.feeds),
      u.articles.GetOr(d.articles),
      u.folders.GetOr(d.folders),
      u.tags.GetOr(d.tags),
      if u.notes.Some? then u.notes else d.notes,
      if u.noteTags.Some? then u.noteTags else d.noteTags,
      u.filterRules.GetOr(d.filterRules),
      u.trainingSignals.GetOr(d.trainingSignals),
      u.savedSearches.GetOr(d.savedSearches),
      u.preferences.GetOr(d.preferences))
  }

  /** The update is the object spread: the supplied top-level fields replace
      the dataset's, all others stay; updating with nothing changes nothing,
      and two updates in a row are one update with their spread. */
  lemma OverlayIsSpread(d: AppData, u: PartialData, v: PartialData)
    ensures AsObject(Overlay(d, u)) == Spread(AsObject(d), u)
    ensures Overlay(d, NoFields) == d
    ensures Overlay(Overlay(d, u), v) == Overlay(d, Spread(u, v))
  {
  }

  /** The migrated dataset: a legacy blob that parses to an object, merged
      with the defaults; nothing for an empty or unparsable blob. */
  function Migrated(blob: Option<Blob>, prefs: Prefs): (r: Option<AppData>)
    ensures r.Some? <==> blob.Some? && blob.value.Payload?
    ensures r.Some? ==> r.value == WithDefaults(prefs, blob.value.parsed)
  {
    match blob
    case Some(Payload(p)) => Some(WithDefaults(prefs, p))
    case _ => None
  }

  /** The dataset `loadData` ends up with. */
  function LoadedData(openOk: bool, readOk: bool, blob: Option<Blob>, s: Store, prefs: Prefs): AppData {
    if !openOk then Defaults(prefs)
    else match Migrated(blob, prefs)
      case Some(m) => m
      case None =>
        if !readOk then Defaults(prefs)
        else
          var l := Loaded(prefs, s);
          if |l.feeds| > 0 || |l.articles| > 0 then l else Defaults(prefs)
  }

  /** Saving a dataset that has feeds or articles and loading again in a
      fresh session gives the dataset back. */
  lemma ReloadAfterSave(prefs: Prefs, s: Store, d: AppData)
    requires |d.feeds| > 0 || |d.articles| > 0
    requires SaveOutcome(d, {}) == Resolved(true)
    requires "id" !in d.preferences && prefs.Keys <= d.preferences.Keys
    requires Truthy(d.version) && (d.lastSyncedAt == Null || Truthy(d.lastSyncedAt))
    ensures LoadedData(true, true, None, Written(s, d, {}), prefs) == d
  {
    StoreRoundTrip(prefs, s, d);
  }

  /** A store without feeds and articles loads as the defaults, whatever
      folders, tags or preferences it holds. */
  lemma EmptyStoreLoadsDefaults(prefs: Prefs, s: Store)
    requires s.feeds == [] && s.articles == []
    ensures LoadedData(true, true, None, s, prefs) == Defaults(prefs)
  {
  }

  /** A legacy blob takes precedence over whatever the stores hold, and the
      migrated dataset keeps every collection the blob carries. */
  lemma MigrationWins(readOk: bool, p: PartialData, s: Store, prefs: Prefs)
    ensures LoadedData(true, readOk, Some(Payload(p)), s, prefs).feeds == p.feeds.GetOr([])
    ensures LoadedData(true, readOk, Some(Payload(p)), s, prefs).articles == p.articles.GetOr([])
    ensures LoadedData(true, readOk, Some(Payload(p)), s, prefs).preferences.Keys >= prefs.Keys
  {
  }

  /** An exported dataset is accepted by the import and merges back to
      itself. */
  lemma ExportImportRoundTrip(prefs: Prefs, d: AppData)
    requires Truthy(d.version) && prefs.Keys <= d.preferences.Keys
    ensures Importable(AsObject(d))
    ensures WithDefaults(prefs, AsObject(d)) == d
  {
    WithDefaultsOfObject(prefs, d);
  }

  /** The module state of src/database.js. `defaultPrefs` is the preferences
      object of `defaultAppData`, which `{ ...defaultAppData }` shares rather
      than copies; `prefsShared` records that the dataset's preferences are
      that very object, so `setSyncFolder` changes the defaults too.
      `refused` names the stores whose writes fail in this environment. */
  class Database {
    var data: AppData
    var dbOpen: bool
    var initialized: bool
    var store: Store
    var legacyBlob: Option<Blob>
    var defaultPrefs: Prefs
    var prefsShared: bool
    const refused: set<Collection>

    ghost predicate Valid()
      reads this
    {
      prefsShared ==> data.preferences == defaultPrefs
    }

    /** The module as first imported: defaults in memory, no database. */
    constructor (stored: Store, legacy: Option<Blob>, failing: set<Collection>)
      ensures Valid()
      ensures data == Defaults(DefaultPreferences) && defaultPrefs == DefaultPreferences && prefsShared
      ensures !dbOpen && !initialized
      ensures store == stored && legacyBlob == legacy && refused == failing
    {
      data := Defaults(DefaultPreferences);
      dbOpen := false;
      initialized := false;
      store := stored;
      legacyBlob := legacy;
      defaultPrefs := DefaultPreferences;
      prefsShared := true;
      refused := failing;
    }

    /** Whether a save of the current dataset completes. */
    predicate SaveSettles()
      reads this
    {
      !dbOpen || SaveOutcome(data, refused).Resolved?
    }

    /** The state after a `saveData` of `d`: stamped with `now` and written to
        the stores when the database is open, unchanged otherwise. */
    twostate predicate Committed(d: AppData, now: string)
      reads this
    {
      && dbOpen == old(dbOpen) && initialized == old(initialized)
      && legacyBlob == old(legacyBlob) && defaultPrefs == old(defaultPrefs)
      && data == (if dbOpen then d.(lastSyncedAt := Str(now)) else d)
      && store == (if dbOpen then Written(old(store), data, refused) else old(store))
    }

    /** `saveData`: without a database it reports `false` and changes nothing;
        otherwise it stamps `lastSyncedAt` and writes every store, reporting
        `true` even when a store refused the write (`saveToIndexedDB` catches
        that), or never completes. */
    method SaveData(now: string) returns (r: Settled<bool>)
      requires Valid()
      modifies this
      ensures Valid() && prefsShared == old(prefsShared)
      ensures Committed(old(data), now)
      ensures r == (if !dbOpen then Resolved(false) else After(SaveOutcome(data, refused).Resolved?, true))
    {
      if !dbOpen {
        return Resolved(false);
      }
      data := data.(lastSyncedAt := Str(now));
      var outcome := SaveOutcome(data, refused);
      store := Written(store, data, refused);
      r := After(outcome.Resolved?, true);
    }

    /** `updateData`: the spread, then a save; `settled` says whether the
        returned promise completes. */
    method UpdateData(u: PartialData, now: string) returns (settled: bool)
      requires Valid()
      modifies this
      ensures Valid() && prefsShared == (old(prefsShared) && u.preferences.None?)
      ensures Committed(Overlay(old(data), u), now)
      ensures settled == SaveSettles()
    {
      data := Overlay(data, u);
      prefsShared := prefsShared && u.preferences.None?;
      var r := SaveData(now);
      settled := r.Resolved?;
    }

    /** `setSyncFolder`: sets `preferences.syncFolderPath` in place (in the
        defaults too while they are shared), then saves. */
    method SetSyncFolder(path: string, now: string) returns (settled: bool)
      requires Valid()
      modifies this
      ensures Valid() && prefsShared == old(prefsShared)
      ensures data.preferences == old(data.preferences)["syncFolderPath" := Str(path)]
      ensures data == (var d := old(data).(preferences := data.preferences);
                       if dbOpen then d.(lastSyncedAt := Str(now)) else d)
      ensures defaultPrefs == (if prefsShared then data.preferences else old(defaultPrefs))
      ensures store == (if dbOpen then Written(old(store), data, refused) else old(store))
      ensures dbOpen == old(dbOpen) && initialized == old(initialized) && legacyBlob == old(legacyBlob)
      ensures settled == SaveSettles()
    {
      data := data.(preferences := data.preferences["syncFolderPath" := Str(path)]);
      if prefsShared {
        defaultPrefs := data.preferences;
      }
      var r := SaveData(now);
      settled := r.Resolved?;
    }

    /** `exportData` before serialisation. */
    function ExportData(): (r: PartialData)
      reads this
      ensures Importable(r) <==> Truthy(data.version)
    {
      AsObject(data)
    }

    /** `importData`: an object with a truthy `version`, `feeds` and
        `articles` replaces the dataset (merged with the defaults) and is
        saved, resolving `true` whatever the save reports; anything else
        resolves `false` and changes nothing. */
    method ImportData(text: Blob, now: string) returns (r: Settled<bool>)
      requires Valid()
      modifies this
      ensures Valid()
      ensures text.Payload? && Importable(text.parsed) ==>
                && !prefsShared
                && Committed(WithDefaults(old(defaultPrefs), text.parsed), now)
                && r == After(SaveSettles(), true)
      ensures !(text.Payload? && Importable(text.parsed)) ==> r == Resolved(false) && unchanged(this)
    {
      if text.Payload? && Importable(text.parsed) {
        data := WithDefaults(defaultPrefs, text.parsed);
        prefsShared := false;
        var s := SaveData(now);
        r := After(s.Resolved?, true);
      } else {
        r := Resolved(false);
      }
    }

    /** `clearData`: the defaults in memory, written to the stores when the
        database is open (without a stamp), and the legacy blob removed once
        that write completes. */
    method ClearData() returns (settled: bool)
      requires Valid()
      modifies this
      ensures Valid() && prefsShared
      ensures data == Defaults(defaultPrefs) && defaultPrefs == old(defaultPrefs)
      ensures dbOpen == old(dbOpen) && initialized == old(initialized)
      ensures store == (if dbOpen then Written(old(store), data, refused) else old(store))
      ensures settled == SaveSettles()
      ensures legacyBlob == (if settled then None else old(legacyBlob))
    {
      data := Defaults(defaultPrefs);
      prefsShared := true;
      if dbOpen {
        var outcome := SaveOutcome(data, refused);
        store := Written(store, data, refused);
        if outcome.NeverSettles? {
          return false;
        }
      }
      legacyBlob := None;
      settled := true;
    }

    /** The read of `loadFromIndexedDB`: every collection, the preferences
        over the defaults and the `version` and `lastSyncedAt` of the meta
        record, when there is one. */
    method ReadBack() returns (loaded: AppData)
      ensures loaded == Loaded(defaultPrefs, store)
    {
      var meta := DecodeMeta(store.meta);
      loaded := AppData(
        Or(Lookup(meta, "version"), Num(1.0)),
        Or(Lookup(meta, "lastSyncedAt"), Null),
        store.feeds, store.articles, store.folders, store.tags,
        Some(store.notes), Some(store.noteTags),
        store.filterRules, store.trainingSignals, store.savedSearches,
        DecodePreferences(defaultPrefs, store.preferences));
    }

    /** `loadData`. `openOk` and `readOk` say whether opening the database and
        reading its stores succeed. A legacy blob is migrated and written to
        the stores; the blob is removed and the module marked ready only if
        that write completes. Otherwise the stores are read, and used when
        they hold feeds or articles; in every other case (including a failure)
        the defaults are used. */
    method LoadData(openOk: bool, readOk: bool) returns (r: Settled<AppData>)
      requires Valid()
      modifies this
      ensures Valid() && defaultPrefs == old(defaultPrefs)
      ensures data == LoadedData(openOk, readOk, old(legacyBlob), old(store), old(defaultPrefs))
      ensures dbOpen == (old(dbOpen) || openOk)
      ensures var migrating := openOk && Migrated(old(legacyBlob), defaultPrefs).Some?;
              && store == (if migrating then Written(old(store), data, refused) else old(store))
              && r == After(!migrating || SaveOutcome(data, refused).Resolved?, data)
              && initialized == (old(initialized) || r.Resolved?)
              && legacyBlob == (if migrating && r.Resolved? then None else old(legacyBlob))
    {
      if !openOk {
        data := Defaults(defaultPrefs);
        prefsShared := true;
        initialized := true;
        return Resolved(data);
      }
      dbOpen := true;
      var migrated := Migrated(legacyBlob, defaultPrefs);
      if migrated.Some? {
        data := migrated.value;
        prefsShared := false;
        var outcome := SaveOutcome(data, refused);
        store := Written(store, data, refused);
        if outcome.NeverSettles? {
          return NeverSettles;
        }
        legacyBlob := None;
      } else if !readOk {
        data := Defaults(defaultPrefs);
        prefsShared := true;
      } else {
        var loaded := ReadBack();
        if |loaded.feeds| > 0 || |loaded.articles| > 0 {
          data := loaded;
          prefsShared := false;
        } else {
          data := Defaults(defaultPrefs);
          prefsShared := true;
        }
      }
      initialized := true;
      r := Resolved(data);
    }
  }
}
