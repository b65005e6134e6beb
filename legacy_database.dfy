/** The earlier persistence layer kept as src/database-localStorage-backup.js.js:
    the whole dataset serialised under one localStorage key. Its dataset is a
    plain parsed object, so an import can leave top-level fields out. */
module LegacyDatabase {
  import opened Values
  import opened Types
  import Database

  /** The dataset `loadData` builds from the stored text: the merge with the
      defaults for an object, the defaults for empty or unparsable text. */
  function LoadedFrom(blob: Option<Blob>, prefs: Prefs): (r: PartialData)
    ensures r.feeds.Some? && r.articles.Some? && r.preferences.Some?
    ensures r.preferences.value.Keys >= prefs.Keys
  {
    match blob
    case Some(Payload(p)) => AsObject(WithDefaults(prefs, p))
    case _ => AsObject(Defaults(prefs))
  }

  /** Load, save, load: `saveData` stamps `lastSyncedAt` before it stores the
      loaded dataset, and the next load gives back that stamped dataset. */
  lemma LoadSaveLoad(blob: Option<Blob>, prefs: Prefs, now: string)
    ensures var saved := LoadedFrom(blob, prefs).(lastSyncedAt := Str(now));
            LoadedFrom(Some(Payload(saved)), prefs) == saved
  {
    var d := match blob
      case Some(Payload(p)) => WithDefaults(prefs, p)
      case _ => Defaults(prefs);
    assert LoadedFrom(blob, prefs) == AsObject(d);
    var stamped := d.(lastSyncedAt := Str(now));
    assert AsObject(d).(lastSyncedAt := Str(now)) == AsObject(stamped);
    WithDefaultsOfObject(prefs, stamped);
  }

  /** The IndexedDB layer's migration reads the legacy blob exactly as the
      legacy load did. */
  lemma MigrationAgreesWithLegacyLoad(p: PartialData, prefs: Prefs)
    ensures Database.Migrated(Some(Payload(p)), prefs).Some?
    ensures AsObject(Database.Migrated(Some(Payload(p)), prefs).value) == LoadedFrom(Some(Payload(p)), prefs)
  {
  }

  /** An import keeps the payload as given, so a collection it lacks is
      missing until the next load fills it from the defaults. */
  lemma ImportedGapsFilledOnLoad(p: PartialData, prefs: Prefs)
    requires Importable(p) && p.folders.None?
    ensures LoadedFrom(Some(Payload(p)), prefs).folders == Some([])
    ensures LoadedFrom(Some(Payload(p)), prefs).feeds == p.feeds
  {
  }

  /** The module state: the dataset, the stored text, whether the storage
      quota rejects writes, and the shared default preferences (see
      Database.Database). */
  class LegacyDatabase {
    var data: PartialData
    var blob: Option<Blob>
    var defaultPrefs: Prefs
    var prefsShared: bool
    const quotaExceeded: bool

    ghost predicate Valid()
      reads this
    {
      prefsShared ==> data.preferences == Some(defaultPrefs)
    }

    constructor (stored: Option<Blob>, full: bool)
      ensures Valid()
      ensures data == AsObject(Defaults(DefaultPreferences)) && defaultPrefs == DefaultPreferences && prefsShared
      ensures blob == stored && quotaExceeded == full
    {
      data := AsObject(Defaults(DefaultPreferences));
      blob := stored;
      defaultPrefs := DefaultPreferences;
      prefsShared := true;
      quotaExceeded := full;
    }

    /** `saveData`: stamps `lastSyncedAt`, then stores the serialised dataset;
        `false` when the write is rejected (the stamp stays). */
    method SaveData(now: string) returns (ok: bool)
      requires Valid()
      modifies this
      ensures Valid() && prefsShared == old(prefsShared) && defaultPrefs == old(defaultPrefs)
      ensures data == old(data).(lastSyncedAt := Str(now))
      ensures ok == !quotaExceeded
      ensures blob == (if ok then Some(Payload(data)) else old(blob))
    {
      data := data.(lastSyncedAt := Str(now));
      if quotaExceeded {
        return false;
      }
      blob := Some(Payload(data));
      ok := true;
    }

    /** `loadData`. */
    method LoadData() returns (r: PartialData)
      requires Valid()
      modifies this
      ensures Valid() && defaultPrefs == old(defaultPrefs) && blob == old(blob)
      ensures r == data && data == LoadedFrom(blob, defaultPrefs)
      ensures prefsShared == !(blob.Some? && blob.value.Payload?)
    {
      if blob.Some? && blob.value.Payload? {
        data := AsObject(WithDefaults(defaultPrefs, blob.value.parsed));
        prefsShared := false;
      } else {
        data := AsObject(Defaults(defaultPrefs));
        prefsShared := true;
      }
      r := data;
    }

    /** `updateData`: the spread, then a save whose result is dropped. */
    method UpdateData(u: PartialData, now: string)
      requires Valid()
      modifies this
      ensures Valid() && defaultPrefs == old(defaultPrefs)
      ensures data == Spread(old(data), u).(lastSyncedAt := Str(now))
      ensures blob == (if quotaExceeded then old(blob) else Some(Payload(data)))
    {
      data := Spread(data, u);
      prefsShared := prefsShared && u.preferences.None?;
      var _ := SaveData(now);
    }

    /** `setSyncFolder`: rejects (changing nothing) when the dataset has no
        preferences object; otherwise sets the key in place, in the shared
        defaults too, and saves. */
    method SetSyncFolder(path: string, now: string) returns (rejected: bool)
      requires Valid()
      modifies this
      ensures Valid()
      ensures rejected == old(data).preferences.None?
      ensures rejected ==> unchanged(this)
      ensures !rejected ==>
                && data == old(data).(preferences := Some(old(data).preferences.value["syncFolderPath" := Str(path)]),
                                      lastSyncedAt := Str(now))
                && defaultPrefs == (if prefsShared then data.preferences.value else old(defaultPrefs))
                && blob == (if quotaExceeded then old(blob) else Some(Payload(data)))
    {
      if data.preferences.None? {
        return true;
      }
      data := data.(preferences := Some(data.preferences.value["syncFolderPath" := Str(path)]));
      if prefsShared {
        defaultPrefs := data.preferences.value;
      }
      var _ := SaveData(now);
      rejected := false;
    }

    /** `exportData` before serialisation. */
    function ExportData(): (r: PartialData)
      reads this
      ensures Importable(r) <==> Truthy(data.version) && data.feeds.Some? && data.articles.Some?
    {
      data
    }

    /** `importData`: an accepted payload replaces the dataset as it is, not
        merged with the defaults, and is saved. */
    method ImportData(text: Blob, now: string) returns (ok: bool)
      requires Valid()
      modifies this
      ensures Valid()
      ensures ok <==> text.Payload? && Importable(text.parsed)
      ensures ok ==> && data == text.parsed.(lastSyncedAt := Str(now))
                     && blob == (if quotaExceeded then old(blob) else Some(Payload(data)))
                     && defaultPrefs == old(defaultPrefs)
      ensures !ok ==> unchanged(this)
    {
      if text.Payload? && Importable(text.parsed) {
        data := text.parsed;
        prefsShared := false;
        var _ := SaveData(now);
        ok := true;
      } else {
        ok := false;
      }
    }

    /** `clearData`: defaults in memory, stored text removed. */
    method ClearData()
      requires Valid()
      modifies this
      ensures Valid() && prefsShared && defaultPrefs == old(defaultPrefs)
      ensures data == AsObject(Defaults(defaultPrefs)) && blob == None
    {
      data := AsObject(Defaults(defaultPrefs));
      prefsShared := true;
      blob := None;
    }
  }
}
