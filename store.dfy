/**
 * The settings store: the user's location and calculation settings, restored once
 * from browser storage when the provider mounts and written back on every update.
 * Browser storage is a map from keys to stored text; JSON parsing and serialisation
 * are the two functions the store is built with, parsing being allowed to fail.
 */
module Store {
  import opened Wrappers

  /** `calcMethod` is the source's `method` field, renamed because `method` is a Dafny keyword. */
  datatype UserSettings = UserSettings(city: string, country: string, calcMethod: int, school: int)

  /** ISNA's calculation method and the Shafi school, for San Francisco. */
  const DefaultSettings: UserSettings := UserSettings("San Francisco", "United States", 2, 0)

  const StorageKey: string := "ramadan-app-settings"

  /** Some of the four fields; `None` is a field the update leaves out. */
  datatype PartialSettings = PartialSettings(
    city: Option<string>, country: Option<string>, calcMethod: Option<int>, school: Option<int>)

  const NoChange: PartialSettings := PartialSettings(None, None, None, None)

  /** `{ ...prev, ...partial }`: the fields the partial has, and the others from `prev`. */
  function Merge(prev: UserSettings, partial: PartialSettings): (r: UserSettings)
    ensures partial.city.Some? ==> r.city == partial.city.value
    ensures partial.city.None? ==> r.city == prev.city
    ensures partial.country.Some? ==> r.country == partial.country.value
    ensures partial.country.None? ==> r.country == prev.country
    ensures partial.calcMethod.Some? ==> r.calcMethod == partial.calcMethod.value
    ensures partial.calcMethod.None? ==> r.calcMethod == prev.calcMethod
    ensures partial.school.Some? ==> r.school == partial.school.value
    ensures partial.school.None? ==> r.school == prev.school
  {
    var r := prev;
    var r := if partial.city.Some? then r.(city := partial.city.value) else r;
    var r := if partial.country.Some? then r.(country := partial.country.value) else r;
    var r := if partial.calcMethod.Some? then r.(calcMethod := partial.calcMethod.value) else r;
    if partial.school.Some? then r.(school := partial.school.value) else r
  }

  /** Applying the same partial twice gives the settings that applying it once gives. */
  lemma MergeIdempotent(prev: UserSettings, partial: PartialSettings)
    ensures Merge(Merge(prev, partial), partial) == Merge(prev, partial)
  {
  }

  /** A partial with every field present replaces the settings wholesale. */
  lemma MergeComplete(prev: UserSettings, s: UserSettings)
    ensures Merge(prev, PartialSettings(Some(s.city), Some(s.country), Some(s.calcMethod), Some(s.school))) == s
  {
  }

  /** The empty partial changes nothing. */
  lemma MergeNothing(prev: UserSettings)
    ensures Merge(prev, NoChange) == prev
  {
  }

  /** `localStorage.getItem(key)`: the stored text, or `null` when there is none. */
  function GetItem(storage: map<string, string>, key: string): Option<string>
  {
    if key in storage then Some(storage[key]) else None
  }

  /** `if (saved)`: a missing record and an empty string both count as nothing saved. */
  predicate Truthy(saved: Option<string>)
  {
    saved.Some? && saved.value != ""
  }

  /**
   * What a JSON codec guarantees: serialising never gives the empty text, and
   * parsing the text of a settings value gives that value back.
   */
  ghost predicate FaithfulCodec(parse: string -> Option<UserSettings>, stringify: UserSettings -> string)
  {
    forall s :: stringify(s) != "" && parse(stringify(s)) == Some(s)
  }

  class SettingsStore {
    var settings: UserSettings
    var isLoaded: bool
    var isFirstVisit: bool
    /** Browser storage, shared by every store built over it. */
    var storage: map<string, string>
    /** Every partial passed to `UpdateSettings`, oldest first. */
    ghost var updates: seq<PartialSettings>
    const parse: string -> Option<UserSettings>
    const stringify: UserSettings -> string

    /** The provider's initial state: defaults, not loaded, not a first visit. */
    constructor (storage: map<string, string>, parse: string -> Option<UserSettings>,
                 stringify: UserSettings -> string)
      ensures settings == DefaultSettings && !isLoaded && !isFirstVisit
      ensures this.storage == storage && updates == []
      ensures this.parse == parse && this.stringify == stringify
    {
      settings := DefaultSettings;
      isLoaded := false;
      isFirstVisit := false;
      this.storage := storage;
      updates := [];
      this.parse := parse;
      this.stringify := stringify;
    }

    /**
     * The load effect. Nothing saved: a first visit, settings untouched. A record
     * that parses: it becomes the settings. A record that does not: the failure is
     * swallowed and the settings stay. In every case the store is loaded afterwards.
     */
    method Load()
      modifies this
      ensures isLoaded
      ensures storage == old(storage) && updates == old(updates)
      ensures var saved := GetItem(storage, StorageKey);
              && (!Truthy(saved) ==> settings == old(settings) && isFirstVisit)
              && (Truthy(saved) && parse(saved.value).Some? ==>
                    settings == parse(saved.value).value && isFirstVisit == old(isFirstVisit))
              && (Truthy(saved) && parse(saved.value).None? ==>
                    settings == old(settings) && isFirstVisit == old(isFirstVisit))
    {
      var saved := GetItem(storage, StorageKey);
      if Truthy(saved) {
        var parsed := parse(saved.value);
        if parsed.Some? {
          settings := parsed.value;
        }
      } else {
        isFirstVisit := true;
      }
      isLoaded := true;
    }

    /**
     * `updateSettings`: the partial is merged over the current settings, the result
     * is written to storage under the settings key, and the first visit is over.
     */
    method UpdateSettings(partial: PartialSettings)
      modifies this
      ensures settings == Merge(old(settings), partial)
      ensures storage == old(storage)[StorageKey := stringify(settings)]
      ensures !isFirstVisit && isLoaded == old(isLoaded)
      ensures updates == old(updates) + [partial]
    {
      var updated := Merge(settings, partial);
      storage := storage[StorageKey := stringify(updated)];
      settings := updated;
      isFirstVisit := false;
      updates := updates + [partial];
    }
  }

  /**
   * The provider mounting over `storage`: a fresh store that has run its load effect.
   * Without a record it shows the defaults on a first visit; with a parseable one it
   * shows the parsed settings; with an unparseable one it falls back to the defaults.
   */
  method Mount(storage: map<string, string>, parse: string -> Option<UserSettings>,
               stringify: UserSettings -> string) returns (store: SettingsStore)
    ensures fresh(store) && store.isLoaded
    ensures store.storage == storage && store.updates == []
    ensures store.parse == parse && store.stringify == stringify
    ensures var saved := GetItem(storage, StorageKey);
            && (!Truthy(saved) ==> store.settings == DefaultSettings && store.isFirstVisit)
            && (Truthy(saved) && parse(saved.value).Some? ==>
                  store.settings == parse(saved.value).value && !store.isFirstVisit)
            && (Truthy(saved) && parse(saved.value).None? ==>
                  store.settings == DefaultSettings && !store.isFirstVisit)
  {
    store := new SettingsStore(storage, parse, stringify);
    store.Load();
  }

  /**
   * Settings saved through `UpdateSettings` are what a later visit loads: mounting a
   * new store over the storage left behind restores them, and it is no first visit.
   */
  method SaveThenReload(store: SettingsStore, partial: PartialSettings) returns (reloaded: SettingsStore)
    requires FaithfulCodec(store.parse, store.stringify)
    modifies store
    ensures store.settings == Merge(old(store.settings), partial)
    ensures fresh(reloaded) && reloaded.isLoaded && !reloaded.isFirstVisit
    ensures reloaded.settings == store.settings
  {
    store.UpdateSettings(partial);
    reloaded := Mount(store.storage, store.parse, store.stringify);
  }
}
