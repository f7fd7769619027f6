/**
 * The front-end's persistence layer (js/storage.js) over the browser's
 * localStorage, a map from string keys to string values. Readers are
 * functions of the map; writers are methods of the `Storage` object that
 * holds it. `JSON.parse` and `JSON.stringify` are oracles passed in.
 */
module BrowserStorage {
  import opened Wrappers

  const ChecksKey: string := "problemChecks"
  const OshiKey: string := "oshiCounts"
  const LikeKey: string := "likeCounts"
  const FearKey: string := "fearCounts"
  const SortOrderKey: string := "currentSortOrder"
  const UntouchedKey: string := "showUntouchedOnly"
  const CollapsePrefix: string := "majorCatCollapsed-"

  /** The functions the `storage` object defines. */
  const Functions: set<string> := {
    "loadOshiCounts", "saveOshiCounts", "loadLikeCounts", "saveLikeCounts", "loadFearCounts", "saveFearCounts",
    "loadChecks", "saveChecks", "loadSortOrder", "saveSortOrder", "loadShowUntouchedOnly", "saveShowUntouchedOnly",
    "isMajorCatCollapsed", "setMajorCatCollapsed", "resetAll"}

  /** The four keys that `resetAll` removes. */
  const ResetKeys: set<string> := {ChecksKey, OshiKey, LikeKey, FearKey}

  /** `majorCatCollapsed-${largeCat}`. */
  function CollapseKey(largeCat: string): (r: string)
    ensures |r| == |CollapsePrefix| + |largeCat|
    ensures r[..|CollapsePrefix|] == CollapsePrefix && r[|CollapsePrefix|..] == largeCat
  {
    CollapsePrefix + largeCat
  }

  /** `String(value)` for a boolean, as `setItem` stores it. */
  function BoolText(b: bool): string {
    if b then "true" else "false"
  }

  /** `localStorage.getItem(key)`: null when the key is absent. */
  function GetItem(items: map<string, string>, key: string): (r: Option<string>)
    ensures r.Some? <==> key in items
    ensures r.Some? ==> r.value == items[key]
  {
    if key in items then Some(items[key]) else None
  }

  /** `loadJSON`: the default when the key is absent or holds '' (falsy), else the parsed value. */
  function LoadJSON<T>(items: map<string, string>, key: string, default: T, parse: string -> T): (r: T)
    ensures key !in items || items[key] == "" ==> r == default
    ensures key in items && items[key] != "" ==> r == parse(items[key])
  {
    var stored := GetItem(items, key);
    if stored.Some? && stored.value != "" then parse(stored.value) else default
  }

  /** `load`: `getItem(key) ?? defaultValue`, so only an absent key gives the default. */
  function Load(items: map<string, string>, key: string, default: Option<string>): (r: Option<string>)
    ensures key in items ==> r == Some(items[key])
    ensures key !in items ==> r == default
  {
    match GetItem(items, key)
    case Some(v) => Some(v)
    case None => default
  }

  /** `loadSortOrder(defaultValue)`. */
  function LoadSortOrder(items: map<string, string>, default: string): string {
    Load(items, SortOrderKey, Some(default)).value
  }

  /** `loadShowUntouchedOnly`: true exactly when the stored value is 'true'. */
  function LoadShowUntouchedOnly(items: map<string, string>): (r: bool)
    ensures r <==> UntouchedKey in items && items[UntouchedKey] == "true"
  {
    Load(items, UntouchedKey, None) == Some("true")
  }

  /** `isMajorCatCollapsed`: collapsed unless the stored value is exactly 'false'. */
  function IsMajorCatCollapsed(items: map<string, string>, largeCat: string): (r: bool)
    ensures CollapseKey(largeCat) !in items ==> r
    ensures !r <==> CollapseKey(largeCat) in items && items[CollapseKey(largeCat)] == "false"
  {
    Load(items, CollapseKey(largeCat), None) != Some("false")
  }

  /** The browser's localStorage. */
  class Storage {
    var items: map<string, string>

    constructor (initial: map<string, string>)
      ensures items == initial
    {
      items := initial;
    }

    /** `save` / `localStorage.setItem`. */
    method Save(key: string, value: string)
      modifies this
      ensures items == old(items)[key := value]
    {
      items := items[key := value];
    }

    /** `remove` / `localStorage.removeItem`. */
    method Remove(key: string)
      modifies this
      ensures items == old(items) - {key}
    {
      items := items - {key};
    }

    /** `saveJSON`: the key holds the JSON text of the value. */
    method SaveJSON<T>(key: string, value: T, stringify: T -> string)
      modifies this
      ensures items == old(items)[key := stringify(value)]
    {
      Save(key, stringify(value));
    }

    method SaveSortOrder(order: string)
      modifies this
      ensures items == old(items)[SortOrderKey := order]
      ensures forall d :: LoadSortOrder(items, d) == order
    {
      Save(SortOrderKey, order);
    }

    method SaveShowUntouchedOnly(value: bool)
      modifies this
      ensures items == old(items)[UntouchedKey := BoolText(value)]
      ensures LoadShowUntouchedOnly(items) == value
    {
      Save(UntouchedKey, BoolText(value));
    }

    method SetMajorCatCollapsed(largeCat: string, isCollapsed: bool)
      modifies this
      ensures items == old(items)[CollapseKey(largeCat) := BoolText(isCollapsed)]
      ensures IsMajorCatCollapsed(items, largeCat) == isCollapsed
    {
      Save(CollapseKey(largeCat), BoolText(isCollapsed));
    }

    /** `resetAll`: removes the checks and the three reaction-count maps. */
    method ResetAll()
      modifies this
      ensures items == old(items) - ResetKeys
    {
      Remove(ChecksKey);
      Remove(OshiKey);
      Remove(LikeKey);
      Remove(FearKey);
    }
  }

  /** Saving a sort order and loading it back gives it, whatever the default. */
  lemma SortOrderRoundTrip(items: map<string, string>, order: string, default: string)
    ensures LoadSortOrder(items[SortOrderKey := order], default) == order
  {
  }

  /** A stored '' is returned by `load` as '' but read by `loadJSON` as the default. */
  lemma EmptyStoredValue<T>(items: map<string, string>, key: string, default: T, parse: string -> T, fallback: Option<string>)
    requires key in items && items[key] == ""
    ensures Load(items, key, fallback) == Some("")
    ensures LoadJSON(items, key, default, parse) == default
  {
  }

  /** Collapse flags of different large categories are stored under different keys. */
  lemma CollapseKeysDistinct(a: string, b: string)
    requires a != b
    ensures CollapseKey(a) != CollapseKey(b)
  {
    assert CollapseKey(a)[|CollapsePrefix|..] == a;
  }

  /** Setting one category's collapse flag leaves every other category's flag as it was. */
  lemma CollapseIndependent(items: map<string, string>, a: string, b: string, isCollapsed: bool)
    requires a != b
    ensures IsMajorCatCollapsed(items[CollapseKey(a) := BoolText(isCollapsed)], b) == IsMajorCatCollapsed(items, b)
  {
    CollapseKeysDistinct(a, b);
  }

  /**
   * After `resetAll` the four reset keys are gone and every other key
   * (sort order, filter, collapse flags) holds what it held.
   */
  lemma ResetKeepsPreferences(items: map<string, string>, key: string)
    ensures key in ResetKeys ==> key !in items - ResetKeys
    ensures key !in ResetKeys ==> (key in items - ResetKeys <==> key in items)
    ensures key !in ResetKeys && key in items ==> (items - ResetKeys)[key] == items[key]
    ensures SortOrderKey !in ResetKeys && UntouchedKey !in ResetKeys
  {
  }

  /** No collapse key is one of the reset keys, so `resetAll` keeps every collapse flag. */
  lemma ResetKeepsCollapse(items: map<string, string>, largeCat: string)
    ensures IsMajorCatCollapsed(items - ResetKeys, largeCat) == IsMajorCatCollapsed(items, largeCat)
  {
    assert |CollapseKey(largeCat)| >= |CollapsePrefix|;
  }
}
