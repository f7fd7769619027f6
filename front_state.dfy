/**
 * The front-end's shared state (js/state.js): the `state` object, its
 * initialisation from storage, and the one-time migration of check
 * entries stored in the old format (an array of booleans) to arrays of
 * `{checked, timestamp}` slots.
 */
module FrontState {
  import opened Wrappers
  import opened ProblemData
  import BrowserStorage

  /** JavaScript truthiness of a stored check-array element. */
  predicate Truthy(c: Cell) {
    match c
    case Flag(b) => b
    case SlotCell(_) => true
    case Null => false
  }

  /** An entry in the old format: an array whose first element is a boolean. */
  predicate IsLegacy(cells: seq<Cell>) {
    |cells| > 0 && cells[0].Flag?
  }

  /**
   * `checks[id].map(isChecked => ({checked: isChecked, timestamp: isChecked ? now : null}))`.
   * The new array keeps the length; slot i is checked exactly when the old
   * element was truthy, and then carries the migration time.
   */
  function MigrateEntry(cells: seq<Cell>, now: int): (r: seq<Cell>)
    ensures |r| == |cells|
    ensures forall i :: 0 <= i < |r| ==>
              r[i].SlotCell? && (r[i].slot.checked <==> Truthy(cells[i]))
              && r[i].slot.timestamp == (if Truthy(cells[i]) then Some(now) else None)
  {
    seq(|cells|, i requires 0 <= i < |cells| => SlotCell(Slot(Truthy(cells[i]), if Truthy(cells[i]) then Some(now) else None)))
  }

  /** The check map after migration: old-format entries converted, all others as they were. */
  function Migrated(checks: CheckMap, now: int): (r: CheckMap)
    ensures r.Keys == checks.Keys
    ensures forall k :: k in checks && !IsLegacy(checks[k]) ==> r[k] == checks[k]
    ensures forall k :: k in checks && IsLegacy(checks[k]) ==> r[k] == MigrateEntry(checks[k], now)
  {
    map k | k in checks :: if IsLegacy(checks[k]) then MigrateEntry(checks[k], now) else checks[k]
  }

  /** Whether some entry is in the old format. */
  predicate NeedsMigration(checks: CheckMap) {
    LegacyAmong(checks, checks.Keys)
  }

  /** Whether some entry whose key is in `keys` is in the old format. */
  predicate LegacyAmong(checks: CheckMap, keys: set<string>) {
    exists k :: k in keys && k in checks && IsLegacy(checks[k])
  }

  /** Adding one key to the set adds exactly that key's entry to the search. */
  lemma LegacyAmongAdd(checks: CheckMap, keys: set<string>, k: string)
    requires k in checks
    ensures LegacyAmong(checks, keys + {k}) <==> LegacyAmong(checks, keys) || IsLegacy(checks[k])
  {
    if LegacyAmong(checks, keys + {k}) && !IsLegacy(checks[k]) {
      var j :| j in keys + {k} && j in checks && IsLegacy(checks[j]);
      assert j in keys;
    }
  }

  /**
   * What `migrateChecks` has established once the keys outside `pending`
   * are visited: those entries are converted, the others untouched, and
   * the flag records whether a visited entry was in the old format.
   */
  ghost predicate MigrationInv(checks: CheckMap, now: int, migrated: CheckMap, pending: set<string>, needsSave: bool) {
    && pending <= checks.Keys && migrated.Keys == checks.Keys
    && (forall k :: k in pending ==> migrated[k] == checks[k])
    && (forall k :: k in checks && k !in pending ==> migrated[k] == Migrated(checks, now)[k])
    && (needsSave <==> LegacyAmong(checks, checks.Keys - pending))
  }

  /** Visiting one more key (the loop body of `migrateChecks`) keeps `MigrationInv`. */
  lemma MigrationStep(checks: CheckMap, now: int, migrated: CheckMap, pending: set<string>, needsSave: bool, id: string)
    requires MigrationInv(checks, now, migrated, pending, needsSave) && id in pending
    ensures id in migrated
    ensures MigrationInv(checks, now,
              if IsLegacy(migrated[id]) then migrated[id := MigrateEntry(migrated[id], now)] else migrated,
              pending - {id}, needsSave || IsLegacy(migrated[id]))
  {
    assert checks.Keys - (pending - {id}) == (checks.Keys - pending) + {id};
    LegacyAmongAdd(checks, checks.Keys - pending, id);
  }

  /** With nothing pending, the map is fully migrated and the flag says whether migration was needed. */
  lemma MigrationDone(checks: CheckMap, now: int, migrated: CheckMap, needsSave: bool)
    requires MigrationInv(checks, now, migrated, {}, needsSave)
    ensures migrated == Migrated(checks, now)
    ensures needsSave <==> NeedsMigration(checks)
  {
    assert checks.Keys - {} == checks.Keys;
  }

  /**
   * `migrateChecks`: rewrites every old-format entry of the map in place
   * and reports whether any was rewritten. `now` is `Date.now()`.
   */
  method MigrateChecks(checks: CheckMap, now: int) returns (migrated: CheckMap, needsSave: bool)
    ensures migrated == Migrated(checks, now)
    ensures needsSave <==> NeedsMigration(checks)
  {
    migrated := checks;
    needsSave := false;
    var pending := checks.Keys;
    assert checks.Keys - pending == {};
    while pending != {}
      invariant MigrationInv(checks, now, migrated, pending, needsSave)
      decreases |pending|
    {
      var problemId :| problemId in pending;
      MigrationStep(checks, now, migrated, pending, needsSave, problemId);
      if IsLegacy(migrated[problemId]) {
        needsSave := true;
        migrated := migrated[problemId := MigrateEntry(migrated[problemId], now)];
      }
      pending := pending - {problemId};
    }
    MigrationDone(checks, now, migrated, needsSave);
  }

  /** A migrated entry is no longer in the old format (unless it is empty, which is never old-format). */
  lemma MigratedNotLegacy(checks: CheckMap, now: int)
    ensures !NeedsMigration(Migrated(checks, now))
  {
    var m := Migrated(checks, now);
    forall k | k in m
      ensures !IsLegacy(m[k])
    {
      if IsLegacy(checks[k]) {
        assert m[k][0].SlotCell?;
      }
    }
  }

  /**
   * Migration is idempotent: migrating already-migrated data changes
   * nothing and reports that nothing needs saving.
   */
  lemma MigrationIdempotent(checks: CheckMap, now: int, later: int)
    ensures Migrated(Migrated(checks, now), later) == Migrated(checks, now)
    ensures !NeedsMigration(Migrated(checks, now))
  {
    MigratedNotLegacy(checks, now);
    var m := Migrated(checks, now);
    assert forall k :: k in m ==> !IsLegacy(m[k]);
  }

  /** Data with no old-format entry is left exactly as it is. */
  lemma NothingToMigrate(checks: CheckMap, now: int)
    requires !NeedsMigration(checks)
    ensures Migrated(checks, now) == checks
  {
  }

  /** Migration never changes which problems have an entry or how many slots an entry has. */
  lemma MigrationKeepsShape(checks: CheckMap, now: int, k: string)
    requires k in checks
    ensures k in Migrated(checks, now) && |Migrated(checks, now)[k]| == |checks[k]|
  {
  }

  /** The `storage` functions `initState` calls, in call order. */
  const InitCalls: seq<string> := [
    "loadSortOrder", "loadOshiCounts", "loadLikeCounts", "loadFearCounts",
    "loadArchivedProblemIds", "loadFavorites", "loadExamDate", "loadChecks"]

  /** The loaders `initState` calls that the `storage` object is meant to have besides its own. */
  const IntendedLoaders: set<string> := {"loadArchivedProblemIds", "loadFavorites", "loadExamDate"}

  /**
   * The position of the first call to a function the object does not
   * define (calling it throws a TypeError), or None when every call is
   * defined.
   */
  function FirstUndefinedCall(calls: seq<string>, defined: set<string>): (r: Option<nat>)
    ensures r.None? <==> forall k :: 0 <= k < |calls| ==> calls[k] in defined
    ensures r.Some? ==> r.value < |calls| && calls[r.value] !in defined
    ensures r.Some? ==> forall k :: 0 <= k < r.value ==> calls[k] in defined
  {
    if calls == [] then None
    else if calls[0] !in defined then Some(0)
    else
      var rest := FirstUndefinedCall(calls[1..], defined);
      if rest.None? then None else Some(rest.value + 1)
  }

  /**
   * As written, `initState` throws at its fifth call: the four loads before
   * it are defined, `loadArchivedProblemIds` is not.
   */
  lemma InitThrowsAtArchivedIds()
    ensures FirstUndefinedCall(InitCalls, BrowserStorage.Functions) == Some(4)
    ensures InitCalls[4] == "loadArchivedProblemIds"
  {
    var r := FirstUndefinedCall(InitCalls, BrowserStorage.Functions);
    assert "loadArchivedProblemIds" !in BrowserStorage.Functions;
    assert "loadSortOrder" in BrowserStorage.Functions && "loadOshiCounts" in BrowserStorage.Functions;
    assert "loadLikeCounts" in BrowserStorage.Functions && "loadFearCounts" in BrowserStorage.Functions;
    assert r.value != 0 && r.value != 1 && r.value != 2 && r.value != 3;
  }

  /** With the three missing loaders defined, every call of `initState` is defined. */
  lemma InitCallsDefinedWhenIntended()
    ensures FirstUndefinedCall(InitCalls, BrowserStorage.Functions + IntendedLoaders).None?
  {
    var defined := BrowserStorage.Functions + IntendedLoaders;
    assert "loadSortOrder" in defined && "loadOshiCounts" in defined && "loadLikeCounts" in defined;
    assert "loadFearCounts" in defined && "loadArchivedProblemIds" in defined && "loadFavorites" in defined;
    assert "loadExamDate" in defined && "loadChecks" in defined;
    forall k | 0 <= k < |InitCalls|
      ensures InitCalls[k] in defined
    {
      assert k in {0, 1, 2, 3, 4, 5, 6, 7};
    }
  }

  /** The fields of the `state` object that the front-end logic reads and writes. */
  class AppState {
    var problemChecks: CheckMap
    var oshiCounts: Counts
    var likeCounts: Counts
    var fearCounts: Counts
    var archivedProblemIds: seq<string>
    var currentSortOrder: string
    var showUntouchedOnly: bool
    var referenceCounts: map<string, map<int, nat>>

    /** The initial `state` literal. */
    constructor ()
      ensures problemChecks == map[] && oshiCounts == map[] && likeCounts == map[] && fearCounts == map[]
      ensures archivedProblemIds == [] && currentSortOrder == "default" && !showUntouchedOnly
      ensures referenceCounts == map[]
    {
      problemChecks := map[];
      oshiCounts := map[];
      likeCounts := map[];
      fearCounts := map[];
      archivedProblemIds := [];
      currentSortOrder := "default";
      showUntouchedOnly := false;
      referenceCounts := map[];
    }

    /**
     * `initState` as written: the sort order and the three reaction maps
     * are loaded, then the call of `loadArchivedProblemIds`, which the
     * `storage` object does not define, throws a TypeError; the checks are
     * neither loaded nor migrated and storage is not written.
     */
    method InitStateAsWritten(store: BrowserStorage.Storage, parseCounts: string -> Counts) returns (error: string)
      modifies this
      ensures currentSortOrder == BrowserStorage.LoadSortOrder(store.items, "default")
      ensures oshiCounts == BrowserStorage.LoadJSON(store.items, BrowserStorage.OshiKey, map[], parseCounts)
      ensures likeCounts == BrowserStorage.LoadJSON(store.items, BrowserStorage.LikeKey, map[], parseCounts)
      ensures fearCounts == BrowserStorage.LoadJSON(store.items, BrowserStorage.FearKey, map[], parseCounts)
      ensures error == "TypeError: storage.loadArchivedProblemIds is not a function"
      ensures problemChecks == old(problemChecks) && archivedProblemIds == old(archivedProblemIds)
      ensures showUntouchedOnly == old(showUntouchedOnly) && referenceCounts == old(referenceCounts)
    {
      var items := store.items;
      currentSortOrder := BrowserStorage.LoadSortOrder(items, "default");
      oshiCounts := BrowserStorage.LoadJSON(items, BrowserStorage.OshiKey, map[], parseCounts);
      likeCounts := BrowserStorage.LoadJSON(items, BrowserStorage.LikeKey, map[], parseCounts);
      fearCounts := BrowserStorage.LoadJSON(items, BrowserStorage.FearKey, map[], parseCounts);
      error := "TypeError: storage.loadArchivedProblemIds is not a function";
    }

    /**
     * `initState` as intended, with the three missing loaders defined
     * (`InitCallsDefinedWhenIntended`): loads the sort order, the reaction
     * counts and the checks from storage, migrates old-format checks, and
     * writes the checks back only when a migration happened. `archived`
     * stands for the archived-id list; favourites and the exam date are
     * not part of this state.
     */
    method InitState(store: BrowserStorage.Storage, now: int, archived: seq<string>,
                     parseCounts: string -> Counts, parseChecks: string -> CheckMap, stringifyChecks: CheckMap -> string)
      modifies this, store
      ensures currentSortOrder == BrowserStorage.LoadSortOrder(old(store.items), "default")
      ensures oshiCounts == BrowserStorage.LoadJSON(old(store.items), BrowserStorage.OshiKey, map[], parseCounts)
      ensures likeCounts == BrowserStorage.LoadJSON(old(store.items), BrowserStorage.LikeKey, map[], parseCounts)
      ensures fearCounts == BrowserStorage.LoadJSON(old(store.items), BrowserStorage.FearKey, map[], parseCounts)
      ensures archivedProblemIds == archived
      ensures var loaded := BrowserStorage.LoadJSON(old(store.items), BrowserStorage.ChecksKey, map[], parseChecks);
        && problemChecks == Migrated(loaded, now)
        && store.items == if NeedsMigration(loaded) then old(store.items)[BrowserStorage.ChecksKey := stringifyChecks(problemChecks)] else old(store.items)
      ensures showUntouchedOnly == old(showUntouchedOnly) && referenceCounts == old(referenceCounts)
    {
      var items := store.items;
      currentSortOrder := BrowserStorage.LoadSortOrder(items, "default");
      oshiCounts := BrowserStorage.LoadJSON(items, BrowserStorage.OshiKey, map[], parseCounts);
      likeCounts := BrowserStorage.LoadJSON(items, BrowserStorage.LikeKey, map[], parseCounts);
      fearCounts := BrowserStorage.LoadJSON(items, BrowserStorage.FearKey, map[], parseCounts);
      archivedProblemIds := archived;
      var loadedChecks := BrowserStorage.LoadJSON(items, BrowserStorage.ChecksKey, map[], parseChecks);
      var migratedChecks, needsSave := MigrateChecks(loadedChecks, now);
      problemChecks := migratedChecks;
      if needsSave {
        store.SaveJSON(BrowserStorage.ChecksKey, problemChecks, stringifyChecks);
      }
    }
  }
}
