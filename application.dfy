/**
 * The app.js page state: the `localStorage` cells plus the module-level
 * `islandInteractions` and `importantDates` objects, and the operations
 * that change them.
 */
module Application {
  import opened Wrappers
  import opened JsonModel
  import opened Storage
  import opened RecordStore
  import opened Calendar

  datatype ArchiveOutcome = Cancelled | Archived(hasData: bool) | Failed(error: JsError)

  datatype EditOutcome = Rejected | Done | EditFailed(error: JsError)

  /** The result and new cells of a save, as SaveRecord specifies them. */
  predicate SavedAs(r: Result<bool, JsError>, before: map<string, Item>, after: map<string, Item>,
                    cell: string, date: string, rec: Json)
  {
    match SaveRecord(before, cell, date, rec)
    case Ok(items) => r == Ok(true) && after == items
    case Err(e) => r == Err(e) && after == before
  }

  class App {
    const storage: LocalStorage
    var islandInteractions: Json
    var importantDates: Json

    constructor (storage: LocalStorage)
      ensures this.storage == storage
      ensures islandInteractions == Obj(map[]) && importantDates == Obj(map[])
    {
      this.storage := storage;
      islandInteractions := Obj(map[]);
      importantDates := Obj(map[]);
    }

    /** `saveData(key, data)` with today's date key and the current ISO time. */
    method SaveData(key: string, data: map<string, Json>, today: string, nowIso: string)
      returns (r: Result<bool, JsError>)
      modifies storage
      ensures SavedAs(r, old(storage.items), storage.items, key, today, Stamped(data, nowIso))
    {
      r := AppendRecord(key, today, Stamped(data, nowIso));
    }

    /** `saveTempData(key, data)`: the same append on the draft cell `key + '_TEMP'`. */
    method SaveTempData(key: string, data: map<string, Json>, today: string, nowIso: string)
      returns (r: Result<bool, JsError>)
      modifies storage
      ensures SavedAs(r, old(storage.items), storage.items, TempKey(key), today, Stamped(data, nowIso))
    {
      r := AppendRecord(TempKey(key), today, Stamped(data, nowIso));
    }

    method AppendRecord(cell: string, today: string, rec: Json) returns (r: Result<bool, JsError>)
      modifies storage
      ensures SavedAs(r, old(storage.items), storage.items, cell, today, rec)
    {
      var read := ReadDoc(storage.GetItem(cell));
      if read.Err? {
        return Err(read.error);
      }
      var allData := read.value;
      if allData.Obj? {
        var m := allData.fields;
        var day := if today in m && Truthy(m[today]) then m[today] else Arr([]);
        if !day.Arr? {
          return Err(TypeError);
        }
        allData := Obj(m[today := Arr(day.items + [rec])]);
      } else if !allData.Arr? {
        return Err(TypeError);
      }
      storage.SetItem(cell, Doc(allData));
      return Ok(true);
    }

    /**
     * `archiveToday()`: after confirmation, every category's non-empty draft
     * list for today is moved to its final list, then today's island draft
     * replaces the final island entry.
     */
    method ArchiveToday(confirmed: bool, today: string) returns (outcome: ArchiveOutcome)
      modifies storage
      ensures !confirmed ==> outcome == Cancelled && storage.items == old(storage.items)
      ensures confirmed ==>
        var run := ArchiveRun(old(storage.items), StorageKeys, today);
        storage.items == run.items &&
        outcome == (if run.failure.Some? then Failed(run.failure.value) else Archived(run.moved))
    {
      if !confirmed {
        return Cancelled;
      }
      ghost var start := storage.items;
      var hasData := false;
      for i := 0 to |StorageKeys|
        invariant ArchiveLoop(start, StorageKeys[..i], today) == Run(storage.items, hasData, None)
      {
        var key := StorageKeys[i];
        ArchiveLoopNext(start, StorageKeys, i, today);
        var step := ArchiveKeyStep(key, today);
        if step.Err? {
          ArchiveLoopStops(start, StorageKeys, i + 1, today);
          return Failed(step.error);
        }
        hasData := hasData || step.value;
      }
      assert StorageKeys[..|StorageKeys|] == StorageKeys;
      var island := ArchiveIslandStep(today);
      if island.Err? {
        return Failed(island.error);
      }
      hasData := hasData || island.value;
      return Archived(hasData);
    }

    /** One iteration of the `forEach` of `archiveToday`; returns whether drafts moved. */
    method ArchiveKeyStep(key: string, today: string) returns (r: Result<bool, JsError>)
      modifies storage
      ensures var step := ArchiveKey(Lookup(old(storage.items), key), Lookup(old(storage.items), TempKey(key)), today);
        match step
        case Err(e) => r == Err(e) && storage.items == old(storage.items)
        case Ok(mv) => r == Ok(mv.Move?) && storage.items == Apply(old(storage.items), key, mv)
    {
      var tempRead := ReadDoc(storage.GetItem(TempKey(key)));
      if tempRead.Err? {
        return Err(tempRead.error);
      }
      var tempData := tempRead.value;
      if tempData.Null? {
        return Err(TypeError);
      }
      var entry := Member(tempData, today);
      if entry.None? || !HasDrafts(entry.value) {
        return Ok(false);
      }
      var finalRead := ReadDoc(storage.GetItem(key));
      if finalRead.Err? {
        return Err(finalRead.error);
      }
      var finalData := finalRead.value;
      if finalData.Obj? {
        var f := finalData.fields;
        var cur := if today in f && Truthy(f[today]) then f[today] else Arr([]);
        if cur.Str? {
          finalData := Obj(f[today := Str(cur.s + JsText(entry.value))]);
        } else if cur.Arr? {
          finalData := Obj(f[today := Arr(Concat(cur.items, entry.value))]);
        } else {
          return Err(TypeError);
        }
      } else if !finalData.Arr? {
        return Err(TypeError);
      }
      storage.SetItem(key, Doc(finalData));
      storage.SetItem(TempKey(key), Doc(Obj(tempData.fields - {today})));
      return Ok(true);
    }

    /** The island block of `archiveToday`; returns whether an entry moved. */
    method ArchiveIslandStep(today: string) returns (r: Result<bool, JsError>)
      modifies storage
      ensures var step := ArchiveIsland(Lookup(old(storage.items), IslandKey), Lookup(old(storage.items), TempKey(IslandKey)), today);
        match step
        case Err(e) => r == Err(e) && storage.items == old(storage.items)
        case Ok(mv) => r == Ok(mv.Move?) && storage.items == Apply(old(storage.items), IslandKey, mv)
    {
      var tempRead := ReadDoc(storage.GetItem(TempKey(IslandKey)));
      if tempRead.Err? {
        return Err(tempRead.error);
      }
      var islandTemp := tempRead.value;
      if islandTemp.Null? {
        return Err(TypeError);
      }
      var entry := Member(islandTemp, today);
      if entry.None? || !Truthy(entry.value) {
        return Ok(false);
      }
      var finalRead := ReadDoc(storage.GetItem(IslandKey));
      if finalRead.Err? {
        return Err(finalRead.error);
      }
      var finalIsland := finalRead.value;
      if finalIsland.Null? {
        return Err(TypeError);
      } else if finalIsland.Obj? {
        finalIsland := Obj(finalIsland.fields[today := entry.value]);
      }
      storage.SetItem(IslandKey, Doc(finalIsland));
      storage.SetItem(TempKey(IslandKey), Doc(Obj(islandTemp.fields - {today})));
      return Ok(true);
    }

    /**
     * `saveIslandInteraction(resident, interaction, isActive)`: the flag is
     * written into today's island drafts, then mirrored into the in-memory
     * `islandInteractions`.
     */
    method SaveIslandInteraction(resident: string, interaction: string, isActive: bool, today: string)
      returns (r: Result<(), JsError>)
      modifies storage, this
      ensures var path := [today, resident, interaction];
        match SetDraftFlag(old(storage.items), path, isActive)
        case Err(e) =>
          r == Err(e) && storage.items == old(storage.items) && islandInteractions == old(islandInteractions)
        case Ok(items) =>
          storage.items == items &&
          match SetPath(old(islandInteractions), path, Bool(isActive))
          case Ok(mirrored) => r == Ok(()) && islandInteractions == mirrored
          case Err(e) => r == Err(e) && islandInteractions == old(islandInteractions)
    {
      var path := [today, resident, interaction];
      var tempRead := ReadDoc(storage.GetItem(TempKey(IslandKey)));
      if tempRead.Err? {
        return Err(tempRead.error);
      }
      var updated := SetPath(tempRead.value, path, Bool(isActive));
      if updated.Err? {
        return Err(updated.error);
      }
      storage.SetItem(TempKey(IslandKey), Doc(updated.value));
      var mirrored := SetPath(islandInteractions, path, Bool(isActive));
      if mirrored.Err? {
        return Err(mirrored.error);
      }
      islandInteractions := mirrored.value;
      return Ok(());
    }

    /** `loadIslandInteractions()`: parse the drafts when non-empty, else the final map when non-empty. */
    method LoadIslandInteractions() returns (r: Result<(), JsError>)
      modifies this
      ensures match InteractionsSource(storage.items)
        case None => r == Ok(()) && islandInteractions == old(islandInteractions)
        case Some(cell) =>
          match ParseItem(cell)
          case Ok(v) => r == Ok(()) && islandInteractions == v
          case Err(e) => r == Err(e) && islandInteractions == old(islandInteractions)
    {
      var tempData := storage.GetItem(TempKey(IslandKey));
      var source := None;
      if tempData.Some? && ItemTruthy(tempData.value) {
        source := tempData;
      } else {
        var data := storage.GetItem(IslandKey);
        if data.Some? && ItemTruthy(data.value) {
          source := data;
        }
      }
      if source.Some? {
        var parsed := ParseItem(source.value);
        if parsed.Err? {
          return Err(parsed.error);
        }
        islandInteractions := parsed.value;
      }
      return Ok(());
    }

    /** `loadImportantDates()`: parse the stored map when non-empty. */
    method LoadImportantDates() returns (r: Result<(), JsError>)
      modifies this
      ensures var cell := Lookup(storage.items, ImportantKey);
        if cell.Some? && ItemTruthy(cell.value) then
          match ParseItem(cell.value)
          case Ok(v) => r == Ok(()) && importantDates == v
          case Err(e) => r == Err(e) && importantDates == old(importantDates)
        else r == Ok(()) && importantDates == old(importantDates)
    {
      var data := storage.GetItem(ImportantKey);
      if data.Some? && ItemTruthy(data.value) {
        var parsed := ParseItem(data.value);
        if parsed.Err? {
          return Err(parsed.error);
        }
        importantDates := parsed.value;
      }
      return Ok(());
    }

    /**
     * `addImportantDate()` with the form's date, type and label: an empty date
     * or label is rejected; otherwise the entry is stored under the date and
     * the whole map is written back.
     */
    method AddImportantDate(date: string, kind: string, labelText: string, today: string)
      returns (r: EditOutcome)
      modifies storage, this
      ensures date == "" || labelText == "" ==>
        r == Rejected && storage.items == old(storage.items) && importantDates == old(importantDates)
      ensures date != "" && labelText != "" ==>
        match SetPath(old(importantDates), [date], ImportantEntry(kind, labelText, today))
        case Ok(v) => r == Done && importantDates == v && storage.items == old(storage.items)[ImportantKey := Doc(v)]
        case Err(e) => r == EditFailed(e) && importantDates == old(importantDates) && storage.items == old(storage.items)
    {
      if date == "" || labelText == "" {
        return Rejected;
      }
      var updated := SetPath(importantDates, [date], ImportantEntry(kind, labelText, today));
      if updated.Err? {
        return EditFailed(updated.error);
      }
      importantDates := updated.value;
      storage.SetItem(ImportantKey, Doc(importantDates));
      return Done;
    }

    /** `deleteImportantDate(date)`: after confirmation the date's key is deleted and the map written back. */
    method DeleteImportantDate(date: string, confirmed: bool) returns (r: EditOutcome)
      modifies storage, this
      ensures !confirmed ==>
        r == Rejected && storage.items == old(storage.items) && importantDates == old(importantDates)
      ensures confirmed ==>
        match DeleteKey(old(importantDates), date)
        case Ok(v) => r == Done && importantDates == v && storage.items == old(storage.items)[ImportantKey := Doc(v)]
        case Err(e) => r == EditFailed(e) && importantDates == old(importantDates) && storage.items == old(storage.items)
    {
      if !confirmed {
        return Rejected;
      }
      var updated := DeleteKey(importantDates, date);
      if updated.Err? {
        return EditFailed(updated.error);
      }
      importantDates := updated.value;
      storage.SetItem(ImportantKey, Doc(importantDates));
      return Done;
    }

    /**
     * `getDaysWithRecords()`: for every indexed category, its final dates
     * are appended unconditionally, then its draft dates unless already
     * listed for that category.
     */
    method GetDaysWithRecords() returns (r: Result<map<string, seq<string>>, JsError>)
      ensures r == DaysIndex(storage.items, StorageKeys)
    {
      StorageKeysWellFormed();
      r := IndexDays(StorageKeys);
    }

    /** The loop of `getDaysWithRecords` over the categories `keys`. */
    method IndexDays(keys: seq<string>) returns (r: Result<map<string, seq<string>>, JsError>)
      requires Distinct(keys)
      ensures r == DaysIndex(storage.items, keys)
    {
      var days: map<string, seq<string>> := map[];
      for i := 0 to |keys|
        invariant DaysIndex(storage.items, keys[..i]) == Ok(days)
        invariant forall d | d in days :: forall x | x in days[d] :: x in keys[..i]
      {
        var key := keys[i];
        assert keys[..i + 1][..i] == keys[..i];
        assert keys[..i + 1] == keys[..i] + [key];
        if key == IslandKey || key == ImportantKey {
          continue;
        }
        assert key !in keys[..i];
        var next := IndexCategoryInto(days, key);
        if next.Err? {
          DaysIndexStops(storage.items, keys, i + 1);
          return next;
        }
        days := next.value;
      }
      assert keys[..|keys|] == keys;
      return Ok(days);
    }

    /** The body of the `forEach` of `getDaysWithRecords` for one indexed category. */
    method IndexCategoryInto(days: map<string, seq<string>>, key: string)
      returns (r: Result<map<string, seq<string>>, JsError>)
      requires forall d | d in days :: key !in days[d]
      ensures r == IndexCategory(storage.items, days, key)
    {
      var finalRead := DateKeysOf(storage.GetItem(key));
      if finalRead.Err? {
        return Err(finalRead.error);
      }
      AddKeyNone(days, key);
      var index := ListUnder(days, days, key, {}, finalRead.value, false);
      var tempRead := DateKeysOf(storage.GetItem(TempKey(key)));
      if tempRead.Err? {
        return Err(tempRead.error);
      }
      index := ListUnder(index, days, key, finalRead.value, tempRead.value, true);
      return Ok(index);
    }
  }

  /**
   * Starting from `start == AddKey(days, key, listed)`, appends `key` to every date of
   * `dates`; with `checkListed` it skips dates already listing `key`
   * (`includes`), without it it appends unconditionally, which is the same
   * when `dates` and `listed` do not overlap.
   */
  method ListUnder(start: map<string, seq<string>>, ghost days: map<string, seq<string>>, key: string,
                   ghost listed: set<string>, dates: set<string>, checkListed: bool)
    returns (index: map<string, seq<string>>)
    requires start == AddKey(days, key, listed)
    requires forall d | d in days :: key !in days[d]
    requires checkListed || listed !! dates
    ensures index == AddKey(days, key, listed + dates)
  {
    index := start;
    var todo := dates;
    while todo != {}
      invariant todo <= dates
      invariant index == AddKey(days, key, listed + (dates - todo))
    {
      var date :| date in todo;
      ghost var done := listed + (dates - todo);
      assert listed + (dates - (todo - {date})) == done + {date};
      index := ListDate(index, days, key, done, date, checkListed);
      todo := todo - {date};
    }
    assert listed + (dates - todo) == listed + dates;
  }

  /**
   * One date of a `forEach` in `getDaysWithRecords`: an absent list is
   * created, then `key` is pushed unless `checkListed` finds it there.
   */
  method ListDate(index: map<string, seq<string>>, ghost days: map<string, seq<string>>, key: string,
                  ghost done: set<string>, date: string, checkListed: bool)
    returns (next: map<string, seq<string>>)
    requires index == AddKey(days, key, done)
    requires forall d | d in days :: key !in days[d]
    requires checkListed || date !in done
    ensures next == AddKey(days, key, done + {date})
  {
    AddKeyListed(days, key, done, date);
    next := index;
    if date !in next {
      next := next[date := []];
    }
    if !checkListed || key !in next[date] {
      AddKeyStep(days, key, done, date);
      next := next[date := next[date] + [key]];
    } else {
      assert done + {date} == done;
    }
  }
}
