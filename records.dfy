/**
 * The record store of app.js: category keys, draft (`_TEMP`) keys, appending
 * a record and the `archiveToday` move from drafts to final records.
 */
module RecordStore {
  import opened Wrappers
  import opened JsonModel
  import opened Storage

  /** `Object.values(STORAGE_KEYS)`, in declaration order. */
  const StorageKeys: seq<string> := [
    "sleepData", "breakfastData", "supplementData", "workData", "houseworkData",
    "lunchData", "napData", "dinnerData", "vitaminData", "studyData",
    "exerciseData", "gameData", "entertainmentData", "magnesiumData",
    "bodycareData", "financeData", "islandInteractions", "importantDates"
  ]

  const IslandKey: string := "islandInteractions"
  const ImportantKey: string := "importantDates"

  /** The draft cell of a category: `key + '_TEMP'`. */
  function TempKey(key: string): string {
    key + "_TEMP"
  }

  lemma TempKeyInjective(a: string, b: string)
    ensures TempKey(a) == TempKey(b) ==> a == b
  {
    if TempKey(a) == TempKey(b) {
      assert a == TempKey(a)[..|a|];
      assert b == TempKey(b)[..|b|];
    }
  }

  predicate Distinct(keys: seq<string>) {
    forall i, j | 0 <= i < j < |keys| :: keys[i] != keys[j]
  }

  /** No key of the list is the draft cell of a key of the list. */
  predicate NoTempClash(keys: seq<string>) {
    forall i, j | 0 <= i < |keys| && 0 <= j < |keys| :: keys[i] != TempKey(keys[j])
  }

  lemma StorageKeysWellFormed()
    ensures Distinct(StorageKeys) && NoTempClash(StorageKeys)
    ensures IslandKey in StorageKeys && ImportantKey in StorageKeys
  {
    StorageKeysDistinct();
    StorageKeysNoTempClash();
    assert StorageKeys[16] == IslandKey && StorageKeys[17] == ImportantKey;
  }

  lemma StorageKeysDistinct()
    ensures Distinct(StorageKeys)
  {
  }

  lemma StorageKeysNoTempClash()
    ensures NoTempClash(StorageKeys)
  {
    forall i, j | 0 <= i < |StorageKeys| && 0 <= j < |StorageKeys|
      ensures StorageKeys[i] != TempKey(StorageKeys[j])
    {
      var t := TempKey(StorageKeys[j]);
      assert t[|t| - 1] == 'P';
    }
  }

  // ---------------------------------------------------------------- saving

  /** `{ ...data, timestamp: new Date().toISOString() }` */
  function Stamped(data: map<string, Json>, nowIso: string): Json {
    Obj(data["timestamp" := Str(nowIso)])
  }

  /**
   * `allData` after `if (!allData[d]) allData[d] = []; allData[d].push(rec)`.
   * A truthy non-list entry has no `push`; a list document keeps the new
   * property only in memory.
   */
  function AppendToDay(doc: Json, date: string, rec: Json): Result<Json, JsError> {
    match doc
    case Obj(m) =>
      var day := if date in m && Truthy(m[date]) then m[date] else Arr([]);
      if day.Arr? then Ok(Obj(m[date := Arr(day.items + [rec])])) else Err(TypeError)
    case Arr(_) => Ok(doc)
    case _ => Err(TypeError)
  }

  /** The cells after `saveData` (cell `key`) or `saveTempData` (cell `key + '_TEMP'`). */
  function SaveRecord(items: map<string, Item>, cell: string, date: string, rec: Json)
    : Result<map<string, Item>, JsError>
  {
    var doc :- ReadDoc(Lookup(items, cell));
    var doc' :- AppendToDay(doc, date, rec);
    Ok(items[cell := Doc(doc')])
  }

  /** The list stored at `date`, or `[]` when there is none. */
  function DayList(doc: Json, date: string): seq<Json> {
    match Member(doc, date)
    case Some(Arr(l)) => l
    case _ => []
  }

  /** A date map whose entry at `date` is absent, falsy or a list. */
  predicate Appendable(doc: Json, date: string) {
    doc.Obj? && (date !in doc.fields || !Truthy(doc.fields[date]) || doc.fields[date].Arr?)
  }

  /**
   * Saving appends exactly one record at the end of the day's list
   * (starting from `[]`), and no other date and no other cell changes.
   */
  lemma SaveRecordAppendsOne(items: map<string, Item>, cell: string, date: string, rec: Json)
    requires ReadDoc(Lookup(items, cell)).Ok? && Appendable(ReadDoc(Lookup(items, cell)).value, date)
    ensures var r := SaveRecord(items, cell, date, rec);
      var before := ReadDoc(Lookup(items, cell)).value;
      r.Ok? && cell in r.value && r.value[cell].Doc? &&
      var after := r.value[cell].value;
      after.Obj? &&
      after.fields.Keys == before.fields.Keys + {date} &&
      DayList(after, date) == DayList(before, date) + [rec] &&
      (forall d | d in before.fields && d != date :: after.fields[d] == before.fields[d]) &&
      (forall k | k != cell :: Lookup(r.value, k) == Lookup(items, k))
  {
  }

  /** A truthy entry that is not a list makes saving throw and leaves the cells as they were. */
  lemma SaveRecordRejectsNonList(items: map<string, Item>, cell: string, date: string, rec: Json)
    requires ReadDoc(Lookup(items, cell)).Ok?
    requires var doc := ReadDoc(Lookup(items, cell)).value;
      doc.Obj? && date in doc.fields && Truthy(doc.fields[date]) && !doc.fields[date].Arr?
    ensures SaveRecord(items, cell, date, rec) == Err(TypeError)
  {
  }

  // ------------------------------------------------------------- archiving

  /** `v > 0` for the `length` property of an object entry. */
  predicate PositiveLength(v: Json) {
    match v
    case Num(n) => n > 0
    case Bool(b) => b
    case _ => false
  }

  /** `entry && entry.length > 0` */
  predicate HasDrafts(entry: Json) {
    match entry
    case Arr(l) => |l| > 0
    case Str(s) => |s| > 0
    case Obj(m) => "length" in m && PositiveLength(m["length"])
    case _ => false
  }

  /** `list.concat(arg)`: a list argument is spread, any other value is appended whole. */
  function Concat(list: seq<Json>, arg: Json): seq<Json> {
    if arg.Arr? then list + arg.items else list + [arg]
  }

  /** What one step of the archive loop writes for a category. */
  datatype KeyMove = Skip | Move(final: Json, temp: Json)

  /**
   * One iteration of the `forEach` in `archiveToday` for a category, as a
   * function of its final and draft cells: when today's draft entry is
   * non-empty, the final entry becomes the old one (or `[]`) concatenated
   * with it and today's draft entry is deleted.
   */
  function ArchiveKey(finalCell: Option<Item>, tempCell: Option<Item>, date: string)
    : Result<KeyMove, JsError>
  {
    var temp :- ReadDoc(tempCell);
    if temp.Null? then Err(TypeError)
    else match Member(temp, date)
      case None => Ok(Skip)
      case Some(entry) =>
        if !HasDrafts(entry) then Ok(Skip)
        else
          var final :- ReadDoc(finalCell);
          var final' :- (match final
            case Obj(f) =>
              var cur := if date in f && Truthy(f[date]) then f[date] else Arr([]);
              if cur.Arr? then Ok(Obj(f[date := Arr(Concat(cur.items, entry))]))
              else if cur.Str? then Ok(Obj(f[date := Str(cur.s + JsText(entry))]))
              else Err(TypeError)
            case Arr(_) => Ok(final)
            case _ => Err(TypeError));
          Ok(Move(final', Obj(temp.fields - {date})))
  }

  /**
   * The island step after the loop: a truthy draft entry for today replaces
   * the final entry (no concatenation) and is deleted from the drafts.
   */
  function ArchiveIsland(finalCell: Option<Item>, tempCell: Option<Item>, date: string)
    : Result<KeyMove, JsError>
  {
    var temp :- ReadDoc(tempCell);
    if temp.Null? then Err(TypeError)
    else match Member(temp, date)
      case None => Ok(Skip)
      case Some(entry) =>
        if !Truthy(entry) then Ok(Skip)
        else
          var final :- ReadDoc(finalCell);
          var final' :- SetPath(final, [date], entry);
          Ok(Move(final', Obj(temp.fields - {date})))
  }

  /** The two `setItem` calls of a move. */
  function Apply(items: map<string, Item>, key: string, mv: KeyMove): map<string, Item> {
    match mv
    case Skip => items
    case Move(f, t) => items[key := Doc(f)][TempKey(key) := Doc(t)]
  }

  /** The cells, whether anything moved (`hasData`), and the error that stopped the run. */
  datatype Run = Run(items: map<string, Item>, moved: bool, failure: Option<JsError>)

  /** The archive loop over `keys`: an error stops it, keeping the writes before it. */
  function ArchiveLoop(items: map<string, Item>, keys: seq<string>, date: string): Run
    decreases |keys|
  {
    if keys == [] then Run(items, false, None)
    else
      var prev := ArchiveLoop(items, keys[..|keys| - 1], date);
      var k := keys[|keys| - 1];
      if prev.failure.Some? then prev
      else match ArchiveKey(Lookup(prev.items, k), Lookup(prev.items, TempKey(k)), date)
        case Err(e) => Run(prev.items, prev.moved, Some(e))
        case Ok(Skip) => prev
        case Ok(mv) => Run(Apply(prev.items, k, mv), true, None)
  }

  /**
   * The whole of a confirmed `archiveToday` over the categories `keys`
   * (`StorageKeys` in the application): the loop, then the island step.
   */
  function ArchiveRun(items: map<string, Item>, keys: seq<string>, date: string): Run {
    var loop := ArchiveLoop(items, keys, date);
    if loop.failure.Some? then loop
    else match ArchiveIsland(Lookup(loop.items, IslandKey), Lookup(loop.items, TempKey(IslandKey)), date)
      case Err(e) => Run(loop.items, loop.moved, Some(e))
      case Ok(Skip) => loop
      case Ok(mv) => Run(Apply(loop.items, IslandKey, mv), true, None)
  }

  /** The loop step of category `k` on the original cells. */
  function Outcome(items: map<string, Item>, k: string, date: string): Result<KeyMove, JsError> {
    ArchiveKey(Lookup(items, k), Lookup(items, TempKey(k)), date)
  }

  predicate Moves(items: map<string, Item>, k: string, date: string) {
    Outcome(items, k, date).Ok? && Outcome(items, k, date).value.Move?
  }

  /** The cells of category `k` in `after` are what its own step writes on `items`. */
  predicate SlotsAsStep(after: map<string, Item>, items: map<string, Item>, k: string, date: string) {
    Outcome(items, k, date).Ok? &&
    var expected := Apply(items, k, Outcome(items, k, date).value);
    Lookup(after, k) == Lookup(expected, k) &&
    Lookup(after, TempKey(k)) == Lookup(expected, TempKey(k))
  }

  predicate Untouched(keys: seq<string>, x: string) {
    x !in keys && forall k | k in keys :: x != TempKey(k)
  }

  /**
   * What a run of the loop over `keys` did, stated against the original
   * cells: it failed iff some category's step fails, no cell outside the
   * categories' cells was written, and when it completed each category's two
   * cells hold what its own step writes and `moved` says whether some step
   * moved drafts.
   */
  ghost predicate LoopEffect(items: map<string, Item>, keys: seq<string>, run: Run, date: string) {
    (run.failure.None? <==> forall k | k in keys :: Outcome(items, k, date).Ok?) &&
    (forall x | Untouched(keys, x) :: Lookup(run.items, x) == Lookup(items, x)) &&
    (run.failure.None? ==>
      (forall k | k in keys :: SlotsAsStep(run.items, items, k, date)) &&
      (run.moved <==> exists k | k in keys :: Moves(items, k, date)))
  }

  /**
   * Over distinct categories whose cells do not overlap, the loop acts on
   * every category as its own step on the original cells.
   */
  lemma {:induction false} ArchiveLoopEffect(items: map<string, Item>, keys: seq<string>, date: string)
    requires Distinct(keys) && NoTempClash(keys)
    ensures LoopEffect(items, keys, ArchiveLoop(items, keys, date), date)
    decreases |keys|
  {
    if keys != [] {
      var prefix := keys[..|keys| - 1];
      var last := keys[|keys| - 1];
      assert keys == prefix + [last];
      ArchiveLoopEffect(items, prefix, date);
      ArchiveLoopStep(items, prefix, last, date);
    }
  }

  /** One more category keeps the loop's effect as stated. */
  lemma ArchiveLoopStep(items: map<string, Item>, prefix: seq<string>, last: string, date: string)
    requires Distinct(prefix + [last]) && NoTempClash(prefix + [last])
    requires LoopEffect(items, prefix, ArchiveLoop(items, prefix, date), date)
    ensures LoopEffect(items, prefix + [last], ArchiveLoop(items, prefix + [last], date), date)
  {
    var keys := prefix + [last];
    assert keys[..|keys| - 1] == prefix && keys[|keys| - 1] == last;
    var prev := ArchiveLoop(items, prefix, date);
    var run := ArchiveLoop(items, keys, date);
    FreshCategory(prefix, last);
    if prev.failure.Some? {
      assert run == prev;
      FailedStep(items, prefix, last, date, prev);
    } else {
      assert Outcome(prev.items, last, date) == Outcome(items, last, date);
      match Outcome(items, last, date)
      case Err(e) =>
        assert run == Run(prev.items, prev.moved, Some(e));
        FailedStep(items, prefix, last, date, run);
      case Ok(Skip) =>
        assert run == prev;
        SkipStep(items, prefix, last, date, prev);
      case Ok(Move(f, t)) =>
        assert run == Run(Apply(prev.items, last, Move(f, t)), true, None);
        MoveStep(items, prefix, last, date, prev, f, t);
    }
  }

  /** A run that stopped, before or at the new category, keeps the loop's effect as stated. */
  lemma FailedStep(items: map<string, Item>, prefix: seq<string>, last: string, date: string, run: Run)
    requires run.failure.Some?
    requires (forall k | k in prefix :: Outcome(items, k, date).Ok?) ==> Outcome(items, last, date).Err?
    requires forall x | Untouched(prefix, x) :: Lookup(run.items, x) == Lookup(items, x)
    requires forall x | Untouched(prefix + [last], x) :: Untouched(prefix, x)
    ensures LoopEffect(items, prefix + [last], run, date)
  {
    var keys := prefix + [last];
    assert last in keys;
    if forall k | k in prefix :: Outcome(items, k, date).Ok? {
    } else {
      var k :| k in prefix && !Outcome(items, k, date).Ok?;
      assert k in keys;
    }
  }

  /** A step that skips the new category keeps the loop's effect as stated. */
  lemma SkipStep(items: map<string, Item>, prefix: seq<string>, last: string, date: string, prev: Run)
    requires prev.failure.None? && LoopEffect(items, prefix, prev, date)
    requires Outcome(items, last, date) == Ok(Skip)
    requires Untouched(prefix, last) && Untouched(prefix, TempKey(last))
    requires forall x | Untouched(prefix + [last], x) :: Untouched(prefix, x)
    ensures LoopEffect(items, prefix + [last], prev, date)
  {
    var keys := prefix + [last];
    assert Lookup(prev.items, last) == Lookup(items, last);
    assert Lookup(prev.items, TempKey(last)) == Lookup(items, TempKey(last));
    assert SlotsAsStep(prev.items, items, last, date);
    assert !Moves(items, last, date);
    assert (exists k | k in keys :: Moves(items, k, date)) <==> (exists k | k in prefix :: Moves(items, k, date));
  }

  /** The cells of a category not yet visited are not those of any visited one. */
  lemma FreshCategory(prefix: seq<string>, last: string)
    requires Distinct(prefix + [last]) && NoTempClash(prefix + [last])
    ensures Untouched(prefix, last) && Untouched(prefix, TempKey(last))
    ensures forall k | k in prefix :: last != TempKey(k) && TempKey(last) != TempKey(k)
    ensures forall x | Untouched(prefix + [last], x) :: Untouched(prefix, x)
  {
    var keys := prefix + [last];
    forall k | k in prefix
      ensures last != k && last != TempKey(k) && TempKey(last) != k && TempKey(last) != TempKey(k)
    {
      var i :| 0 <= i < |prefix| && prefix[i] == k;
      assert keys[i] == k && keys[|prefix|] == last;
      TempKeyInjective(last, k);
    }
  }

  /** A step that moves drafts of a new category keeps the loop's effect as stated. */
  lemma MoveStep(items: map<string, Item>, prefix: seq<string>, last: string, date: string,
                 prev: Run, f: Json, t: Json)
    requires prev.failure.None? && LoopEffect(items, prefix, prev, date)
    requires Outcome(items, last, date) == Ok(Move(f, t))
    requires Untouched(prefix, last) && Untouched(prefix, TempKey(last))
    requires forall k | k in prefix :: last != TempKey(k) && TempKey(last) != TempKey(k)
    ensures LoopEffect(items, prefix + [last], Run(Apply(prev.items, last, Move(f, t)), true, None), date)
  {
    var keys := prefix + [last];
    var after := Apply(prev.items, last, Move(f, t));
    forall k | k in prefix
      ensures SlotsAsStep(after, items, k, date)
    {
      OtherMoveKeepsSlots(prev.items, items, k, last, Move(f, t), date);
    }
    assert SlotsAsStep(after, items, last, date);
    assert last in keys && Moves(items, last, date);
    forall x | Untouched(keys, x)
      ensures Lookup(after, x) == Lookup(items, x)
    {
      assert x != last && x != TempKey(last) && Untouched(prefix, x);
    }
  }

  /** A move of another category, whose cells are not those of `k`, keeps the cells of `k`. */
  lemma OtherMoveKeepsSlots(cells: map<string, Item>, items: map<string, Item>, k: string, key: string,
                            mv: KeyMove, date: string)
    requires SlotsAsStep(cells, items, k, date)
    requires k != key && k != TempKey(key) && TempKey(k) != key && TempKey(k) != TempKey(key)
    ensures SlotsAsStep(Apply(cells, key, mv), items, k, date)
  {
    var after := Apply(cells, key, mv);
    assert Lookup(after, k) == Lookup(cells, k);
    assert Lookup(after, TempKey(k)) == Lookup(cells, TempKey(k));
  }

  /** A loop whose every step skips writes nothing and reports no data. */
  lemma {:induction false} ArchiveLoopAllSkip(items: map<string, Item>, keys: seq<string>, date: string)
    requires forall k | k in keys :: Outcome(items, k, date) == Ok(Skip)
    ensures ArchiveLoop(items, keys, date) == Run(items, false, None)
    decreases |keys|
  {
    if keys != [] {
      ArchiveLoopAllSkip(items, keys[..|keys| - 1], date);
      assert keys[|keys| - 1] in keys;
    }
  }

  /**
   * A non-empty draft list for today is appended, in order, to the final
   * list of today (or to `[]`), and only today's draft entry is removed;
   * every other date of both maps keeps its value.
   */
  lemma ArchiveKeyConcatenates(finalCell: Option<Item>, tempCell: Option<Item>, date: string)
    requires ReadDoc(tempCell).Ok? && ReadDoc(finalCell).Ok?
    requires var temp := ReadDoc(tempCell).value;
      temp.Obj? && date in temp.fields && temp.fields[date].Arr? && |temp.fields[date].items| > 0
    requires Appendable(ReadDoc(finalCell).value, date)
    ensures var temp := ReadDoc(tempCell).value;
      var final := ReadDoc(finalCell).value;
      var r := ArchiveKey(finalCell, tempCell, date);
      r.Ok? && r.value.Move? && r.value.final.Obj? && r.value.temp.Obj? &&
      DayList(r.value.final, date) == DayList(final, date) + temp.fields[date].items &&
      r.value.final.fields.Keys == final.fields.Keys + {date} &&
      (forall d | d in final.fields && d != date :: r.value.final.fields[d] == final.fields[d]) &&
      r.value.temp.fields == temp.fields - {date}
  {
  }

  /**
   * A non-empty text as today's final entry is extended by
   * `String.prototype.concat`: the drafts are appended as text, and
   * today's draft entry is still deleted.
   */
  lemma ArchiveKeyConcatenatesText(finalCell: Option<Item>, tempCell: Option<Item>, date: string)
    requires ReadDoc(tempCell).Ok? && ReadDoc(finalCell).Ok?
    requires var temp := ReadDoc(tempCell).value;
      temp.Obj? && date in temp.fields && HasDrafts(temp.fields[date])
    requires var final := ReadDoc(finalCell).value;
      final.Obj? && date in final.fields && final.fields[date].Str? && final.fields[date].s != ""
    ensures var temp := ReadDoc(tempCell).value;
      var final := ReadDoc(finalCell).value;
      ArchiveKey(finalCell, tempCell, date) ==
        Ok(Move(Obj(final.fields[date := Str(final.fields[date].s + JsText(temp.fields[date]))]),
                Obj(temp.fields - {date})))
  {
  }

  /** An absent, falsy or empty draft entry for today is skipped: nothing is written for the category. */
  lemma ArchiveKeySkips(finalCell: Option<Item>, tempCell: Option<Item>, date: string)
    requires ReadDoc(tempCell).Ok? && ReadDoc(tempCell).value.Obj?
    requires var temp := ReadDoc(tempCell).value;
      date !in temp.fields || !Truthy(temp.fields[date]) || temp.fields[date] == Arr([])
    ensures ArchiveKey(finalCell, tempCell, date) == Ok(Skip)
  {
  }

  /** The island entry of today replaces the final one whatever it held, and leaves the drafts. */
  lemma ArchiveIslandReplaces(finalCell: Option<Item>, tempCell: Option<Item>, date: string)
    requires ReadDoc(tempCell).Ok? && ReadDoc(finalCell).Ok?
    requires var temp := ReadDoc(tempCell).value;
      temp.Obj? && date in temp.fields && Truthy(temp.fields[date])
    requires ReadDoc(finalCell).value.Obj?
    ensures var temp := ReadDoc(tempCell).value;
      var final := ReadDoc(finalCell).value;
      ArchiveIsland(finalCell, tempCell, date) ==
        Ok(Move(Obj(final.fields[date := temp.fields[date]]), Obj(temp.fields - {date})))
  {
  }

  /** Today's draft entry of a draft cell is present and truthy. */
  predicate EntryPresent(tempCell: Option<Item>, date: string) {
    var temp := ReadDoc(tempCell);
    temp.Ok? && Member(temp.value, date).Some? && Truthy(Member(temp.value, date).value)
  }

  predicate IslandEntryPresent(items: map<string, Item>, date: string) {
    EntryPresent(Lookup(items, TempKey(IslandKey)), date)
  }

  /** The island step moves exactly when today's island draft entry is present. */
  lemma IslandMoveIff(finalCell: Option<Item>, tempCell: Option<Item>, date: string)
    requires ArchiveIsland(finalCell, tempCell, date).Ok?
    ensures ArchiveIsland(finalCell, tempCell, date).value.Move? <==> EntryPresent(tempCell, date)
  {
  }

  /** A draft map written by a move has no entry for today, so both kinds of step skip it. */
  lemma MovedDraftsSkip(temp: Json, date: string, anyCell: Option<Item>)
    requires temp.Obj? && date !in temp.fields
    ensures ArchiveKey(anyCell, Some(Doc(temp)), date) == Ok(Skip)
    ensures ArchiveIsland(anyCell, Some(Doc(temp)), date) == Ok(Skip)
  {
  }

  /**
   * `hasData` of a run that completes is true iff some category moved
   * drafts or today's island draft entry was present.
   */
  lemma {:induction false} ArchiveReportsData(items: map<string, Item>, keys: seq<string>, date: string)
    requires Distinct(keys) && NoTempClash(keys) && IslandKey in keys
    requires ArchiveRun(items, keys, date).failure.None?
    ensures ArchiveRun(items, keys, date).moved <==>
      (exists k | k in keys :: Moves(items, k, date)) || IslandEntryPresent(items, date)
  {
    ArchiveLoopEffect(items, keys, date);
    var loop := ArchiveLoop(items, keys, date);
    var island := ArchiveIsland(Lookup(loop.items, IslandKey), Lookup(loop.items, TempKey(IslandKey)), date);
    assert island.Ok?;
    IslandMoveIff(Lookup(loop.items, IslandKey), Lookup(loop.items, TempKey(IslandKey)), date);
    if !loop.moved {
      assert SlotsAsStep(loop.items, items, IslandKey, date);
      assert !Moves(items, IslandKey, date);
      assert Lookup(loop.items, TempKey(IslandKey)) == Lookup(items, TempKey(IslandKey));
    }
  }

  /** After a loop that completes, every category's step skips. */
  lemma {:induction false} LoopLeavesNoDrafts(items: map<string, Item>, keys: seq<string>, date: string)
    requires Distinct(keys) && NoTempClash(keys)
    requires ArchiveLoop(items, keys, date).failure.None?
    ensures forall k | k in keys :: Outcome(ArchiveLoop(items, keys, date).items, k, date) == Ok(Skip)
  {
    ArchiveLoopEffect(items, keys, date);
    var loop := ArchiveLoop(items, keys, date);
    forall k | k in keys
      ensures Outcome(loop.items, k, date) == Ok(Skip)
    {
      StepLeavesNoDrafts(loop.items, items, k, date);
    }
  }

  /** Cells holding what a category's own step wrote make that step skip. */
  lemma StepLeavesNoDrafts(after: map<string, Item>, items: map<string, Item>, k: string, date: string)
    requires SlotsAsStep(after, items, k, date)
    ensures Outcome(after, k, date) == Ok(Skip)
  {
    match Outcome(items, k, date).value
    case Skip =>
      assert Lookup(after, k) == Lookup(items, k);
      assert Lookup(after, TempKey(k)) == Lookup(items, TempKey(k));
    case Move(f, t) =>
      assert Lookup(after, TempKey(k)) == Some(Doc(t));
      MovedDraftsSkip(t, date, Lookup(after, k));
  }

  /** The island step keeps every category's step skipping, and skips itself afterwards. */
  lemma {:induction false} IslandStepLeavesNoDrafts(cells: map<string, Item>, keys: seq<string>, date: string)
    requires NoTempClash(keys) && IslandKey in keys
    requires forall k | k in keys :: Outcome(cells, k, date) == Ok(Skip)
    requires ArchiveIsland(Lookup(cells, IslandKey), Lookup(cells, TempKey(IslandKey)), date).Ok?
    ensures var mv := ArchiveIsland(Lookup(cells, IslandKey), Lookup(cells, TempKey(IslandKey)), date).value;
      var after := Apply(cells, IslandKey, mv);
      (forall k | k in keys :: Outcome(after, k, date) == Ok(Skip)) &&
      ArchiveIsland(Lookup(after, IslandKey), Lookup(after, TempKey(IslandKey)), date) == Ok(Skip)
  {
    var mv := ArchiveIsland(Lookup(cells, IslandKey), Lookup(cells, TempKey(IslandKey)), date).value;
    var after := Apply(cells, IslandKey, mv);
    if mv.Move? {
      MovedDraftsSkip(mv.temp, date, Lookup(after, IslandKey));
      assert Lookup(after, TempKey(IslandKey)) == Some(Doc(mv.temp));
      forall k | k in keys
        ensures Outcome(after, k, date) == Ok(Skip)
      {
        if k != IslandKey {
          TempKeyInjective(k, IslandKey);
          assert Lookup(after, k) == Lookup(cells, k);
          assert Lookup(after, TempKey(k)) == Lookup(cells, TempKey(k));
        }
      }
    }
  }

  /**
   * A second `archiveToday` right after one that completed finds no drafts
   * for today: it writes nothing and reports no data.
   */
  lemma {:induction false} ArchiveTwiceMovesNothing(items: map<string, Item>, keys: seq<string>, date: string)
    requires Distinct(keys) && NoTempClash(keys) && IslandKey in keys
    requires ArchiveRun(items, keys, date).failure.None?
    ensures var after := ArchiveRun(items, keys, date).items;
      ArchiveRun(after, keys, date) == Run(after, false, None)
  {
    var loop := ArchiveLoop(items, keys, date);
    LoopLeavesNoDrafts(items, keys, date);
    IslandStepLeavesNoDrafts(loop.items, keys, date);
    var after := ArchiveRun(items, keys, date).items;
    ArchiveLoopAllSkip(after, keys, date);
  }

  /** One more iteration of a loop that has not failed: the next category's step on the current cells. */
  lemma ArchiveLoopNext(items: map<string, Item>, keys: seq<string>, i: nat, date: string)
    requires i < |keys| && ArchiveLoop(items, keys[..i], date).failure.None?
    ensures var prev := ArchiveLoop(items, keys[..i], date);
      var next := ArchiveLoop(items, keys[..i + 1], date);
      match Outcome(prev.items, keys[i], date)
      case Err(e) => next == Run(prev.items, prev.moved, Some(e))
      case Ok(mv) => next == Run(Apply(prev.items, keys[i], mv), prev.moved || mv.Move?, None)
  {
    assert keys[..i + 1][..i] == keys[..i] && keys[..i + 1][i] == keys[i];
  }

  /** A failure part-way through the loop is where the whole loop stops. */
  lemma {:induction false} ArchiveLoopStops(items: map<string, Item>, keys: seq<string>, i: nat, date: string)
    requires i <= |keys| && ArchiveLoop(items, keys[..i], date).failure.Some?
    ensures ArchiveLoop(items, keys, date) == ArchiveLoop(items, keys[..i], date)
    decreases |keys| - i
  {
    if i < |keys| {
      assert keys[..i + 1][..i] == keys[..i];
      ArchiveLoopStops(items, keys, i + 1, date);
    } else {
      assert keys[..i] == keys;
    }
  }

  // -------------------------------------------------------- island drafts

  /** The cells after `saveIslandInteraction` writes `temp[path[0]][path[1]][path[2]] = v`. */
  function SetDraftFlag(items: map<string, Item>, path: seq<string>, v: bool): Result<map<string, Item>, JsError>
    requires |path| == 3
  {
    var temp :- ReadDoc(Lookup(items, TempKey(IslandKey)));
    var temp' :- SetPath(temp, path, Bool(v));
    Ok(items[TempKey(IslandKey) := Doc(temp')])
  }

  /**
   * When every level of the island drafts along (today, resident,
   * interaction) is an object or missing, the flag is stored there, missing
   * levels are created, every other (date, resident, interaction) keeps its
   * value and no other cell is written.
   */
  lemma {:induction false} DraftFlagStored(items: map<string, Item>, path: seq<string>, v: bool, other: seq<string>)
    requires |path| == 3 && |other| == 3 && other != path
    requires ReadDoc(Lookup(items, TempKey(IslandKey))).Ok?
    requires Writable(ReadDoc(Lookup(items, TempKey(IslandKey))).value, path)
    ensures var before := ReadDoc(Lookup(items, TempKey(IslandKey))).value;
      var r := SetDraftFlag(items, path, v);
      r.Ok? && TempKey(IslandKey) in r.value && r.value[TempKey(IslandKey)].Doc? &&
      var after := r.value[TempKey(IslandKey)].value;
      GetPath(after, path) == Some(Bool(v)) &&
      (GetPath(before, other).Some? ==> GetPath(after, other) == GetPath(before, other)) &&
      (forall k | k != TempKey(IslandKey) :: Lookup(r.value, k) == Lookup(items, k))
  {
    var before := ReadDoc(Lookup(items, TempKey(IslandKey))).value;
    SetPathStores(before, path, Bool(v));
    if GetPath(before, other).Some? {
      SetPathFrame(before, path, Bool(v), other);
    }
  }

  /** Which cell `loadIslandInteractions` parses: the drafts when non-empty, else the final map when non-empty. */
  function InteractionsSource(items: map<string, Item>): Option<Item> {
    var temp := Lookup(items, TempKey(IslandKey));
    var final := Lookup(items, IslandKey);
    if temp.Some? && ItemTruthy(temp.value) then temp
    else if final.Some? && ItemTruthy(final.value) then final
    else None
  }

  /** Non-empty drafts win over the final map; the final map is read only when the drafts are missing or empty. */
  lemma InteractionsSourcePrefersDrafts(items: map<string, Item>)
    ensures var temp := Lookup(items, TempKey(IslandKey));
      var final := Lookup(items, IslandKey);
      (temp.Some? && ItemTruthy(temp.value) ==> InteractionsSource(items) == temp) &&
      (!(temp.Some? && ItemTruthy(temp.value)) && final.Some? && ItemTruthy(final.value) ==>
        InteractionsSource(items) == final) &&
      (InteractionsSource(items).None? <==>
        !(temp.Some? && ItemTruthy(temp.value)) && !(final.Some? && ItemTruthy(final.value)))
  {
  }

  // -------------------------------------------------------- important dates

  /** `{ type, label, addedDate }` */
  function ImportantEntry(kind: string, labelText: string, addedDate: string): Json {
    Obj(map["type" := Str(kind), "label" := Str(labelText), "addedDate" := Str(addedDate)])
  }

  /**
   * Adding a date to an importantDates object stores the entry under that
   * date (replacing any earlier one) and keeps every other date; deleting it
   * again removes only that key, so a date that was not there before leaves
   * the map as it was.
   */
  lemma ImportantDateEdits(dates: map<string, Json>, date: string, entry: Json, other: string)
    requires other != date
    ensures var added := SetPath(Obj(dates), [date], entry);
      added.Ok? && GetPath(added.value, [date]) == Some(entry) &&
      GetPath(added.value, [other]) == GetPath(Obj(dates), [other]) &&
      DeleteKey(added.value, date).Ok? &&
      DeleteKey(added.value, date).value == Obj(dates - {date}) &&
      (date !in dates ==> DeleteKey(added.value, date).value == Obj(dates))
  {
    var added := SetPath(Obj(dates), [date], entry);
    SetPathStores(Obj(dates), [date], entry);
    assert added.value.fields - {date} == dates - {date};
    if date !in dates {
      assert dates - {date} == dates;
    }
  }
}
