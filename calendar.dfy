/** The date → categories index of app.js `getDaysWithRecords`, used to mark calendar days. */
module Calendar {
  import opened Wrappers
  import opened JsonModel
  import opened Storage
  import opened RecordStore

  /** `if (data) Object.keys(JSON.parse(data))`: the date keys of a cell. */
  function DateKeysOf(cell: Option<Item>): Result<set<string>, JsError> {
    match cell
    case None => Ok({})
    case Some(i) =>
      if !ItemTruthy(i) then Ok({})
      else match ParseItem(i)
        case Err(e) => Err(e)
        case Ok(v) => if v.Null? then Err(TypeError) else Ok(KeysOf(v))
  }

  /** Categories the calendar looks at: all but the island and important-date maps. */
  predicate Indexed(k: string) {
    k != IslandKey && k != ImportantKey
  }

  /** `index` after appending category `k` to the list of every date in `dates`. */
  function AddKey(index: map<string, seq<string>>, k: string, dates: set<string>): map<string, seq<string>> {
    map d | d in index.Keys + dates :: (if d in index then index[d] else []) + (if d in dates then [k] else [])
  }

  /**
   * The index over `keys` (`Object.values(STORAGE_KEYS)` in the application):
   * each indexed category is appended to the dates of its final map and of
   * its drafts; the first cell that cannot be read stops it.
   */
  function DaysIndex(items: map<string, Item>, keys: seq<string>): Result<map<string, seq<string>>, JsError>
    decreases |keys|
  {
    if keys == [] then Ok(map[])
    else
      var prev :- DaysIndex(items, keys[..|keys| - 1]);
      var k := keys[|keys| - 1];
      if !Indexed(k) then Ok(prev) else IndexCategory(items, prev, k)
  }

  /** One category of the index: its final dates, then its draft dates. */
  function IndexCategory(items: map<string, Item>, index: map<string, seq<string>>, k: string)
    : Result<map<string, seq<string>>, JsError>
  {
    var finalDates :- DateKeysOf(Lookup(items, k));
    var tempDates :- DateKeysOf(Lookup(items, TempKey(k)));
    Ok(AddKey(index, k, finalDates + tempDates))
  }

  /** The dates category `k` has records or drafts for. */
  function RecordDates(items: map<string, Item>, k: string): set<string> {
    var f := DateKeysOf(Lookup(items, k));
    var t := DateKeysOf(Lookup(items, TempKey(k)));
    (if f.Ok? then f.value else {}) + (if t.Ok? then t.value else {})
  }

  predicate NoDuplicates(s: seq<string>) {
    forall i, j | 0 <= i < j < |s| :: s[i] != s[j]
  }

  /**
   * An index over `keys` is sound when a category is listed under a date iff
   * it is an indexed category with a final or draft entry for that date, and
   * no date lists a category twice.
   */
  ghost predicate IndexSound(items: map<string, Item>, keys: seq<string>, index: map<string, seq<string>>) {
    (forall d, k :: d in index && k in index[d] <==> k in keys && Listed(items, k, d)) &&
    (forall d | d in index :: NoDuplicates(index[d]))
  }

  /** Category `k` belongs under date `d`: it is indexed and has a final or draft entry for `d`. */
  predicate Listed(items: map<string, Item>, k: string, d: string) {
    Indexed(k) && d in RecordDates(items, k)
  }

  /** The index built over distinct categories is sound. */
  lemma {:induction false} DaysIndexSound(items: map<string, Item>, keys: seq<string>)
    requires Distinct(keys) && DaysIndex(items, keys).Ok?
    ensures IndexSound(items, keys, DaysIndex(items, keys).value)
    decreases |keys|
  {
    if keys != [] {
      var prefix := keys[..|keys| - 1];
      var k := keys[|keys| - 1];
      assert keys == prefix + [k];
      DaysIndexSound(items, prefix);
      var prev := DaysIndex(items, prefix).value;
      assert k !in prefix;
      if Indexed(k) {
        assert DaysIndex(items, keys) == IndexCategory(items, prev, k);
        assert IndexCategory(items, prev, k) == Ok(AddKey(prev, k, RecordDates(items, k)));
        IndexedStep(items, prefix, k, prev);
      } else {
        SkippedStep(items, prefix, k, prev);
      }
    }
  }

  /** Adding an indexed category not yet visited keeps the index sound. */
  lemma IndexedStep(items: map<string, Item>, prefix: seq<string>, k: string, prev: map<string, seq<string>>)
    requires k !in prefix && Indexed(k) && IndexSound(items, prefix, prev)
    ensures IndexSound(items, prefix + [k], AddKey(prev, k, RecordDates(items, k)))
  {
    IndexedStepMembers(items, prefix, k, prev);
    AddKeyNoDuplicates(prev, k, RecordDates(items, k));
  }

  /** After adding an indexed category, the dates listing it are exactly its record dates. */
  lemma IndexedStepMembers(items: map<string, Item>, prefix: seq<string>, k: string, prev: map<string, seq<string>>)
    requires Indexed(k)
    requires forall d, x :: d in prev && x in prev[d] <==> x in prefix && Listed(items, x, d)
    ensures var next := AddKey(prev, k, RecordDates(items, k));
      forall d, x :: d in next && x in next[d] <==> x in prefix + [k] && Listed(items, x, d)
  {
    var next := AddKey(prev, k, RecordDates(items, k));
    AddKeyMembers(prev, k, RecordDates(items, k));
    forall d, x
      ensures d in next && x in next[d] <==> x in prefix + [k] && Listed(items, x, d)
    {
      assert x in prefix + [k] <==> x in prefix || x == k;
    }
  }

  /** A category that is not indexed leaves a sound index sound. */
  lemma SkippedStep(items: map<string, Item>, prefix: seq<string>, k: string, prev: map<string, seq<string>>)
    requires !Indexed(k) && IndexSound(items, prefix, prev)
    ensures IndexSound(items, prefix + [k], prev)
  {
    forall d, x
      ensures d in prev && x in prev[d] <==> x in prefix + [k] && Listed(items, x, d)
    {
      assert x in prefix + [k] <==> x in prefix || x == k;
    }
  }

  /** What `AddKey` lists under each date: the old entries, and `k` under the dates added. */
  lemma AddKeyMembers(index: map<string, seq<string>>, k: string, dates: set<string>)
    ensures var a := AddKey(index, k, dates);
      forall d, x :: d in a && x in a[d] <==> (d in index && x in index[d]) || (x == k && d in dates)
  {
  }

  /** Adding a category not yet listed anywhere keeps every date's list free of duplicates. */
  lemma AddKeyNoDuplicates(index: map<string, seq<string>>, k: string, dates: set<string>)
    requires forall d | d in index :: NoDuplicates(index[d]) && k !in index[d]
    ensures var a := AddKey(index, k, dates);
      forall d | d in a :: NoDuplicates(a[d])
  {
  }

  /** A failure at some category is the result of the whole index. */
  lemma {:induction false} DaysIndexStops(items: map<string, Item>, keys: seq<string>, i: nat)
    requires i <= |keys| && DaysIndex(items, keys[..i]).Err?
    ensures DaysIndex(items, keys) == DaysIndex(items, keys[..i])
    decreases |keys| - i
  {
    if i < |keys| {
      assert keys[..i + 1][..i] == keys[..i];
      DaysIndexStops(items, keys, i + 1);
    } else {
      assert keys[..i] == keys;
    }
  }

  lemma AddKeyNone(index: map<string, seq<string>>, k: string)
    ensures AddKey(index, k, {}) == index
  {
    var a := AddKey(index, k, {});
    assert a.Keys == index.Keys;
    forall d | d in index
      ensures a[d] == index[d]
    {
      assert a[d] == index[d] + [];
    }
  }

  /** Appending `k` for one more date `d` not yet covered. */
  lemma AddKeyStep(index: map<string, seq<string>>, k: string, dates: set<string>, d: string)
    requires d !in dates
    ensures var a := AddKey(index, k, dates);
      AddKey(index, k, dates + {d}) == a[d := (if d in a then a[d] else []) + [k]]
  {
    var a := AddKey(index, k, dates);
    var b := AddKey(index, k, dates + {d});
    var c := a[d := (if d in a then a[d] else []) + [k]];
    assert b.Keys == c.Keys;
    forall x | x in b
      ensures b[x] == c[x]
    {
    }
  }

  /** Before `k` is added anywhere, `k` is listed under `d` iff `d` is among the dates added. */
  lemma AddKeyListed(index: map<string, seq<string>>, k: string, dates: set<string>, d: string)
    requires forall x | x in index :: k !in index[x]
    ensures var a := AddKey(index, k, dates);
      (d in a && k in a[d]) <==> d in dates
  {
  }
}
