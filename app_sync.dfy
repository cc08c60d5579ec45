/**
 * The `githubSyncManager` object of app.js: its own configuration cells,
 * the record count it shows, and the page's upload and download, which
 * back up every non-sync key and restore by overwriting key by key.
 */
module PageSync {
  import opened Wrappers
  import opened Strings
  import opened JsonModel
  import opened Storage
  import opened RecordStore
  import GitHubSync
  import PageCodec

  /** The page object's fields (`accessToken` is kept in `github_pat`). */
  datatype PageConfig = PageConfig(accessToken: Option<Item>, gistId: Option<Item>, username: Option<Item>,
                                   lastSync: Option<Item>, userInfo: Json)

  /** The five cells `clearConfig` removes; unlike the sync manager, `github_auto_sync` stays. */
  const PageConfigKeys: set<string> :=
    {GitHubSync.PatKey, GitHubSync.GistIdKey, GitHubSync.UsernameKey, GitHubSync.LastSyncKey, GitHubSync.UserInfoKey}

  /** Removing the five settings one by one removes `PageConfigKeys`. */
  lemma RemovePageConfigKeys(items: map<string, Item>)
    ensures items - {GitHubSync.PatKey} - {GitHubSync.GistIdKey} - {GitHubSync.UsernameKey}
      - {GitHubSync.LastSyncKey} - {GitHubSync.UserInfoKey} == items - PageConfigKeys
  {
  }

  /** The twelve categories `calculateRecordCount` counts. */
  const CountedKeys: seq<string> := [
    "sleepData", "breakfastData", "workData", "houseworkData",
    "lunchData", "napData", "dinnerData", "studyData",
    "exerciseData", "gameData", "entertainmentData", "financeData"
  ]

  const DecodeFailed: string := "数据解密失败"

  /**
   * The fields after `loadConfig()`. A user-info cell that is not JSON makes
   * `JSON.parse` throw after the four text fields were read; `userInfo` then
   * keeps its value, as it does when the cell is missing or empty.
   */
  function PageLoaded(items: map<string, Item>, prev: PageConfig): (c: PageConfig)
    ensures c.accessToken == Lookup(items, GitHubSync.PatKey) && c.gistId == Lookup(items, GitHubSync.GistIdKey)
    ensures c.username == Lookup(items, GitHubSync.UsernameKey) && c.lastSync == Lookup(items, GitHubSync.LastSyncKey)
    ensures c.userInfo != prev.userInfo ==> Lookup(items, GitHubSync.UserInfoKey) == Some(Doc(c.userInfo))
  {
    var info := Lookup(items, GitHubSync.UserInfoKey);
    PageConfig(Lookup(items, GitHubSync.PatKey), Lookup(items, GitHubSync.GistIdKey),
               Lookup(items, GitHubSync.UsernameKey), Lookup(items, GitHubSync.LastSyncKey),
               if info.Some? && info.value.Doc? then info.value.value else prev.userInfo)
  }

  /** `loadConfig()` throws exactly when the user-info cell is non-empty text that is not JSON. */
  predicate PageLoadThrows(items: map<string, Item>) {
    GitHubSync.Present(Lookup(items, GitHubSync.UserInfoKey)) && items[GitHubSync.UserInfoKey].Plain?
  }

  /** The cells after `saveConfig()`: every truthy field; no auto-sync flag. */
  function PageSaved(items: map<string, Item>, c: PageConfig): (r: map<string, Item>)
    ensures forall k | k !in PageConfigKeys :: Lookup(r, k) == Lookup(items, k)
  {
    var a := GitHubSync.SetIfPresent(items, GitHubSync.PatKey, c.accessToken);
    var b := GitHubSync.SetIfPresent(a, GitHubSync.GistIdKey, c.gistId);
    var d := GitHubSync.SetIfPresent(b, GitHubSync.UsernameKey, c.username);
    var e := GitHubSync.SetIfPresent(d, GitHubSync.LastSyncKey, c.lastSync);
    if Truthy(c.userInfo) then e[GitHubSync.UserInfoKey := Doc(c.userInfo)] else e
  }

  /** `saveConfig()` then `loadConfig()` gives back every truthy field, without throwing. */
  lemma PageSaveThenLoad(items: map<string, Item>, c: PageConfig, prev: PageConfig)
    requires !PageLoadThrows(items)
    ensures !PageLoadThrows(PageSaved(items, c))
    ensures var l := PageLoaded(PageSaved(items, c), prev);
      (GitHubSync.Present(c.accessToken) ==> l.accessToken == c.accessToken) &&
      (GitHubSync.Present(c.gistId) ==> l.gistId == c.gistId) &&
      (GitHubSync.Present(c.username) ==> l.username == c.username) &&
      (GitHubSync.Present(c.lastSync) ==> l.lastSync == c.lastSync) &&
      (Truthy(c.userInfo) ==> l.userInfo == c.userInfo)
  {
  }

  // ---------------------------------------------------------------------
  // Counting records
  // ---------------------------------------------------------------------

  /** `Array.isArray(records) ? records.length : 0` */
  function ListLength(v: Json): nat {
    if v.Arr? then |v.items| else 0
  }

  /** The sum of the list lengths among the values of `m` at `keys`, taken in any order. */
  ghost function SumOver(m: map<string, Json>, keys: set<string>): nat
    requires keys <= m.Keys
    decreases keys
  {
    if keys == {} then 0
    else
      var k :| k in keys;
      ListLength(m[k]) + SumOver(m, keys - {k})
  }

  ghost function SumLengths(m: map<string, Json>): nat {
    SumOver(m, m.Keys)
  }

  /** The sum does not depend on which key is taken first. */
  lemma {:induction false} SumOverRemove(m: map<string, Json>, keys: set<string>, k: string)
    requires keys <= m.Keys && k in keys
    ensures SumOver(m, keys) == ListLength(m[k]) + SumOver(m, keys - {k})
    decreases keys
  {
    var j :| j in keys && SumOver(m, keys) == ListLength(m[j]) + SumOver(m, keys - {j});
    if j != k {
      SumOverRemove(m, keys - {j}, k);
      SumOverRemove(m, keys - {k}, j);
      assert keys - {j} - {k} == keys - {k} - {j};
    }
  }

  /** Removing one entry of a map takes its list length off the sum. */
  lemma SumLengthsRemove(m: map<string, Json>, k: string)
    requires k in m
    ensures SumLengths(m) == ListLength(m[k]) + SumLengths(m - {k})
  {
    SumOverRemove(m, m.Keys, k);
    SumOverSame(m, m - {k}, m.Keys - {k});
  }

  /** The sum over `keys` reads only the values at `keys`. */
  lemma {:induction false} SumOverSame(a: map<string, Json>, b: map<string, Json>, keys: set<string>)
    requires keys <= a.Keys && keys <= b.Keys
    requires forall k | k in keys :: a[k] == b[k]
    ensures SumOver(a, keys) == SumOver(b, keys)
    decreases keys
  {
    if keys != {} {
      var k :| k in keys && SumOver(a, keys) == ListLength(a[k]) + SumOver(a, keys - {k});
      SumOverRemove(b, keys, k);
      SumOverSame(a, b, keys - {k});
    }
  }

  /** What one category adds to the count: nothing when its cell is missing, empty, not JSON or `null`. */
  ghost function CellCount(cell: Option<Item>): nat {
    if !GitHubSync.Present(cell) then 0
    else match cell.value
      case Plain(_) => 0
      case Doc(v) => if v.Null? then 0 else SumLengths(ObjectView(v))
  }

  /** `calculateRecordCount()` over the categories `keys`. */
  ghost function RecordCount(items: map<string, Item>, keys: seq<string>): nat
    decreases |keys|
  {
    if |keys| == 0 then 0
    else RecordCount(items, keys[..|keys| - 1]) + CellCount(Lookup(items, keys[|keys| - 1]))
  }

  /** Changing one counted cell changes the count by that cell's difference only. */
  lemma {:induction false} RecordCountChange(a: map<string, Item>, b: map<string, Item>, keys: seq<string>, cell: string)
    requires Distinct(keys)
    requires forall k | k != cell :: Lookup(a, k) == Lookup(b, k)
    ensures cell in keys ==>
      RecordCount(b, keys) + CellCount(Lookup(a, cell)) == RecordCount(a, keys) + CellCount(Lookup(b, cell))
    ensures cell !in keys ==> RecordCount(b, keys) == RecordCount(a, keys)
    decreases |keys|
  {
    if |keys| > 0 {
      var prefix := keys[..|keys| - 1];
      assert Distinct(prefix);
      RecordCountChange(a, b, prefix, cell);
      if cell in keys && keys[|keys| - 1] != cell {
        assert cell in prefix;
      }
      if keys[|keys| - 1] == cell {
        assert cell !in prefix;
      }
    }
  }

  /** Saving a record adds one to the count of its own cell. */
  lemma SaveRecordCountsCell(items: map<string, Item>, cell: string, date: string, rec: Json)
    requires ReadDoc(Lookup(items, cell)).Ok? && Appendable(ReadDoc(Lookup(items, cell)).value, date)
    ensures SaveRecord(items, cell, date, rec).Ok?
    ensures CellCount(Lookup(SaveRecord(items, cell, date, rec).value, cell)) == CellCount(Lookup(items, cell)) + 1
  {
    var before := ReadDoc(Lookup(items, cell)).value;
    var m := before.fields;
    var day := if date in m && Truthy(m[date]) then m[date] else Arr([]);
    var m' := m[date := Arr(day.items + [rec])];
    assert SaveRecord(items, cell, date, rec) == Ok(items[cell := Doc(Obj(m'))]);
    SumLengthsRemove(m', date);
    assert m' - {date} == m - {date};
    if date in m {
      SumLengthsRemove(m, date);
    } else {
      assert m - {date} == m;
    }
    assert CellCount(Lookup(items, cell)) == SumLengths(m) by {
      if !GitHubSync.Present(Lookup(items, cell)) {
        assert m == map[];
      }
    }
  }

  /** Saving a record into a counted category adds exactly one to the count; elsewhere it adds nothing. */
  lemma SaveRecordCounts(items: map<string, Item>, keys: seq<string>, cell: string, date: string, rec: Json)
    requires Distinct(keys)
    requires ReadDoc(Lookup(items, cell)).Ok? && Appendable(ReadDoc(Lookup(items, cell)).value, date)
    ensures SaveRecord(items, cell, date, rec).Ok?
    ensures cell in keys ==> RecordCount(SaveRecord(items, cell, date, rec).value, keys) == RecordCount(items, keys) + 1
    ensures cell !in keys ==> RecordCount(SaveRecord(items, cell, date, rec).value, keys) == RecordCount(items, keys)
  {
    SaveRecordCountsCell(items, cell, date, rec);
    var after := SaveRecord(items, cell, date, rec).value;
    assert forall k | k != cell :: Lookup(after, k) == Lookup(items, k);
    RecordCountChange(items, after, keys, cell);
  }

  /** The inner loop: `Object.values(parsed).forEach(records => count += ...)`. */
  method SumListLengths(m: map<string, Json>) returns (n: nat)
    ensures n == SumLengths(m)
  {
    n := 0;
    var rest := m;
    while rest != map[]
      invariant n + SumLengths(rest) == SumLengths(m)
      decreases |rest|
    {
      var k :| k in rest;
      SumLengthsRemove(rest, k);
      n := n + ListLength(rest[k]);
      rest := rest - {k};
    }
  }

  // ---------------------------------------------------------------------
  // Upload and download
  // ---------------------------------------------------------------------

  /** The keys the page's `uploadData` backs up: drafts (`_TEMP`) and the device id are kept. */
  predicate PageIncluded(k: string) {
    !Contains(k, "github_") && !Contains(k, "_temp")
  }

  /** The object `uploadData` encodes. */
  function PageRecords(items: map<string, Item>): (r: map<string, Json>)
    ensures forall k :: k in r <==> k in items && PageIncluded(k) && items[k].Doc?
    ensures forall k | k in r :: items[k] == Doc(r[k])
  {
    map k | k in items && PageIncluded(k) && items[k].Doc? :: items[k].value
  }

  /**
   * The page backs up the draft cells that the sync manager leaves out:
   * `key_TEMP` holding JSON is in the page's backup and not in the manager's.
   */
  lemma PageBacksUpDrafts(items: map<string, Item>, key: string)
    requires TempKey(key) in items && items[TempKey(key)].Doc?
    requires !Contains(TempKey(key), "github_") && !Contains(TempKey(key), "_temp")
    ensures TempKey(key) in PageRecords(items)
    ensures TempKey(key) !in GitHubSync.Records(items)
  {
    var t := TempKey(key);
    assert t[|key|..] == "_TEMP";
    assert OccursAt(t, "_TEMP", |key|);
  }

  /** The cells after writing every property of the restored object: `setItem(key, JSON.stringify(data[key]))`. */
  function Overwrite(items: map<string, Item>, data: map<string, Json>): (r: map<string, Item>)
    ensures forall k | k in data :: Lookup(r, k) == Some(Doc(data[k]))
    ensures forall k | k !in data :: Lookup(r, k) == Lookup(items, k)
  {
    map k | k in items.Keys + data.Keys :: if k in data then Doc(data[k]) else items[k]
  }

  /** What a call of the page's `downloadData` ended with. */
  datatype DownloadOutcome = Declined | Restored | DownloadFailed(error: GitHubSync.SyncError)

  class PageSyncManager {
    const storage: LocalStorage
    var accessToken: Option<Item>
    var gistId: Option<Item>
    var username: Option<Item>
    var lastSync: Option<Item>
    var userInfo: Json

    function State(): PageConfig
      reads this
    {
      PageConfig(accessToken, gistId, username, lastSync, userInfo)
    }

    /** `isConnected()` */
    function IsConnected(): (b: bool)
      reads this
      ensures b <==> GitHubSync.Present(accessToken)
    {
      GitHubSync.Present(accessToken)
    }

    constructor (storage: LocalStorage)
      ensures this.storage == storage
      ensures State() == PageConfig(None, None, None, None, Obj(map[]))
    {
      this.storage := storage;
      accessToken := None;
      gistId := None;
      username := None;
      lastSync := None;
      userInfo := Obj(map[]);
    }

    method LoadConfig() returns (r: Result<(), JsError>)
      modifies this
      ensures State() == PageLoaded(storage.items, old(State()))
      ensures r.Err? <==> PageLoadThrows(storage.items)
      ensures r.Err? ==> r.error == SyntaxError
    {
      accessToken := storage.GetItem(GitHubSync.PatKey);
      gistId := storage.GetItem(GitHubSync.GistIdKey);
      username := storage.GetItem(GitHubSync.UsernameKey);
      lastSync := storage.GetItem(GitHubSync.LastSyncKey);
      var info := storage.GetItem(GitHubSync.UserInfoKey);
      if GitHubSync.Present(info) {
        var parsed := ParseItem(info.value);
        if parsed.Err? {
          return Err(parsed.error);
        }
        userInfo := parsed.value;
      }
      return Ok(());
    }

    method SaveConfig()
      modifies storage
      ensures storage.items == PageSaved(old(storage.items), State())
    {
      if GitHubSync.Present(accessToken) {
        storage.SetItem(GitHubSync.PatKey, accessToken.value);
      }
      if GitHubSync.Present(gistId) {
        storage.SetItem(GitHubSync.GistIdKey, gistId.value);
      }
      if GitHubSync.Present(username) {
        storage.SetItem(GitHubSync.UsernameKey, username.value);
      }
      if GitHubSync.Present(lastSync) {
        storage.SetItem(GitHubSync.LastSyncKey, lastSync.value);
      }
      if Truthy(userInfo) {
        storage.SetItem(GitHubSync.UserInfoKey, Doc(userInfo));
      }
    }

    method ClearConfig()
      modifies this, storage
      ensures storage.items == old(storage.items) - PageConfigKeys
      ensures State() == PageConfig(None, None, None, None, Obj(map[]))
      ensures !IsConnected()
    {
      ghost var start := storage.items;
      storage.RemoveItem(GitHubSync.PatKey);
      storage.RemoveItem(GitHubSync.GistIdKey);
      storage.RemoveItem(GitHubSync.UsernameKey);
      storage.RemoveItem(GitHubSync.LastSyncKey);
      storage.RemoveItem(GitHubSync.UserInfoKey);
      RemovePageConfigKeys(start);
      accessToken := None;
      gistId := None;
      username := None;
      userInfo := Obj(map[]);
      lastSync := None;
    }

    /** `calculateRecordCount()` */
    method CalculateRecordCount() returns (count: nat)
      ensures count == RecordCount(storage.items, CountedKeys)
    {
      count := CountRecords(CountedKeys);
    }

    /** The loop of `calculateRecordCount` over the category keys; an unparsable cell is skipped. */
    method CountRecords(keys: seq<string>) returns (count: nat)
      ensures count == RecordCount(storage.items, keys)
    {
      count := 0;
      for i := 0 to |keys|
        invariant count == RecordCount(storage.items, keys[..i])
      {
        assert keys[..i + 1][..i] == keys[..i];
        var data := storage.GetItem(keys[i]);
        if GitHubSync.Present(data) && data.value.Doc? && !data.value.value.Null? {
          var n := SumListLengths(ObjectView(data.value.value));
          count := count + n;
        }
      }
      assert keys[..|keys|] == keys;
    }

    /**
     * The page's `uploadData()`: the backed-up object and its encoding by
     * `btoa`, which throws for text above U+00FF, then the PATCH (whose
     * answer is a parameter); `sent` is what the PATCH carried, if it was made.
     */
    method UploadData(patchOk: bool, patchStatus: int, nowIso: string, stringify: Json -> string)
      returns (r: Result<bool, GitHubSync.SyncError>, sent: Option<string>)
      modifies this, storage
      ensures sent == PageCodec.EncodeAsWritten(Obj(PageRecords(old(storage.items))), stringify)
      ensures sent.None? ==> r == Err(GitHubSync.Thrown(InvalidCharacterError)) &&
                             storage.items == old(storage.items) && State() == old(State())
      ensures sent.Some? && !patchOk ==> r == Err(GitHubSync.Message("上传失败: " + IntToString(patchStatus))) &&
                                         storage.items == old(storage.items) && State() == old(State())
      ensures sent.Some? && patchOk ==> r == Ok(true) && State() == old(State()).(lastSync := Some(Plain(nowIso))) &&
                                        storage.items == PageSaved(old(storage.items), State())
    {
      sent := PageCodec.EncodeAsWritten(Obj(PageRecords(storage.items)), stringify);
      if sent.None? {
        return Err(GitHubSync.Thrown(InvalidCharacterError)), sent;
      }
      if !patchOk {
        return Err(GitHubSync.Message("上传失败: " + IntToString(patchStatus))), sent;
      }
      lastSync := Some(Plain(nowIso));
      SaveConfig();
      r := Ok(true);
    }

    /**
     * The page's `downloadData()`: after confirmation and a successful GET,
     * the content is decoded by `atob` (one character per byte) and parsed in
     * full before any cell is written; then every property of the result
     * overwrites its cell.
     */
    method DownloadData(confirmed: bool, responseOk: bool, status: int, content: Option<string>,
                        parse: string -> Option<Json>, nowIso: string)
      returns (r: DownloadOutcome)
      modifies this, storage
      ensures !confirmed ==> r == Declined
      ensures confirmed && !responseOk ==> r == DownloadFailed(GitHubSync.Message("下载失败: " + IntToString(status)))
      ensures confirmed && responseOk && content.None? ==> r == DownloadFailed(GitHubSync.Thrown(TypeError))
      ensures confirmed && responseOk && content.Some? &&
              (PageCodec.DecodeAsWritten(content.value, parse).Err? || PageCodec.DecodeAsWritten(content.value, parse).value.Null?) ==>
                r == DownloadFailed(GitHubSync.Message(DecodeFailed))
      ensures confirmed && responseOk && content.Some? &&
              PageCodec.DecodeAsWritten(content.value, parse).Ok? && !PageCodec.DecodeAsWritten(content.value, parse).value.Null? ==>
                r == Restored
      ensures r != Restored ==> storage.items == old(storage.items) && State() == old(State())
      ensures r == Restored ==>
                content.Some? && PageCodec.DecodeAsWritten(content.value, parse).Ok? &&
                var data := PageCodec.DecodeAsWritten(content.value, parse).value;
                !data.Null? &&
                State() == old(State()).(lastSync := Some(Plain(nowIso))) &&
                storage.items == PageSaved(Overwrite(old(storage.items), ObjectView(data)), State())
    {
      if !confirmed {
        return Declined;
      }
      if !responseOk {
        return DownloadFailed(GitHubSync.Message("下载失败: " + IntToString(status)));
      }
      if content.None? {
        return DownloadFailed(GitHubSync.Thrown(TypeError));
      }
      var decoded := PageCodec.DecodeAsWritten(content.value, parse);
      if decoded.Err? || decoded.value.Null? {
        return DownloadFailed(GitHubSync.Message(DecodeFailed));
      }
      var data := ObjectView(decoded.value);
      ghost var start := storage.items;
      var todo := data.Keys;
      while todo != {}
        modifies storage
        invariant todo <= data.Keys
        invariant forall k ::
                    Lookup(storage.items, k) ==
                    if k in data && k !in todo then Some(Doc(data[k])) else Lookup(start, k)
        decreases todo
      {
        var k :| k in todo;
        storage.SetItem(k, Doc(data[k]));
        todo := todo - {k};
      }
      LookupExtensional(storage.items, Overwrite(start, data));
      lastSync := Some(Plain(nowIso));
      SaveConfig();
      return Restored;
    }
  }
}
