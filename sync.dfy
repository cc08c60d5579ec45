/**
 * The `GitHubSyncManager` of github-sync.js: its configuration fields, kept
 * in `github_*` cells of `localStorage`, the snapshot it uploads, the merge
 * it applies on download, the `sync` dispatch, the auto-sync time gate and
 * the choice of the gist to use.
 */
module GitHubSync {
  import opened Wrappers
  import opened Strings
  import opened JsonModel
  import opened Storage
  import Merge
  import SnapshotCodec

  const PatKey: string := "github_pat"
  const GistIdKey: string := "github_gist_id"
  const UsernameKey: string := "github_username"
  const LastSyncKey: string := "github_last_sync"
  const UserInfoKey: string := "github_user_info"
  const AutoSyncKey: string := "github_auto_sync"
  const DeviceIdKey: string := "device_id"

  const ConfigKeys: set<string> := {PatKey, GistIdKey, UsernameKey, LastSyncKey, UserInfoKey, AutoSyncKey}

  const NotConnected: string := "请先连接 GitHub"
  const NoGist: string := "未找到 Gist，请先上传数据"
  const GistDeleted: string := "Gist 不存在，可能已被删除"
  const SyncNotConnected: string := "未连接 GitHub"
  const AutoSyncInterval: int := 30 * 60 * 1000

  /** The manager's fields; a text field holds what `getItem` returned. */
  datatype Config = Config(pat: Option<Item>, gistId: Option<Item>, username: Option<Item>,
                           lastSync: Option<Item>, userInfo: Json, isAutoSync: bool)

  /** What `uploadData`/`downloadData` throw: a message of their own, or a runtime error. */
  datatype SyncError = Message(text: string) | Thrown(error: JsError)

  /** JavaScript truthiness of a text field (`null` and the empty text are falsy). */
  predicate Present(f: Option<Item>) {
    f.Some? && ItemTruthy(f.value)
  }

  /** `getItem(key) === 'true'` */
  predicate IsTrueText(cell: Option<Item>) {
    cell == Some(Plain("true")) || cell == Some(Doc(Bool(true)))
  }

  /** The text `isAutoSync.toString()` writes. */
  function BoolText(b: bool): Item {
    Plain(if b then "true" else "false")
  }

  /** The fields after `loadConfig()`; a missing or empty user-info cell leaves `userInfo` as it was. */
  function Loaded(items: map<string, Item>, prev: Config): (c: Config)
    ensures c.pat == Lookup(items, PatKey) && c.gistId == Lookup(items, GistIdKey)
    ensures c.username == Lookup(items, UsernameKey) && c.lastSync == Lookup(items, LastSyncKey)
    ensures c.isAutoSync <==> IsTrueText(Lookup(items, AutoSyncKey))
    ensures !Present(Lookup(items, UserInfoKey)) ==> c.userInfo == prev.userInfo
    ensures Present(Lookup(items, UserInfoKey)) && items[UserInfoKey].Plain? ==> c.userInfo == Obj(map[])
  {
    var info := Lookup(items, UserInfoKey);
    var userInfo :=
      if !Present(info) then prev.userInfo
      else match ParseItem(info.value)
        case Ok(v) => v
        case Err(_) => Obj(map[]);
    Config(Lookup(items, PatKey), Lookup(items, GistIdKey), Lookup(items, UsernameKey),
           Lookup(items, LastSyncKey), userInfo, IsTrueText(Lookup(items, AutoSyncKey)))
  }

  function SetIfPresent(items: map<string, Item>, key: string, f: Option<Item>): map<string, Item> {
    if Present(f) then items[key := f.value] else items
  }

  /** The cells after `saveConfig()`: truthy text fields, the user info, and the auto-sync flag. */
  function Saved(items: map<string, Item>, c: Config): (r: map<string, Item>)
    ensures r.Keys == items.Keys + {UserInfoKey, AutoSyncKey} +
      (if Present(c.pat) then {PatKey} else {}) + (if Present(c.gistId) then {GistIdKey} else {}) +
      (if Present(c.username) then {UsernameKey} else {}) + (if Present(c.lastSync) then {LastSyncKey} else {})
    ensures forall k | k in items && k !in ConfigKeys :: r[k] == items[k]
  {
    var a := SetIfPresent(items, PatKey, c.pat);
    var b := SetIfPresent(a, GistIdKey, c.gistId);
    var d := SetIfPresent(b, UsernameKey, c.username);
    var e := SetIfPresent(d, LastSyncKey, c.lastSync);
    e[UserInfoKey := Doc(c.userInfo)][AutoSyncKey := BoolText(c.isAutoSync)]
  }

  /** `saveConfig()` then `loadConfig()` gives back every truthy text field, the user info and the flag. */
  lemma SaveThenLoad(items: map<string, Item>, c: Config, prev: Config)
    ensures var l := Loaded(Saved(items, c), prev);
      (Present(c.pat) ==> l.pat == c.pat) && (Present(c.gistId) ==> l.gistId == c.gistId) &&
      (Present(c.username) ==> l.username == c.username) && (Present(c.lastSync) ==> l.lastSync == c.lastSync) &&
      l.userInfo == c.userInfo && l.isAutoSync == c.isAutoSync
  {
  }

  /** A text field that is falsy is not written, so loading gives back what the cell held before. */
  lemma SaveSkipsFalsy(items: map<string, Item>, c: Config, prev: Config)
    requires !Present(c.pat)
    ensures Loaded(Saved(items, c), prev).pat == Lookup(items, PatKey)
  {
  }

  // ---------------------------------------------------------------------
  // The snapshot
  // ---------------------------------------------------------------------

  /** The keys `collectAllData` takes: no sync settings, no drafts, not the device id. */
  predicate Included(k: string) {
    !Contains(k, "github_") && !Contains(k, "_temp") && !Contains(k, "_TEMP") && k != DeviceIdKey
  }

  /** The parsed non-empty cells among `keys` that are included. */
  function RecordsOf(items: map<string, Item>, keys: set<string>): map<string, Json> {
    map k | k in keys && k in items && Included(k) && items[k].Doc? :: items[k].value
  }

  /** `collectAllData().records` */
  function Records(items: map<string, Item>): (r: map<string, Json>)
    ensures forall k :: k in r <==> k in items && Included(k) && items[k].Doc?
    ensures forall k | k in r :: items[k] == Doc(r[k])
  {
    RecordsOf(items, items.Keys)
  }

  /** The text of a cell: what `getItem` returns. */
  function ItemText(i: Item, stringify: Json -> string): string {
    match i
    case Plain(t) => t
    case Doc(v) => stringify(v)
  }

  /** The object `collectAllData` returns. */
  function Snapshot(records: map<string, Json>, nowIso: string, deviceId: string): (d: Json)
    ensures Member(d, "records") == Some(Obj(records))
  {
    Obj(map["_metadata" := Obj(map["syncTime" := Str(nowIso), "deviceId" := Str(deviceId), "version" := Str("1.0")]),
            "records" := Obj(records)])
  }

  /** The id `getDeviceId` makes when the device has none. */
  function FreshDeviceId(now: int, randomPart: string): string {
    "device-" + IntToString(now) + "-" + randomPart
  }

  /** The cells after `getDeviceId()`. */
  function WithDeviceId(items: map<string, Item>, now: int, randomPart: string): (r: map<string, Item>)
    ensures Present(Lookup(r, DeviceIdKey))
    ensures forall k | k != DeviceIdKey :: Lookup(r, k) == Lookup(items, k)
    ensures Present(Lookup(items, DeviceIdKey)) ==> r == items
  {
    if Present(Lookup(items, DeviceIdKey)) then items
    else items[DeviceIdKey := Plain(FreshDeviceId(now, randomPart))]
  }

  /** A second `getDeviceId()` finds the id the first one stored. */
  lemma DeviceIdKept(items: map<string, Item>, now: int, randomPart: string, later: int, otherPart: string)
    ensures WithDeviceId(WithDeviceId(items, now, randomPart), later, otherPart) == WithDeviceId(items, now, randomPart)
  {
  }

  lemma NotIncludedWhenContains(k: string, part: string, i: nat)
    requires part == "github_" || part == "_temp" || part == "_TEMP"
    requires OccursAt(k, part, i)
    ensures !Included(k)
  {
  }

  /** Removing the six settings one by one removes `ConfigKeys`. */
  lemma RemoveConfigKeys(items: map<string, Item>)
    ensures items - {PatKey} - {GistIdKey} - {UsernameKey} - {LastSyncKey} - {UserInfoKey} - {AutoSyncKey}
      == items - ConfigKeys
  {
  }

  lemma ConfigKeysExcluded()
    ensures forall k | k in ConfigKeys :: !Included(k)
    ensures !Included(DeviceIdKey)
  {
    forall k | k in ConfigKeys
      ensures !Included(k)
    {
      assert k[..7] == "github_";
      NotIncludedWhenContains(k, "github_", 0);
    }
  }

  /** Two cell maps that agree on every included key give the same records. */
  lemma RecordsAgree(a: map<string, Item>, b: map<string, Item>)
    requires forall k | Included(k) :: Lookup(a, k) == Lookup(b, k)
    ensures Records(a) == Records(b)
  {
    assert forall k | Included(k) :: (k in a <==> Lookup(a, k).Some?) && (k in b <==> Lookup(b, k).Some?);
  }

  /** Writing the settings never changes the snapshot's records. */
  lemma RecordsIgnoreSaved(items: map<string, Item>, c: Config)
    ensures Records(Saved(items, c)) == Records(items)
  {
    ConfigKeysExcluded();
    SavedKeepsOthers(items, c);
    RecordsAgree(Saved(items, c), items);
  }

  /** Saving writes no cell outside `ConfigKeys`. */
  lemma SavedKeepsOthers(items: map<string, Item>, c: Config)
    ensures forall k | k !in ConfigKeys :: Lookup(Saved(items, c), k) == Lookup(items, k)
  {
    var r := Saved(items, c);
    forall k | k !in ConfigKeys
      ensures Lookup(r, k) == Lookup(items, k)
    {
      assert k in r <==> k in items;
    }
  }

  /** Removing the settings never changes the snapshot's records. */
  lemma RecordsIgnoreCleared(items: map<string, Item>)
    ensures Records(items - ConfigKeys) == Records(items)
  {
    ConfigKeysExcluded();
    RecordsAgree(items - ConfigKeys, items);
  }

  /** Writing the device id never changes the snapshot's records. */
  lemma RecordsIgnoreDeviceId(items: map<string, Item>, now: int, randomPart: string)
    ensures Records(WithDeviceId(items, now, randomPart)) == Records(items)
  {
    RecordsAgree(WithDeviceId(items, now, randomPart), items);
  }

  // ---------------------------------------------------------------------
  // Write-back of the merge
  // ---------------------------------------------------------------------

  /**
   * The cells after the write loop of `mergeData`: each merged key is stored
   * as JSON text, except the keys whose `setItem` throws (`failing`), which
   * are skipped without ending the loop.
   */
  function WriteBack(items: map<string, Item>, merged: map<string, Json>, failing: set<string>): (r: map<string, Item>)
    ensures forall k | k in merged && k !in failing :: Lookup(r, k) == Some(Doc(merged[k]))
    ensures forall k | k !in merged || k in failing :: Lookup(r, k) == Lookup(items, k)
  {
    map k | k in items.Keys + (merged.Keys - failing) :: if k in merged && k !in failing then Doc(merged[k]) else items[k]
  }

  /**
   * A device that restores a snapshot of its own records ends with the cells
   * it had, when every record identity is a primitive, no category is a
   * top-level list and, under the rule as written, every truthy date entry
   * is a list (so no island interactions and no important dates).
   */
  lemma SelfRestoreChangesNothing(rule: Merge.DayRule, items: map<string, Item>, nowIso: string, deviceId: string,
                                  failing: set<string>)
    requires forall k | k in Records(items) :: Merge.SelfMergeable(rule, Records(items)[k])
    ensures Merge.MergeData(rule, Records(items), Snapshot(Records(items), nowIso, deviceId)) == Ok(Records(items))
    ensures WriteBack(items, Records(items), failing) == items
  {
    Merge.MergeRecordsSelf(rule, Records(items));
    var r := WriteBack(items, Records(items), failing);
    LookupExtensional(r, items);
  }

  // ---------------------------------------------------------------------
  // Choosing the gist, dispatching, and the auto-sync gate
  // ---------------------------------------------------------------------

  datatype Gist = Gist(id: string, description: Option<string>, updatedAt: int)

  /** `gist.description && gist.description.includes('island')` */
  predicate IsIslandGist(g: Gist) {
    g.description.Some? && Contains(g.description.value, "island")
  }

  /**
   * The gist `findOrCreateGist` keeps: the island gists sorted newest first
   * by a stable sort, then the first one.
   */
  function SelectGist(gists: seq<Gist>): (r: Option<Gist>)
    ensures r.None? <==> forall i | 0 <= i < |gists| :: !IsIslandGist(gists[i])
    ensures r.Some? ==>
              IsIslandGist(r.value) &&
              forall i | 0 <= i < |gists| && IsIslandGist(gists[i]) :: gists[i].updatedAt <= r.value.updatedAt
    ensures r.Some? ==>
              exists i | 0 <= i < |gists| ::
                gists[i] == r.value &&
                forall j | 0 <= j < i && IsIslandGist(gists[j]) :: gists[j].updatedAt < r.value.updatedAt
    decreases |gists|
  {
    if |gists| == 0 then None
    else
      var rest := SelectGist(gists[1..]);
      if IsIslandGist(gists[0]) && (rest.None? || gists[0].updatedAt >= rest.value.updatedAt) then
        Some(gists[0])
      else if rest.None? then
        assert forall i | 1 <= i < |gists| :: gists[i] == gists[1..][i - 1];
        None
      else
        FirstNewestShifts(gists, rest.value);
        assert forall i | 1 <= i < |gists| :: gists[i] == gists[1..][i - 1];
        rest
  }

  /** A gist that is first among the newest of `gists[1..]` keeps that place in `gists` when the head is older or no island gist. */
  lemma FirstNewestShifts(gists: seq<Gist>, g: Gist)
    requires |gists| > 0 && !(IsIslandGist(gists[0]) && gists[0].updatedAt >= g.updatedAt)
    requires exists i | 0 <= i < |gists[1..]| ::
               gists[1..][i] == g &&
               forall j | 0 <= j < i && IsIslandGist(gists[1..][j]) :: gists[1..][j].updatedAt < g.updatedAt
    ensures exists i | 0 <= i < |gists| ::
              gists[i] == g &&
              forall j | 0 <= j < i && IsIslandGist(gists[j]) :: gists[j].updatedAt < g.updatedAt
  {
    var i :| 0 <= i < |gists[1..]| && gists[1..][i] == g &&
      forall j | 0 <= j < i && IsIslandGist(gists[1..][j]) :: gists[1..][j].updatedAt < g.updatedAt;
    assert gists[i + 1] == g;
    forall j | 0 <= j < i + 1 && IsIslandGist(gists[j])
      ensures gists[j].updatedAt < g.updatedAt
    {
      if j > 0 {
        assert gists[j] == gists[1..][j - 1];
      }
    }
  }

  /** `findOrCreateGist()`: the listing's outcome, then the chosen gist or the outcome of creating one. */
  function FindOrCreateGist(listing: Result<seq<Gist>, string>, created: Result<string, string>): (r: Result<string, string>)
    ensures listing.Err? ==> r == Err(listing.error)
    ensures listing.Ok? && SelectGist(listing.value).Some? ==> r == Ok(SelectGist(listing.value).value.id)
    ensures listing.Ok? && SelectGist(listing.value).None? ==> r == created
  {
    match listing
    case Err(m) => Err(m)
    case Ok(gists) =>
      match SelectGist(gists)
      case Some(g) => Ok(g.id)
      case None => created
  }

  /** The object `sync(operation)` resolves to; `message` is None for a runtime error's own text. */
  datatype SyncReport = SyncReport(success: bool, message: Option<string>, operation: Option<string>, time: Option<Option<Item>>)

  /**
   * `sync(operation)`, given whether the manager is connected and the outcome
   * of the upload or download it runs; an unknown operation resolves to
   * `undefined` (None).
   */
  function SyncDispatch(connected: bool, operation: string, outcome: Result<bool, SyncError>, lastSync: Option<Item>)
    : (r: Option<SyncReport>)
    ensures !connected ==> r == Some(SyncReport(false, Some(SyncNotConnected), None, None))
    ensures connected && operation != "upload" && operation != "auto" && operation != "download" ==> r.None?
    ensures connected && (operation == "upload" || operation == "auto") && outcome.Ok? ==>
      r == Some(SyncReport(true, Some("数据上传成功"), Some("upload"), Some(lastSync)))
    ensures connected && operation == "download" && outcome.Ok? ==>
      r == Some(SyncReport(true, Some("数据下载成功"), Some("download"), Some(lastSync)))
    ensures connected && (operation == "upload" || operation == "auto" || operation == "download") && outcome.Err? ==>
      r == Some(SyncReport(false, if outcome.error.Message? then Some(outcome.error.text) else None, Some(operation), None))
  {
    if !connected then Some(SyncReport(false, Some(SyncNotConnected), None, None))
    else if operation != "upload" && operation != "auto" && operation != "download" then None
    else match outcome
      case Err(Message(m)) => Some(SyncReport(false, Some(m), Some(operation), None))
      case Err(Thrown(_)) => Some(SyncReport(false, None, Some(operation), None))
      case Ok(_) =>
        if operation == "download" then Some(SyncReport(true, Some("数据下载成功"), Some("download"), Some(lastSync)))
        else Some(SyncReport(true, Some("数据上传成功"), Some("upload"), Some(lastSync)))
  }

  /** `new Date(this.lastSync)` in milliseconds, when `lastSync` is truthy. */
  datatype SyncTime = Never | InvalidDate | At(ms: int)

  /** The test in `autoSyncIfNeeded` that decides to run `sync('auto')`. */
  predicate AutoSyncDue(connected: bool, isAutoSync: bool, last: SyncTime, now: int) {
    connected && isAutoSync && (last.Never? || (last.At? && now - last.ms > AutoSyncInterval))
  }

  /** No automatic sync within thirty minutes of the last one, nor after an unreadable time. */
  lemma AutoSyncWaits(connected: bool, isAutoSync: bool, last: SyncTime, now: int)
    ensures last.At? && now - last.ms <= 30 * 60 * 1000 ==> !AutoSyncDue(connected, isAutoSync, last, now)
    ensures last.InvalidDate? ==> !AutoSyncDue(connected, isAutoSync, last, now)
    ensures !connected || !isAutoSync ==> !AutoSyncDue(connected, isAutoSync, last, now)
    ensures connected && isAutoSync && last.Never? ==> AutoSyncDue(connected, isAutoSync, last, now)
  {
  }

  /** Once due, a sync stays due as time passes. */
  lemma AutoSyncMonotone(connected: bool, isAutoSync: bool, last: SyncTime, now: int, later: int)
    requires now <= later && AutoSyncDue(connected, isAutoSync, last, now)
    ensures AutoSyncDue(connected, isAutoSync, last, later)
  {
  }

  // ---------------------------------------------------------------------
  // The manager
  // ---------------------------------------------------------------------

  /** What the GET of the gist answered: its status and the `island-data.json` file. */
  datatype GistFile = NoFile | NoContent | Content(text: string)
  datatype GistResponse = GistResponse(ok: bool, status: int, file: GistFile)

  class GitHubSyncManager {
    const storage: LocalStorage
    var pat: Option<Item>
    var gistId: Option<Item>
    var username: Option<Item>
    var lastSync: Option<Item>
    var userInfo: Json
    var isAutoSync: bool

    function State(): Config
      reads this
    {
      Config(pat, gistId, username, lastSync, userInfo, isAutoSync)
    }

    /** `isConnected()` */
    function IsConnected(): (b: bool)
      reads this
      ensures b <==> Present(pat)
    {
      Present(pat)
    }

    constructor (storage: LocalStorage)
      ensures this.storage == storage
      ensures State() == Loaded(storage.items, Config(None, None, None, None, Obj(map[]), false))
    {
      this.storage := storage;
      pat := None;
      gistId := None;
      username := None;
      lastSync := None;
      userInfo := Obj(map[]);
      isAutoSync := false;
      new;
      LoadConfig();
    }

    method LoadConfig()
      modifies this
      ensures State() == Loaded(storage.items, old(State()))
    {
      pat := storage.GetItem(PatKey);
      gistId := storage.GetItem(GistIdKey);
      username := storage.GetItem(UsernameKey);
      lastSync := storage.GetItem(LastSyncKey);
      isAutoSync := IsTrueText(storage.GetItem(AutoSyncKey));
      var info := storage.GetItem(UserInfoKey);
      if Present(info) {
        var parsed := ParseItem(info.value);
        if parsed.Ok? {
          userInfo := parsed.value;
        } else {
          userInfo := Obj(map[]);
        }
      }
    }

    method SaveConfig()
      modifies storage
      ensures storage.items == Saved(old(storage.items), State())
    {
      if Present(pat) {
        storage.SetItem(PatKey, pat.value);
      }
      if Present(gistId) {
        storage.SetItem(GistIdKey, gistId.value);
      }
      if Present(username) {
        storage.SetItem(UsernameKey, username.value);
      }
      if Present(lastSync) {
        storage.SetItem(LastSyncKey, lastSync.value);
      }
      storage.SetItem(UserInfoKey, Doc(userInfo));
      storage.SetItem(AutoSyncKey, BoolText(isAutoSync));
    }

    method ClearConfig()
      modifies this, storage
      ensures storage.items == old(storage.items) - ConfigKeys
      ensures State() == Config(None, None, None, None, Obj(map[]), false)
      ensures !IsConnected()
    {
      ghost var start := storage.items;
      storage.RemoveItem(PatKey);
      storage.RemoveItem(GistIdKey);
      storage.RemoveItem(UsernameKey);
      storage.RemoveItem(LastSyncKey);
      storage.RemoveItem(UserInfoKey);
      storage.RemoveItem(AutoSyncKey);
      RemoveConfigKeys(start);
      pat := None;
      gistId := None;
      username := None;
      userInfo := Obj(map[]);
      lastSync := None;
      isAutoSync := false;
    }

    /** `setAutoSync(enabled)`; the interval timer it starts is not modelled. */
    method SetAutoSync(enabled: bool)
      modifies this, storage
      ensures State() == old(State()).(isAutoSync := enabled)
      ensures storage.items == Saved(old(storage.items), State())
    {
      isAutoSync := enabled;
      SaveConfig();
    }

    /** `getDeviceId()` */
    method GetDeviceId(now: int, randomPart: string) returns (id: Item)
      modifies storage
      ensures storage.items == WithDeviceId(old(storage.items), now, randomPart)
      ensures Lookup(storage.items, DeviceIdKey) == Some(id)
    {
      var cell := storage.GetItem(DeviceIdKey);
      if Present(cell) {
        return cell.value;
      }
      id := Plain(FreshDeviceId(now, randomPart));
      storage.SetItem(DeviceIdKey, id);
    }

    /** The loop of `collectAllData` over `Object.keys(localStorage)`. */
    method CollectRecords() returns (records: map<string, Json>)
      ensures records == Records(storage.items)
    {
      records := map[];
      var todo := storage.items.Keys;
      while todo != {}
        invariant todo <= storage.items.Keys
        invariant records == RecordsOf(storage.items, storage.items.Keys - todo)
        decreases todo
      {
        var k :| k in todo;
        var cell := storage.items[k];
        if Included(k) && cell.Doc? {
          records := records[k := cell.value];
        }
        todo := todo - {k};
        assert records == RecordsOf(storage.items, storage.items.Keys - todo);
      }
    }

    /** `collectAllData()` */
    method CollectAllData(nowIso: string, now: int, randomPart: string, stringify: Json -> string) returns (data: Json)
      modifies storage
      ensures storage.items == WithDeviceId(old(storage.items), now, randomPart)
      ensures data == Snapshot(Records(old(storage.items)), nowIso, ItemText(storage.items[DeviceIdKey], stringify))
    {
      var id := GetDeviceId(now, randomPart);
      var records := CollectRecords();
      RecordsIgnoreDeviceId(old(storage.items), now, randomPart);
      data := Snapshot(records, nowIso, ItemText(id, stringify));
    }

    /**
     * `mergeData(remoteData)`: the local records, the merge, then one
     * `setItem` per merged key; `failing` are the keys whose `setItem` throws.
     */
    method MergeData(remoteData: Json, now: int, randomPart: string, failing: set<string>)
      returns (r: Result<map<string, Json>, JsError>)
      modifies storage
      ensures r == Merge.MergeData(Merge.AsWritten, Records(old(storage.items)), remoteData)
      ensures r.Ok? ==> storage.items == WriteBack(WithDeviceId(old(storage.items), now, randomPart), r.value, failing)
      ensures r.Err? ==> storage.items == WithDeviceId(old(storage.items), now, randomPart)
    {
      var _ := GetDeviceId(now, randomPart);
      var local := CollectRecords();
      RecordsIgnoreDeviceId(old(storage.items), now, randomPart);
      if remoteData.Null? {
        return Err(TypeError);
      }
      var records := Member(remoteData, "records");
      var merged: map<string, Json> := map[];
      if records.Some? && Truthy(records.value) {
        var m := Merge.MergeRecordsLoop(Merge.AsWritten, local, records.value);
        if m.Err? {
          return Err(m.error);
        }
        merged := m.value;
      }
      WriteMerged(merged, failing);
      r := Ok(merged);
    }

    /** The `setItem` loop of `mergeData` over the merged keys; `failing` are the keys whose `setItem` throws. */
    method WriteMerged(merged: map<string, Json>, failing: set<string>)
      modifies storage
      ensures storage.items == WriteBack(old(storage.items), merged, failing)
    {
      ghost var start := storage.items;
      var todo := merged.Keys;
      while todo != {}
        invariant todo <= merged.Keys
        invariant forall k ::
                    Lookup(storage.items, k) ==
                    if k in merged && k !in failing && k !in todo then Some(Doc(merged[k])) else Lookup(start, k)
        decreases todo
      {
        var k :| k in todo;
        if k !in failing {
          storage.SetItem(k, Doc(merged[k]));
        }
        todo := todo - {k};
      }
      LookupExtensional(storage.items, WriteBack(start, merged, failing));
    }

    /** `downloadData()`, with the GET's answer as a parameter. */
    method DownloadData(response: GistResponse, parse: string -> Option<Json>, now: int, randomPart: string,
                        nowIso: string, failing: set<string>)
      returns (r: Result<bool, SyncError>)
      modifies this, storage
      ensures !old(IsConnected()) ==> r == Err(Message(NotConnected))
      ensures old(IsConnected()) && !old(Present(gistId)) ==> r == Err(Message(NoGist))
      ensures old(IsConnected()) && old(Present(gistId)) && !response.ok ==>
        r == Err(Message(if response.status == 404 then GistDeleted else "下载失败: " + IntToString(response.status)))
      ensures old(IsConnected()) && old(Present(gistId)) && response.ok ==>
        match response.file
        case NoFile => r == Err(Thrown(TypeError))
        case NoContent => r == Err(Message(SnapshotCodec.DecryptFailed))
        case Content(text) =>
          match SnapshotCodec.DecryptData(text, parse)
          case Err(m) => r == Err(Message(m))
          case Ok(remote) =>
            match Merge.MergeData(Merge.AsWritten, Records(old(storage.items)), remote)
            case Err(e) => r == Err(Thrown(e))
            case Ok(_) => r == Ok(true)
      ensures r.Err? ==> State() == old(State())
      ensures r.Err? && (r.error.Message? || response.file.NoFile?) ==> storage.items == old(storage.items)
      ensures r.Err? && r.error.Thrown? && !response.file.NoFile? ==>
                storage.items == WithDeviceId(old(storage.items), now, randomPart)
      ensures r.Ok? ==>
                response.file.Content? && SnapshotCodec.DecryptData(response.file.text, parse).Ok? &&
                var start := WithDeviceId(old(storage.items), now, randomPart);
                var merged := Merge.MergeData(Merge.AsWritten, Records(old(storage.items)),
                                              SnapshotCodec.DecryptData(response.file.text, parse).value);
                merged.Ok? &&
                State() == old(State()).(lastSync := Some(Plain(nowIso))) &&
                storage.items == Saved(WriteBack(start, merged.value, failing), State())
    {
      if !IsConnected() {
        return Err(Message(NotConnected));
      }
      if !Present(gistId) {
        return Err(Message(NoGist));
      }
      if !response.ok {
        if response.status == 404 {
          return Err(Message(GistDeleted));
        }
        return Err(Message("下载失败: " + IntToString(response.status)));
      }
      if response.file.NoFile? {
        return Err(Thrown(TypeError));
      }
      if response.file.NoContent? {
        return Err(Message(SnapshotCodec.DecryptFailed));
      }
      var remote := SnapshotCodec.DecryptData(response.file.text, parse);
      if remote.Err? {
        return Err(Message(remote.error));
      }
      var merged := MergeData(remote.value, now, randomPart, failing);
      if merged.Err? {
        return Err(Thrown(merged.error));
      }
      lastSync := Some(Plain(nowIso));
      SaveConfig();
      return Ok(true);
    }

    /**
     * `uploadData()`: `listing`/`created` are the outcomes of the gist calls
     * made when no gist id is set; `sent` is the content of the PATCH.
     */
    method UploadData(listing: Result<seq<Gist>, string>, created: Result<string, string>,
                      patchOk: bool, patchStatus: int,
                      nowIso: string, now: int, randomPart: string, stringify: Json -> string)
      returns (r: Result<bool, SyncError>, sent: Option<string>)
      modifies this, storage
      ensures !old(IsConnected()) ==> r == Err(Message(NotConnected)) && sent.None?
      ensures old(IsConnected()) && !old(Present(gistId)) && FindOrCreateGist(listing, created).Err? ==>
        r == Err(Message(FindOrCreateGist(listing, created).error)) && sent.None?
      ensures sent.Some? ==> sent.value == SnapshotCodec.EncryptData(
        Snapshot(Records(old(storage.items)), nowIso, ItemText(Lookup(WithDeviceId(old(storage.items), now, randomPart), DeviceIdKey).value, stringify)),
        stringify)
      ensures sent.Some? && !patchOk ==> r == Err(Message("上传失败: " + IntToString(patchStatus)))
      ensures old(IsConnected()) && (old(Present(gistId)) || FindOrCreateGist(listing, created).Ok?) ==> sent.Some?
      ensures r.Ok? <==> sent.Some? && patchOk
      ensures old(IsConnected()) && !old(Present(gistId)) && FindOrCreateGist(listing, created).Ok? ==>
        gistId == Some(Plain(FindOrCreateGist(listing, created).value))
      ensures !(old(IsConnected()) && !old(Present(gistId)) && FindOrCreateGist(listing, created).Ok?) ==> gistId == old(gistId)
      ensures r.Err? ==> State() == old(State()).(gistId := gistId)
      ensures r.Ok? ==> State() == old(State()).(gistId := gistId, lastSync := Some(Plain(nowIso)))
      ensures sent.None? ==>
        storage.items == if old(IsConnected()) && listing.Ok? then WithDeviceId(old(storage.items), now, randomPart) else old(storage.items)
      ensures sent.Some? && !patchOk ==> storage.items == WithDeviceId(old(storage.items), now, randomPart)
      ensures r.Ok? ==> storage.items == Saved(WithDeviceId(old(storage.items), now, randomPart), State())
    {
      sent := None;
      if !IsConnected() {
        return Err(Message(NotConnected)), sent;
      }
      ghost var start := storage.items;
      if !Present(gistId) {
        var found := FindOrCreate(listing, created, now, randomPart);
        if found.Err? {
          return Err(Message(found.error)), sent;
        }
      }
      DeviceIdKept(start, now, randomPart, now, randomPart);
      RecordsIgnoreDeviceId(start, now, randomPart);
      var text;
      r, text := PatchSnapshot(patchOk, patchStatus, nowIso, now, randomPart, stringify);
      sent := Some(text);
    }

    /**
     * The part of `uploadData` after the gist is known: the snapshot, its
     * encryption, the PATCH (whose answer is a parameter), then `lastSync`
     * and `saveConfig()`; `sent` is the content of the PATCH.
     */
    method PatchSnapshot(patchOk: bool, patchStatus: int, nowIso: string, now: int, randomPart: string,
                         stringify: Json -> string)
      returns (r: Result<bool, SyncError>, sent: string)
      modifies this, storage
      ensures sent == SnapshotCodec.EncryptData(
        Snapshot(Records(old(storage.items)), nowIso, ItemText(Lookup(WithDeviceId(old(storage.items), now, randomPart), DeviceIdKey).value, stringify)),
        stringify)
      ensures !patchOk ==>
        r == Err(Message("上传失败: " + IntToString(patchStatus))) &&
        State() == old(State()) && storage.items == WithDeviceId(old(storage.items), now, randomPart)
      ensures patchOk ==>
        r == Ok(true) && State() == old(State()).(lastSync := Some(Plain(nowIso))) &&
        storage.items == Saved(WithDeviceId(old(storage.items), now, randomPart), State())
    {
      var data := CollectAllData(nowIso, now, randomPart, stringify);
      sent := SnapshotCodec.EncryptData(data, stringify);
      if !patchOk {
        return Err(Message("上传失败: " + IntToString(patchStatus))), sent;
      }
      lastSync := Some(Plain(nowIso));
      SaveConfig();
      r := Ok(true);
    }

    /**
     * `findOrCreateGist()` as `uploadData` calls it, connected and with no
     * gist id: the listing's error, or the chosen gist; with no island gist
     * the POST that creates one carries `getDeviceId()`.
     */
    method FindOrCreate(listing: Result<seq<Gist>, string>, created: Result<string, string>, now: int, randomPart: string)
      returns (found: Result<string, string>)
      requires IsConnected() && !Present(gistId)
      modifies this, storage
      ensures found == FindOrCreateGist(listing, created)
      ensures found.Ok? ==> gistId == Some(Plain(found.value))
      ensures found.Err? ==> gistId == old(gistId)
      ensures State() == old(State()).(gistId := gistId)
      ensures storage.items ==
        if listing.Ok? && SelectGist(listing.value).None? then WithDeviceId(old(storage.items), now, randomPart)
        else old(storage.items)
    {
      if listing.Ok? && SelectGist(listing.value).None? {
        var _ := GetDeviceId(now, randomPart);
      }
      found := FindOrCreateGist(listing, created);
      if found.Ok? {
        gistId := Some(Plain(found.value));
      }
    }

    /** `autoSyncIfNeeded()` decides to sync; `last` is `new Date(this.lastSync)` when `lastSync` is truthy. */
    predicate AutoSyncNeeded(last: SyncTime, now: int)
      reads this
    {
      AutoSyncDue(IsConnected(), isAutoSync, last, now)
    }
  }
}
