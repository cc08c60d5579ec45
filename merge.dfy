/**
 * The restore-time merge of the sync manager: remote records are reconciled
 * with the local ones key by key, then date by date, and two lists for the
 * same date are concatenated, dropping remote records whose identity
 * (`timestamp || date || ''`) was already seen.
 */
module Merge {
  import opened Wrappers
  import opened JsonModel

  /** `r.timestamp || r.date || ''` for a record that is not `null`. */
  function Key(r: Json): (id: Json)
    requires !r.Null?
    ensures Truthy(id) || id == Str("")
  {
    var t, d := Member(r, "timestamp"), Member(r, "date");
    if t.Some? && Truthy(t.value) then t.value
    else if d.Some? && Truthy(d.value) then d.value
    else Str("")
  }

  /** Reading `.timestamp` of a `null` record throws. */
  function Identity(r: Json): (res: Result<Json, JsError>)
    ensures res.Err? <==> r.Null?
    ensures res.Err? ==> res.error == TypeError
    ensures res.Ok? ==> res.value == Key(r)
  {
    if r.Null? then Err(TypeError) else Ok(Key(r))
  }

  /**
   * A `Set` finds a primitive again by value; an identity that is an object
   * or a list is a fresh reference, equal to no other record's.
   */
  predicate IsPrimitive(id: Json) {
    !id.Obj? && !id.Arr?
  }

  predicate NoNull(list: seq<Json>) {
    forall i :: 0 <= i < |list| ==> !list[i].Null?
  }

  /** The identities of a list of non-null records. */
  function Ids(list: seq<Json>): set<Json>
    requires NoNull(list)
  {
    set i | 0 <= i < |list| :: Key(list[i])
  }

  /** `new Set(localDay.map(r => r.timestamp || r.date || ''))` */
  function AllIds(list: seq<Json>): (r: Result<set<Json>, JsError>)
    ensures r.Ok? <==> NoNull(list)
    ensures r.Ok? ==> r.value == Ids(list)
    ensures r.Err? ==> r.error == TypeError
    decreases |list|
  {
    if |list| == 0 then Ok({})
    else
      var prefix := list[..|list| - 1];
      var ids := AllIds(prefix);
      var last := Identity(list[|list| - 1]);
      if ids.Err? || last.Err? then
        assert !NoNull(list) by {
          if ids.Err? {
            assert !NoNull(prefix);
            var i :| 0 <= i < |prefix| && prefix[i].Null?;
            assert list[i] == prefix[i];
          }
        }
        Err(TypeError)
      else
        assert Ids(list) == ids.value + {last.value} by {
          forall x | x in Ids(list)
            ensures x in ids.value + {last.value}
          {
            var i :| 0 <= i < |list| && x == Key(list[i]);
            if i < |list| - 1 {
              assert list[i] == prefix[i];
            }
          }
          forall x | x in ids.value
            ensures x in Ids(list)
          {
            var i :| 0 <= i < |prefix| && x == Key(prefix[i]);
            assert list[i] == prefix[i];
          }
        }
        Ok(ids.value + {last.value})
  }

  /**
   * The remote day's records pushed onto the combined list, in order, and
   * the set of identities seen afterwards: a record is skipped when its
   * identity is a primitive already in the set.
   */
  function AppendRemote(seen: set<Json>, remote: seq<Json>): (r: Result<(seq<Json>, set<Json>), JsError>)
    ensures r.Err? ==> r.error == TypeError
    decreases |remote|
  {
    if |remote| == 0 then Ok(([], seen))
    else
      var acc :- AppendRemote(seen, remote[..|remote| - 1]);
      var r := remote[|remote| - 1];
      var id :- Identity(r);
      if IsPrimitive(id) && id in acc.1 then Ok(acc)
      else Ok((acc.0 + [r], acc.1 + {id}))
  }

  /**
   * The remote record at index `i` is appended: its identity is an object or
   * a list (a fresh reference), or a primitive that is neither seen already
   * nor the identity of an earlier remote record.
   */
  predicate FirstNew(seen: set<Json>, remote: seq<Json>, i: int)
    requires NoNull(remote) && 0 <= i < |remote|
  {
    !IsPrimitive(Key(remote[i])) ||
    (Key(remote[i]) !in seen && forall j | 0 <= j < i :: Key(remote[j]) != Key(remote[i]))
  }

  /** The remote records at exactly the indices where `FirstNew` holds, in their order. */
  function Kept(seen: set<Json>, remote: seq<Json>): seq<Json>
    requires NoNull(remote)
    decreases |remote|
  {
    if |remote| == 0 then []
    else
      var n := |remote| - 1;
      Kept(seen, remote[..n]) + if FirstNew(seen, remote, n) then [remote[n]] else []
  }

  /** Of two remote records with the same new primitive identity, the first is kept and the second dropped. */
  lemma KeptKeepsFirst(seen: set<Json>, a: Json, b: Json)
    requires !a.Null? && !b.Null? && Key(a) == Key(b) && IsPrimitive(Key(a)) && Key(a) !in seen
    ensures Kept(seen, [a, b]) == [a]
  {
    assert [a, b][..1] == [a] && [a][..0] == [];
    assert FirstNew(seen, [a], 0);
    assert Kept(seen, [a]) == [a];
    assert !FirstNew(seen, [a, b], 1) by {
      assert Key([a, b][0]) == Key([a, b][1]);
    }
  }

  /** Two remote records with distinct new primitive identities are both kept, in their order. */
  lemma KeptKeepsOrder(seen: set<Json>, a: Json, b: Json)
    requires !a.Null? && !b.Null? && Key(a) != Key(b) && Key(a) !in seen && Key(b) !in seen
    ensures Kept(seen, [a, b]) == [a, b]
  {
    assert [a, b][..1] == [a] && [a][..0] == [];
    assert FirstNew(seen, [a], 0);
    assert Kept(seen, [a]) == [a];
    assert FirstNew(seen, [a, b], 1);
  }

  /** The combined list of one date: the local list followed by the remote records not yet seen. */
  function Combine(localDay: seq<Json>, remoteDay: seq<Json>): (r: Result<seq<Json>, JsError>)
    ensures r.Ok? <==> NoNull(localDay) && NoNull(remoteDay)
    ensures r.Ok? ==> |r.value| >= |localDay| && r.value[..|localDay|] == localDay
  {
    var seen :- AllIds(localDay);
    AppendRemoteFacts(seen, remoteDay);
    var appended :- AppendRemote(seen, remoteDay);
    assert (localDay + appended.0)[..|localDay|] == localDay;
    Ok(localDay + appended.0)
  }

  /** `Array.isArray(v) ? v : []` */
  function ListOrEmpty(v: Json): seq<Json> {
    if v.Arr? then v.items else []
  }

  /**
   * Same-date merge as written: a value that is not a list counts as `[]`
   * on either side, so a non-list local value is replaced by a list.
   */
  function MergeDayAsWritten(localVal: Json, remoteVal: Json): (r: Result<Json, JsError>)
    ensures r.Ok? <==> NoNull(ListOrEmpty(localVal)) && NoNull(ListOrEmpty(remoteVal))
    ensures r.Ok? ==>
      r.value.Arr? && |r.value.items| >= |ListOrEmpty(localVal)| &&
      r.value.items[..|ListOrEmpty(localVal)|] == ListOrEmpty(localVal)
  {
    var combined :- Combine(ListOrEmpty(localVal), ListOrEmpty(remoteVal));
    Ok(Arr(combined))
  }

  /**
   * Same-date merge as intended: two lists are combined as above; a local
   * value that is not a list (an island-interaction or important-date entry)
   * is kept.
   */
  function MergeDay(localVal: Json, remoteVal: Json): (r: Result<Json, JsError>)
    ensures !localVal.Arr? ==> r == Ok(localVal)
    ensures localVal.Arr? && r.Ok? ==>
      r.value.Arr? && |r.value.items| >= |localVal.items| && r.value.items[..|localVal.items|] == localVal.items
    ensures localVal.Arr? ==> (r.Ok? <==> NoNull(localVal.items) && (remoteVal.Arr? ==> NoNull(remoteVal.items)))
  {
    if !localVal.Arr? then Ok(localVal)
    else
      var remoteDay := if remoteVal.Arr? then remoteVal.items else [];
      var combined :- Combine(localVal.items, remoteDay);
      Ok(Arr(combined))
  }

  /**
   * Which rule merges two truthy entries of the same date: the code as
   * written (`MergeDayAsWritten`), or the corrected rule (`MergeDay`).
   */
  datatype DayRule = AsWritten | Corrected

  function SameDay(rule: DayRule, localVal: Json, remoteVal: Json): Result<Json, JsError> {
    match rule
    case AsWritten => MergeDayAsWritten(localVal, remoteVal)
    case Corrected => MergeDay(localVal, remoteVal)
  }

  /** The merged value of one remote date, given the local map it starts from. */
  function DateValue(rule: DayRule, start: map<string, Json>, rv: map<string, Json>, d: string): Result<Json, JsError>
    requires d in rv
  {
    if d !in start || !Truthy(start[d]) then Ok(rv[d]) else SameDay(rule, start[d], rv[d])
  }

  predicate DateFails(rule: DayRule, start: map<string, Json>, rv: map<string, Json>, d: string) {
    d in rv && DateValue(rule, start, rv, d).Err?
  }

  /** A remote date whose same-date merge with a truthy local entry throws. */
  predicate SameDayFails(rule: DayRule, start: map<string, Json>, rv: map<string, Json>, d: string) {
    d in rv && d in start && Truthy(start[d]) && SameDay(rule, start[d], rv[d]).Err?
  }

  /**
   * The per-date loop over the remote dates `rv`, starting from the local
   * map `start`: an entry only one side has, or that is falsy locally, is
   * taken as it is; two truthy entries meet under `rule`.
   */
  function MergeDateMaps(rule: DayRule, start: map<string, Json>, rv: map<string, Json>): (r: Result<map<string, Json>, JsError>)
    ensures r.Err? <==> exists d | d in rv :: SameDayFails(rule, start, rv, d)
    ensures r.Err? ==> r.error == TypeError
    ensures r.Ok? ==> r.value.Keys == start.Keys + rv.Keys
    ensures r.Ok? ==> forall d | d in start && d !in rv :: r.value[d] == start[d]
    ensures r.Ok? ==> forall d | d in rv && (d !in start || !Truthy(start[d])) :: r.value[d] == rv[d]
    ensures r.Ok? ==> forall d | d in rv && d in start && Truthy(start[d]) :: SameDay(rule, start[d], rv[d]) == Ok(r.value[d])
  {
    assert (exists d | d in rv :: DateFails(rule, start, rv, d)) <==> (exists d | d in rv :: SameDayFails(rule, start, rv, d));
    if exists d | d in rv :: DateFails(rule, start, rv, d) then Err(TypeError)
    else Ok(map d | d in start.Keys + rv.Keys :: if d in rv then DateValue(rule, start, rv, d).value else start[d])
  }

  /**
   * `merged[key] = { ...localRecords }` followed by the per-date loop over
   * `Object.keys(remoteRecords)`; any thrown error ends the merge.
   */
  function MergeDates(rule: DayRule, local: Json, remote: Json): (r: Result<Json, JsError>)
    ensures r.Err? ==> r.error == TypeError
    ensures r.Err? <==> MergeDateMaps(rule, ObjectView(local), ObjectView(remote)).Err?
    ensures r.Ok? ==> r.value.Obj? && r.value.fields.Keys == ObjectView(local).Keys + ObjectView(remote).Keys
    ensures r.Ok? ==> forall d | d in ObjectView(local) && d !in ObjectView(remote) :: r.value.fields[d] == ObjectView(local)[d]
    ensures r.Ok? ==> forall d | d in ObjectView(remote) && (d !in ObjectView(local) || !Truthy(ObjectView(local)[d])) ::
      r.value.fields[d] == ObjectView(remote)[d]
    ensures r.Ok? ==> forall d | d in ObjectView(remote) && d in ObjectView(local) && Truthy(ObjectView(local)[d]) ::
      SameDay(rule, ObjectView(local)[d], ObjectView(remote)[d]) == Ok(r.value.fields[d])
  {
    var m :- MergeDateMaps(rule, ObjectView(local), ObjectView(remote));
    Ok(Obj(m))
  }

  /** The merged value of one remote key: `localRecords` is `localData.records[key]`. */
  function MergeKey(rule: DayRule, local: Option<Json>, remote: Json): (r: Result<Json, JsError>)
    ensures local.None? || !Truthy(local.value) ==> r == Ok(remote)
    ensures !remote.Obj? && !remote.Arr? ==> r == Ok(remote)
    ensures local.Some? && Truthy(local.value) && (remote.Obj? || remote.Arr?) ==> r == MergeDates(rule, local.value, remote)
  {
    if local.None? || !Truthy(local.value) then Ok(remote)
    else if remote.Obj? || remote.Arr? then MergeDates(rule, local.value, remote)
    else Ok(remote)
  }

  function KeyValue(rule: DayRule, local: map<string, Json>, rv: map<string, Json>, k: string): Result<Json, JsError>
    requires k in rv
  {
    MergeKey(rule, if k in local then Some(local[k]) else None, rv[k])
  }

  /** A remote key merged date by date: both sides hold it, the local value is truthy and the remote one is an object or list. */
  predicate DateByDate(local: map<string, Json>, rv: map<string, Json>, k: string) {
    k in rv && k in local && Truthy(local[k]) && (rv[k].Obj? || rv[k].Arr?)
  }

  /**
   * The `merged` object built from the local records and the remote
   * `records` value: it holds exactly the remote keys.
   */
  function MergeRecords(rule: DayRule, local: map<string, Json>, remote: Json): (r: Result<map<string, Json>, JsError>)
    ensures r.Err? <==>
      exists k | k in ObjectView(remote) ::
        DateByDate(local, ObjectView(remote), k) && MergeDates(rule, local[k], ObjectView(remote)[k]).Err?
    ensures r.Ok? ==> r.value.Keys == ObjectView(remote).Keys
    ensures r.Ok? ==> forall k | k in ObjectView(remote) && !DateByDate(local, ObjectView(remote), k) ::
      r.value[k] == ObjectView(remote)[k]
    ensures r.Ok? ==> forall k | k in ObjectView(remote) && DateByDate(local, ObjectView(remote), k) ::
      MergeDates(rule, local[k], ObjectView(remote)[k]) == Ok(r.value[k])
  {
    MergeRecordMap(rule, local, ObjectView(remote))
  }

  /**
   * The key-level merge over the remote keys `rv`: a key merged date by date
   * gets `MergeDates`, every other key the remote value; the first key whose
   * merge throws makes it throw.
   */
  function MergeRecordMap(rule: DayRule, local: map<string, Json>, rv: map<string, Json>): (r: Result<map<string, Json>, JsError>)
    ensures r.Err? <==> exists k | k in rv :: DateByDate(local, rv, k) && MergeDates(rule, local[k], rv[k]).Err?
    ensures r.Err? ==> r.error == TypeError
    ensures r.Ok? ==> r.value.Keys == rv.Keys
    ensures r.Ok? ==> forall k | k in rv && !DateByDate(local, rv, k) :: r.value[k] == rv[k]
    ensures r.Ok? ==> forall k | k in rv && DateByDate(local, rv, k) :: MergeDates(rule, local[k], rv[k]) == Ok(r.value[k])
  {
    var vals := KeyValues(rule, local, rv);
    if exists k | k in vals :: vals[k].Err? then Err(TypeError)
    else Ok(map k | k in vals :: vals[k].value)
  }

  /** The outcome of merging each remote key. */
  function KeyValues(rule: DayRule, local: map<string, Json>, rv: map<string, Json>): (vals: map<string, Result<Json, JsError>>)
    ensures vals.Keys == rv.Keys
  {
    map k | k in rv :: KeyValue(rule, local, rv, k)
  }

  /** Outcomes that all succeed collect into the map of their values. */
  lemma CollectValues(vals: map<string, Result<Json, JsError>>, merged: map<string, Json>)
    requires vals.Keys == merged.Keys
    requires forall k | k in merged :: vals[k] == Ok(merged[k])
    ensures !(exists k | k in vals :: vals[k].Err?)
    ensures (map k | k in vals :: vals[k].value) == merged
  {
  }

  /** `mergeData(remoteData)` up to the write-back: reading `.records` of `null` throws; no records merge nothing. */
  function MergeData(rule: DayRule, local: map<string, Json>, remoteData: Json): (r: Result<map<string, Json>, JsError>)
    ensures remoteData.Null? ==> r == Err(TypeError)
    ensures !remoteData.Null? && (Member(remoteData, "records").None? || !Truthy(Member(remoteData, "records").value)) ==>
      r == Ok(map[])
    ensures !remoteData.Null? && Member(remoteData, "records").Some? && Truthy(Member(remoteData, "records").value) ==>
      r == MergeRecords(rule, local, Member(remoteData, "records").value)
  {
    if remoteData.Null? then Err(TypeError)
    else
      var records := Member(remoteData, "records");
      if records.None? || !Truthy(records.value) then Ok(map[])
      else MergeRecords(rule, local, records.value)
  }

  // ---------------------------------------------------------------------
  // Properties of the same-date merge
  // ---------------------------------------------------------------------

  /**
   * The appended records are exactly `Kept`: the remote records, in order,
   * at the indices where `FirstNew` holds; so each primitive identity among
   * them is new and appears once, and every remote identity ends up seen.
   */
  lemma {:induction false} AppendRemoteFacts(seen: set<Json>, remote: seq<Json>)
    ensures AppendRemote(seen, remote).Ok? <==> NoNull(remote)
    ensures AppendRemote(seen, remote).Ok? ==>
      var (app, s) := AppendRemote(seen, remote).value;
      NoNull(app) && s == seen + Ids(app) &&
      (forall x | x in app :: x in remote) &&
      (forall i | 0 <= i < |app| && IsPrimitive(Key(app[i])) :: Key(app[i]) !in seen) &&
      (forall i, j | 0 <= i < j < |app| && IsPrimitive(Key(app[j])) :: Key(app[i]) != Key(app[j])) &&
      (forall x | x in remote :: Key(x) in s) &&
      app == Kept(seen, remote) && s == seen + Ids(remote)
    decreases |remote|
  {
    AppendRemoteKept(seen, remote);
    if |remote| > 0 {
      var prefix := remote[..|remote| - 1];
      var r := remote[|remote| - 1];
      AppendRemoteFacts(seen, prefix);
      assert remote == prefix + [r];
      if AppendRemote(seen, prefix).Err? {
        var i :| 0 <= i < |prefix| && prefix[i].Null?;
        assert remote[i] == prefix[i];
      } else if !r.Null? {
        var (app, s) := AppendRemote(seen, prefix).value;
        var id := Key(r);
        if !(IsPrimitive(id) && id in s) {
          var app' := app + [r];
          assert Ids(app') == Ids(app) + {id} by {
            IdsConcat(app, [r]);
            assert Ids([r]) == {id};
          }
          forall i, j | 0 <= i < j < |app'| && IsPrimitive(Key(app'[j]))
            ensures Key(app'[i]) != Key(app'[j])
          {
            if j == |app| {
              assert Key(app'[i]) in Ids(app) by {
                assert app'[i] == app[i];
              }
            } else {
              assert app'[i] == app[i] && app'[j] == app[j];
            }
          }
          forall i | 0 <= i < |app'| && IsPrimitive(Key(app'[i]))
            ensures Key(app'[i]) !in seen
          {
            if i < |app| {
              assert app'[i] == app[i];
            }
          }
        }
      }
    }
  }

  /** The records the remote loop appends are `Kept`, and it has seen every remote identity. */
  lemma {:induction false} AppendRemoteKept(seen: set<Json>, remote: seq<Json>)
    ensures AppendRemote(seen, remote).Ok? ==>
      NoNull(remote) &&
      AppendRemote(seen, remote).value == (Kept(seen, remote), seen + Ids(remote))
    decreases |remote|
  {
    if |remote| > 0 && AppendRemote(seen, remote).Ok? {
      var n := |remote| - 1;
      var prefix, r := remote[..n], remote[n];
      AppendRemoteKept(seen, prefix);
      assert remote == prefix + [r];
      assert !r.Null?;
      IdsConcat(prefix, [r]);
      assert Ids([r]) == {Key(r)};
      FirstNewIff(seen, prefix, r);
      var (app, s) := AppendRemote(seen, prefix).value;
      assert Kept(seen, remote) == app + if FirstNew(seen, remote, n) then [r] else [];
      assert Identity(r) == Ok(Key(r));
      if FirstNew(seen, remote, n) {
        assert AppendRemote(seen, remote) == Ok((app + [r], s + {Key(r)}));
        assert Kept(seen, remote) == app + [r];
        assert seen + Ids(remote) == s + {Key(r)};
      } else {
        assert AppendRemote(seen, remote) == Ok((app, s));
        assert Kept(seen, remote) == app + [] == app;
        assert seen + Ids(remote) == s + {Key(r)} == s;
      }
    } else if |remote| == 0 {
      assert Ids(remote) == {} && seen + {} == seen;
      assert Kept(seen, remote) == [];
    }
  }

  /** The last remote record is appended iff its identity is not a primitive already among `seen` and the earlier identities. */
  lemma FirstNewIff(seen: set<Json>, prefix: seq<Json>, r: Json)
    requires NoNull(prefix) && !r.Null?
    ensures NoNull(prefix + [r])
    ensures FirstNew(seen, prefix + [r], |prefix|) <==> !(IsPrimitive(Key(r)) && Key(r) in seen + Ids(prefix))
  {
    var remote := prefix + [r];
    assert NoNull(remote) by {
      forall i | 0 <= i < |remote| ensures !remote[i].Null? {
        if i < |prefix| { assert remote[i] == prefix[i]; }
      }
    }
    assert remote[|prefix|] == r;
    if Key(r) in Ids(prefix) {
      var j :| 0 <= j < |prefix| && Key(r) == Key(prefix[j]);
      assert remote[j] == prefix[j];
    }
    forall j | 0 <= j < |prefix| && Key(remote[j]) == Key(r)
      ensures Key(r) in Ids(prefix)
    {
      assert remote[j] == prefix[j];
    }
  }

  /**
   * The same-date rule: the combined list is the local list followed by
   * the `Kept` remote records, none of which repeats a primitive identity
   * of the local list or of an earlier appended record, and every remote
   * identity is among the identities of the combined list.
   */
  lemma CombineAppendsUnseen(localDay: seq<Json>, remoteDay: seq<Json>)
    requires NoNull(localDay) && NoNull(remoteDay)
    ensures Combine(localDay, remoteDay).Ok?
    ensures var c := Combine(localDay, remoteDay).value;
      var app := c[|localDay|..];
      c == localDay + app && NoNull(c) &&
      (forall x | x in app :: x in remoteDay) &&
      (forall i | 0 <= i < |app| && IsPrimitive(Key(app[i])) :: Key(app[i]) !in Ids(localDay)) &&
      (forall i, j | 0 <= i < j < |app| && IsPrimitive(Key(app[j])) :: Key(app[i]) != Key(app[j])) &&
      (forall x | x in remoteDay :: Key(x) in Ids(c)) &&
      app == Kept(Ids(localDay), remoteDay)
  {
    AppendRemoteFacts(Ids(localDay), remoteDay);
    var (app, s) := AppendRemote(Ids(localDay), remoteDay).value;
    var c := localDay + app;
    assert Combine(localDay, remoteDay).value == c;
    assert c[|localDay|..] == app;
    IdsConcat(localDay, app);
    assert NoNull(c) by {
      forall i | 0 <= i < |c| ensures !c[i].Null? {
        if i >= |localDay| { assert c[i] == app[i - |localDay|]; }
      }
    }
  }

  /** The identities of two lists put together. */
  lemma IdsConcat(a: seq<Json>, b: seq<Json>)
    requires NoNull(a) && NoNull(b)
    ensures NoNull(a + b) && Ids(a + b) == Ids(a) + Ids(b)
  {
    var c := a + b;
    assert NoNull(c) by {
      forall i | 0 <= i < |c| ensures !c[i].Null? {
        if i >= |a| { assert c[i] == b[i - |a|]; }
      }
    }
    forall x | x in Ids(c)
      ensures x in Ids(a) + Ids(b)
    {
      var i :| 0 <= i < |c| && x == Key(c[i]);
      if i < |a| {
        assert c[i] == a[i];
      } else {
        assert c[i] == b[i - |a|];
      }
    }
    forall x | x in Ids(a) + Ids(b)
      ensures x in Ids(c)
    {
      if x in Ids(a) {
        var i :| 0 <= i < |a| && x == Key(a[i]);
        assert c[i] == a[i];
      } else {
        var i :| 0 <= i < |b| && x == Key(b[i]);
        assert c[|a| + i] == b[i];
      }
    }
  }

  /** A remote list whose primitive identities are all seen already adds nothing. */
  lemma {:induction false} AppendNothingNew(seen: set<Json>, remote: seq<Json>)
    requires NoNull(remote)
    requires forall i | 0 <= i < |remote| :: IsPrimitive(Key(remote[i])) && Key(remote[i]) in seen
    ensures AppendRemote(seen, remote) == Ok(([], seen))
    decreases |remote|
  {
    if |remote| > 0 {
      AppendNothingNew(seen, remote[..|remote| - 1]);
      assert Key(remote[|remote| - 1]) in seen;
    }
  }

  /** Combining a list with itself gives it back when every identity is a primitive. */
  lemma CombineSelf(day: seq<Json>)
    requires NoNull(day) && forall i | 0 <= i < |day| :: IsPrimitive(Key(day[i]))
    ensures Combine(day, day) == Ok(day)
  {
    forall i | 0 <= i < |day|
      ensures Key(day[i]) in Ids(day)
    {
    }
    AppendNothingNew(Ids(day), day);
    assert day + [] == day;
  }

  /**
   * As written, a same-date entry that is not a list on both sides (an
   * important date, an island-interaction map) comes out as an empty list.
   */
  lemma AsWrittenEmptiesNonListDay(localVal: Json, remoteVal: Json)
    requires !localVal.Arr? && !remoteVal.Arr?
    ensures MergeDayAsWritten(localVal, remoteVal) == Ok(Arr([]))
  {
  }

  /** So merging an important-date entry with itself destroys it. */
  lemma AsWrittenLosesImportantDate()
    ensures var entry := Obj(map["type" := Str("birthday"), "label" := Str("Mum")]);
      MergeDayAsWritten(entry, entry) == Ok(Arr([])) && MergeDay(entry, entry) == Ok(entry)
  {
    AsWrittenEmptiesNonListDay(Obj(map["type" := Str("birthday"), "label" := Str("Mum")]),
                               Obj(map["type" := Str("birthday"), "label" := Str("Mum")]));
  }

  /**
   * `c` is `localDay` followed by the `Kept` records of `remoteDay`, whose
   * identities were not seen, each primitive identity once, and every remote identity
   * is among the identities of `c`.
   */
  ghost predicate AppendsUnseen(localDay: seq<Json>, remoteDay: seq<Json>, c: seq<Json>) {
    NoNull(localDay) && NoNull(remoteDay) && NoNull(c) && |c| >= |localDay| &&
    var app := c[|localDay|..];
    c == localDay + app && NoNull(app) &&
    (forall x | x in app :: x in remoteDay) &&
    (forall i | 0 <= i < |app| && IsPrimitive(Key(app[i])) :: Key(app[i]) !in Ids(localDay)) &&
    (forall i, j | 0 <= i < j < |app| && IsPrimitive(Key(app[j])) :: Key(app[i]) != Key(app[j])) &&
    (forall x | x in remoteDay :: Key(x) in Ids(c)) &&
    app == Kept(Ids(localDay), remoteDay)
  }

  /** As written, a successful same-date merge appends the unseen remote records to the local list or `[]`. */
  lemma AsWrittenDayAppendsUnseen(localVal: Json, remoteVal: Json)
    requires MergeDayAsWritten(localVal, remoteVal).Ok?
    ensures var out := MergeDayAsWritten(localVal, remoteVal).value;
      out.Arr? && AppendsUnseen(ListOrEmpty(localVal), ListOrEmpty(remoteVal), out.items)
  {
    var localDay, remoteDay := ListOrEmpty(localVal), ListOrEmpty(remoteVal);
    CombineAppendsUnseen(localDay, remoteDay);
    var c := Combine(localDay, remoteDay).value;
    var app := c[|localDay|..];
    assert NoNull(app) by {
      forall i | 0 <= i < |app| ensures !app[i].Null? {
        assert app[i] == c[|localDay| + i];
      }
    }
  }

  /**
   * The code as written, at the level of the records: where a key is merged
   * date by date and both sides hold a date whose local entry is truthy, the
   * merged entry is the local list (`[]` for an entry that is not a list)
   * followed by the unseen remote records of that date.
   */
  lemma AsWrittenMergedDay(local: map<string, Json>, rv: map<string, Json>, k: string, d: string)
    requires MergeRecordMap(AsWritten, local, rv).Ok? && DateByDate(local, rv, k)
    requires d in ObjectView(rv[k]) && d in ObjectView(local[k]) && Truthy(ObjectView(local[k])[d])
    ensures var out := MergeRecordMap(AsWritten, local, rv).value[k];
      out.Obj? && d in out.fields && out.fields[d].Arr? &&
      AppendsUnseen(ListOrEmpty(ObjectView(local[k])[d]), ListOrEmpty(ObjectView(rv[k])[d]), out.fields[d].items)
  {
    var out := MergeRecordMap(AsWritten, local, rv).value[k];
    assert MergeDates(AsWritten, local[k], rv[k]) == Ok(out);
    AsWrittenDayAppendsUnseen(ObjectView(local[k])[d], ObjectView(rv[k])[d]);
  }

  // ---------------------------------------------------------------------
  // Merging the local records with themselves
  // ---------------------------------------------------------------------

  /**
   * A date entry the merge returns unchanged when it meets itself: a list
   * of non-null records with primitive identities; as written, every
   * truthy entry has to be such a list.
   */
  predicate SelfMergeableDay(rule: DayRule, e: Json) {
    (rule == AsWritten && Truthy(e) ==> e.Arr?) &&
    (e.Arr? ==> NoNull(e.items) && forall i | 0 <= i < |e.items| :: IsPrimitive(Key(e.items[i])))
  }

  /** A category value the merge returns unchanged when it meets itself on both sides. */
  predicate SelfMergeable(rule: DayRule, v: Json) {
    !v.Arr? && (v.Obj? ==> forall d | d in v.fields :: SelfMergeableDay(rule, v.fields[d]))
  }

  lemma MergeDatesSelf(rule: DayRule, v: Json)
    requires v.Obj? && SelfMergeable(rule, v)
    ensures MergeDates(rule, v, v) == Ok(v)
  {
    var start := v.fields;
    assert ObjectView(v) == start;
    forall d | d in start
      ensures DateValue(rule, start, start, d) == Ok(start[d])
    {
      assert SelfMergeableDay(rule, start[d]);
      if Truthy(start[d]) && start[d].Arr? {
        CombineSelf(start[d].items);
      }
    }
    MergedDates(rule, start, start, start);
  }

  /**
   * Restoring a snapshot of this very device changes nothing, provided no
   * category is a top-level list, every record identity is a primitive and,
   * as written, every truthy date entry is a list.
   */
  lemma MergeRecordsSelf(rule: DayRule, local: map<string, Json>)
    requires forall k | k in local :: SelfMergeable(rule, local[k])
    ensures MergeRecords(rule, local, Obj(local)) == Ok(local)
  {
    assert ObjectView(Obj(local)) == local;
    forall k | k in local
      ensures KeyValues(rule, local, local)[k] == Ok(local[k])
    {
      if Truthy(local[k]) && local[k].Obj? {
        MergeDatesSelf(rule, local[k]);
      }
    }
    MergedRecords(rule, local, local, local);
  }

  /**
   * As written, a device restoring its own snapshot loses its important
   * dates: each entry comes back as `[]`; the corrected rule keeps them.
   */
  lemma AsWrittenSelfRestoreLosesImportantDates()
    ensures var entry := Obj(map["type" := Str("birthday"), "label" := Str("Mum")]);
      var local := map["importantDates" := Obj(map["2024-05-01" := entry])];
      MergeRecords(AsWritten, local, Obj(local)) == Ok(map["importantDates" := Obj(map["2024-05-01" := Arr([])])]) &&
      MergeRecords(Corrected, local, Obj(local)) == Ok(local)
  {
    var entry := Obj(map["type" := Str("birthday"), "label" := Str("Mum")]);
    var dates := map["2024-05-01" := entry];
    var local := map["importantDates" := Obj(dates)];
    var emptied := map["2024-05-01" := Arr([])];
    AsWrittenEmptiesNonListDay(entry, entry);
    MergedDates(AsWritten, dates, dates, emptied);
    assert ObjectView(Obj(dates)) == dates;
    assert MergeDates(AsWritten, Obj(dates), Obj(dates)) == Ok(Obj(emptied));
    assert ObjectView(Obj(local)) == local;
    MergedRecords(AsWritten, local, local, map["importantDates" := Obj(emptied)]);
    assert SelfMergeable(Corrected, Obj(dates)) by {
      assert SelfMergeableDay(Corrected, entry);
    }
    MergeRecordsSelf(Corrected, local);
  }

  // ---------------------------------------------------------------------
  // The loops of `mergeData`
  // ---------------------------------------------------------------------

  /** Builds the combined list of one date with a `Set` of seen identities, as the nested loops do. */
  method CombineDay(localDay: seq<Json>, remoteDay: seq<Json>) returns (r: Result<seq<Json>, JsError>)
    ensures r == Combine(localDay, remoteDay)
  {
    var seen: set<Json> := {};
    for i := 0 to |localDay|
      invariant AllIds(localDay[..i]) == Ok(seen)
    {
      assert localDay[..i + 1][..i] == localDay[..i];
      if localDay[i].Null? {
        assert !NoNull(localDay);
        return Err(TypeError);
      }
      seen := seen + {Key(localDay[i])};
    }
    assert localDay[..|localDay|] == localDay;
    var combined := localDay;
    ghost var start := seen;
    for j := 0 to |remoteDay|
      invariant AppendRemote(start, remoteDay[..j]).Ok?
      invariant combined == localDay + AppendRemote(start, remoteDay[..j]).value.0
      invariant seen == AppendRemote(start, remoteDay[..j]).value.1
    {
      assert remoteDay[..j + 1][..j] == remoteDay[..j];
      var record := remoteDay[j];
      if record.Null? {
        AppendRemoteStops(start, remoteDay, j + 1);
        return Err(TypeError);
      }
      var id := Key(record);
      if !(IsPrimitive(id) && id in seen) {
        combined := combined + [record];
        seen := seen + {id};
      }
    }
    assert remoteDay[..|remoteDay|] == remoteDay;
    r := Ok(combined);
  }

  /** One step of the date loop: the merged value of remote date `d`. */
  method MergeDate(rule: DayRule, start: map<string, Json>, rv: map<string, Json>, d: string) returns (r: Result<Json, JsError>)
    requires d in rv
    ensures r == DateValue(rule, start, rv, d)
  {
    if d !in start || !Truthy(start[d]) {
      return Ok(rv[d]);
    } else if rule == Corrected && !start[d].Arr? {
      return Ok(start[d]);
    }
    var localDay := if start[d].Arr? then start[d].items else [];
    var remoteDay := if rv[d].Arr? then rv[d].items else [];
    var combined := CombineDay(localDay, remoteDay);
    if combined.Err? {
      return Err(combined.error);
    }
    return Ok(Arr(combined.value));
  }

  /** Once the loop has visited every remote date without an error, `merged` is the merged map. */
  lemma MergedDates(rule: DayRule, start: map<string, Json>, rv: map<string, Json>, merged: map<string, Json>)
    requires forall d | d in rv :: !DateFails(rule, start, rv, d) && d in merged && merged[d] == DateValue(rule, start, rv, d).value
    requires forall d | d in start && d !in rv :: d in merged && merged[d] == start[d]
    requires merged.Keys <= start.Keys + rv.Keys
    ensures MergeDateMaps(rule, start, rv) == Ok(merged)
  {
    assert !exists d | d in rv :: DateFails(rule, start, rv, d);
    var m := map d | d in start.Keys + rv.Keys :: if d in rv then DateValue(rule, start, rv, d).value else start[d];
    assert merged.Keys == m.Keys;
    forall d | d in m
      ensures merged[d] == m[d]
    {
    }
    assert merged == m;
  }

  /** The loop over the remote dates `rv`, starting from a copy of the local map `start`. */
  method MergeDateMapsLoop(rule: DayRule, start: map<string, Json>, rv: map<string, Json>) returns (r: Result<map<string, Json>, JsError>)
    ensures r == MergeDateMaps(rule, start, rv)
  {
    var merged := start;
    var todo := rv.Keys;
    while todo != {}
      invariant todo <= rv.Keys
      invariant merged.Keys <= start.Keys + rv.Keys
      invariant forall d | d in rv && d !in todo :: !DateFails(rule, start, rv, d) && d in merged && merged[d] == DateValue(rule, start, rv, d).value
      invariant forall d | d in start && (d !in rv || d in todo) :: d in merged && merged[d] == start[d]
      decreases todo
    {
      var d :| d in todo;
      var v := MergeDate(rule, start, rv, d);
      if v.Err? {
        assert DateFails(rule, start, rv, d);
        return Err(TypeError);
      }
      merged := merged[d := v.value];
      todo := todo - {d};
    }
    MergedDates(rule, start, rv, merged);
    r := Ok(merged);
  }

  /** `merged[key] = { ...localRecords }` and the loop over `Object.keys(remoteRecords)`. */
  method MergeDatesLoop(rule: DayRule, local: Json, remote: Json) returns (r: Result<Json, JsError>)
    ensures r == MergeDates(rule, local, remote)
  {
    var m := MergeDateMapsLoop(rule, ObjectView(local), ObjectView(remote));
    if m.Err? {
      return Err(m.error);
    }
    return Ok(Obj(m.value));
  }

  /** The body of the `forEach` of `mergeData` for one remote key. */
  method MergeKeyLoop(rule: DayRule, local: map<string, Json>, rv: map<string, Json>, k: string) returns (r: Result<Json, JsError>)
    requires k in rv
    ensures r == KeyValues(rule, local, rv)[k]
  {
    var remoteRecords := rv[k];
    if k in local && Truthy(local[k]) && (remoteRecords.Obj? || remoteRecords.Arr?) {
      r := MergeDatesLoop(rule, local[k], remoteRecords);
    } else {
      r := Ok(remoteRecords);
    }
  }

  /** A key whose merge throws makes the whole merge throw. */
  lemma KeyFailsRecords(rule: DayRule, local: map<string, Json>, rv: map<string, Json>, k: string)
    requires k in rv && KeyValues(rule, local, rv)[k].Err?
    ensures MergeRecordMap(rule, local, rv) == Err(TypeError)
  {
  }

  /** Once the loop has visited every remote key without an error, `merged` is the merged map. */
  lemma MergedRecords(rule: DayRule, local: map<string, Json>, rv: map<string, Json>, merged: map<string, Json>)
    requires merged.Keys == rv.Keys
    requires forall k | k in merged :: KeyValues(rule, local, rv)[k] == Ok(merged[k])
    ensures MergeRecordMap(rule, local, rv) == Ok(merged)
  {
    CollectValues(KeyValues(rule, local, rv), merged);
  }

  /** The `forEach` of `mergeData` over the remote records' keys. */
  method MergeRecordsLoop(rule: DayRule, local: map<string, Json>, remote: Json) returns (r: Result<map<string, Json>, JsError>)
    ensures r == MergeRecords(rule, local, remote)
  {
    r := MergeKeysLoop(rule, local, ObjectView(remote));
  }

  /** The loop over the keys `rv`, one `MergeKeyLoop` per key; a throw stops it. */
  method MergeKeysLoop(rule: DayRule, local: map<string, Json>, rv: map<string, Json>) returns (r: Result<map<string, Json>, JsError>)
    ensures r == MergeRecordMap(rule, local, rv)
  {
    ghost var vals := KeyValues(rule, local, rv);
    var merged: map<string, Json> := map[];
    var todo := rv.Keys;
    while todo != {}
      invariant todo <= rv.Keys
      invariant merged.Keys == rv.Keys - todo
      invariant forall k | k in merged :: vals[k] == Ok(merged[k])
      decreases todo
    {
      var k :| k in todo;
      var v := MergeKeyLoop(rule, local, rv, k);
      if v.Err? {
        KeyFailsRecords(rule, local, rv, k);
        return Err(TypeError);
      }
      merged := merged[k := v.value];
      todo := todo - {k};
    }
    MergedRecords(rule, local, rv, merged);
    r := Ok(merged);
  }

  lemma {:induction false} AppendRemoteStops(seen: set<Json>, remote: seq<Json>, n: nat)
    requires 0 < n <= |remote| && remote[n - 1].Null?
    ensures AppendRemote(seen, remote).Err?
  {
    AppendRemoteFacts(seen, remote);
  }
}
