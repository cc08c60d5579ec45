/**
 * JSON values as JavaScript sees them after `JSON.parse`, and the text
 * cells of `localStorage`.
 */
module JsonModel {
  import opened Wrappers
  import opened Strings

  /** A parsed JSON value. Numbers are integers in this model. */
  datatype Json =
    | Null
    | Bool(b: bool)
    | Num(n: int)
    | Str(s: string)
    | Arr(items: seq<Json>)
    | Obj(fields: map<string, Json>)

  /**
   * A `localStorage` cell. `Doc(v)` is text written by `JSON.stringify(v)`;
   * `Plain(t)` is text `t` written as it is (tokens, ids, ISO times, the
   * auto-sync flag's "true"/"false") and is never handed to `JSON.parse`
   * by the code modelled; the model reads it as text `JSON.parse` rejects.
   */
  datatype Item = Doc(value: Json) | Plain(text: string)

  /** What a JavaScript expression can throw while handling these values. */
  datatype JsError =
    | SyntaxError   // JSON.parse of text that is not JSON
    | TypeError               // property access on null, calling a missing method
    | InvalidCharacterError   // `btoa` of text with a character above U+00FF

  /** JavaScript truthiness of a parsed value. */
  predicate Truthy(j: Json) {
    match j
    case Null => false
    case Bool(b) => b
    case Num(n) => n != 0
    case Str(s) => s != ""
    case Arr(_) => true
    case Obj(_) => true
  }

  /** Truthiness of the text `getItem` returned: only the empty text is falsy. */
  predicate ItemTruthy(i: Item) {
    match i
    case Doc(_) => true
    case Plain(t) => t != ""
  }

  /** `JSON.parse(text)` */
  function ParseItem(i: Item): (r: Result<Json, JsError>)
    ensures r.Ok? <==> i.Doc?
    ensures r.Ok? ==> r.value == i.value
  {
    match i
    case Doc(v) => Ok(v)
    case Plain(_) => Err(SyntaxError)
  }

  /** `JSON.parse(localStorage.getItem(key) || '{}')`: a missing or empty cell reads as `{}`. */
  function ReadDoc(cell: Option<Item>): (r: Result<Json, JsError>)
    ensures cell.None? ==> r == Ok(Obj(map[]))
    ensures cell.Some? && !ItemTruthy(cell.value) ==> r == Ok(Obj(map[]))
    ensures cell.Some? && ItemTruthy(cell.value) ==> r == ParseItem(cell.value)
  {
    match cell
    case None => Ok(Obj(map[]))
    case Some(i) => if ItemTruthy(i) then ParseItem(i) else Ok(Obj(map[]))
  }

  /** Property names of the indices `0 .. n-1` of a list or string. */
  function IndexKeys(n: nat): set<string> {
    set i | 0 <= i < n :: NatToString(i)
  }

  lemma IndexKeysDecode(n: nat)
    ensures forall k | k in IndexKeys(n) ::
      (forall j :: 0 <= j < |k| ==> IsDigit(k[j])) && DigitsValue(k) < n
  {
    forall k | k in IndexKeys(n)
      ensures DigitsValue(k) < n
    {
      var i :| 0 <= i < n && k == NatToString(i);
      NatToStringRoundTrip(i);
    }
  }

  /**
   * The own enumerable properties of a non-null value, as `Object.keys`,
   * `Object.values` and object spread see them: an object's fields, the
   * indices of a list or string, nothing for a number or boolean.
   */
  function ObjectView(j: Json): (m: map<string, Json>)
    ensures j.Obj? ==> m == j.fields
    ensures j.Arr? ==> m.Keys == IndexKeys(|j.items|)
    ensures j.Str? ==> m.Keys == IndexKeys(|j.s|)
    ensures !j.Obj? && !j.Arr? && !j.Str? ==> m == map[]
  {
    match j
    case Obj(f) => f
    case Arr(items) =>
      IndexKeysDecode(|items|);
      map k | k in IndexKeys(|items|) :: items[DigitsValue(k)]
    case Str(s) =>
      IndexKeysDecode(|s|);
      map k | k in IndexKeys(|s|) :: Str([s[DigitsValue(k)]])
    case _ => map[]
  }

  /** `Object.keys(j)` of a non-null value. */
  function KeysOf(j: Json): set<string> {
    match j
    case Obj(f) => f.Keys
    case Arr(items) => IndexKeys(|items|)
    case Str(s) => IndexKeys(|s|)
    case _ => {}
  }

  /** `Object.keys` lists exactly the properties `ObjectView` holds. */
  lemma KeysOfView(j: Json)
    ensures KeysOf(j) == ObjectView(j).Keys
  {
  }

  /** `String(j)`, the text `String.prototype.concat` appends for its argument. */
  function JsText(j: Json): (t: string)
    ensures j.Str? ==> t == j.s
    ensures j.Obj? ==> t == "[object Object]"
    ensures j.Arr? && |j.items| == 0 ==> t == ""
    decreases j, 1
  {
    match j
    case Null => "null"
    case Bool(b) => if b then "true" else "false"
    case Num(n) => IntToString(n)
    case Str(s) => s
    case Arr(items) => JoinTexts(items)
    case Obj(_) => "[object Object]"
  }

  /** `items.join(',')`: each element as `String` would write it, `null` as the empty text. */
  function JoinTexts(items: seq<Json>): string
    decreases items, 0
  {
    if |items| == 0 then ""
    else
      var last := if items[|items| - 1].Null? then "" else JsText(items[|items| - 1]);
      if |items| == 1 then last else JoinTexts(items[..|items| - 1]) + "," + last
  }

  /** Joining two non-empty lists puts one comma between their joins. */
  lemma {:induction false} JoinTextsConcat(a: seq<Json>, b: seq<Json>)
    requires |a| > 0 && |b| > 0
    ensures JoinTexts(a + b) == JoinTexts(a) + "," + JoinTexts(b)
    decreases |b|
  {
    var c := a + b;
    assert c[..|c| - 1] == a + b[..|b| - 1];
    assert c[|c| - 1] == b[|b| - 1];
    if |b| > 1 {
      JoinTextsConcat(a, b[..|b| - 1]);
    } else {
      assert c[..|c| - 1] == a;
    }
  }

  /**
   * `x[k]` for a property name that is not a list index: only an object
   * has such a property (see README for index-like names).
   */
  function Member(x: Json, k: string): (r: Option<Json>)
    ensures r.Some? <==> x.Obj? && k in x.fields
    ensures r.Some? ==> r.value == x.fields[k]
  {
    if x.Obj? && k in x.fields then Some(x.fields[k]) else None
  }

  /** The value at the end of a property path through nested objects. */
  function GetPath(x: Json, path: seq<string>): Option<Json>
    decreases |path|
  {
    if |path| == 0 then Some(x)
    else match Member(x, path[0])
      case None => None
      case Some(c) => GetPath(c, path[1..])
  }

  /**
   * The value of `x` after `x[p0] ... [pn] = v`, where each intermediate
   * level is first set to `{}` when falsy (`if (!x[p0]) x[p0] = {}`), as
   * JSON.stringify would then write `x`. A property assigned on a list is
   * lost when stringified, an assignment on a number, string or boolean is
   * ignored, and reading a property of `null` or `undefined` throws.
   */
  function SetPath(x: Json, path: seq<string>, v: Json): (r: Result<Json, JsError>)
    requires |path| >= 1
    ensures r.Ok? && x.Obj? ==> r.value.Obj? && r.value.fields.Keys == x.fields.Keys + {path[0]}
    ensures r.Ok? && !x.Obj? ==> r.value == x
    ensures x.Null? ==> r == Err(TypeError)
    decreases |path|
  {
    if x.Null? then Err(TypeError)
    else if |path| == 1 then
      if x.Obj? then Ok(Obj(x.fields[path[0] := v])) else Ok(x)
    else match x
      case Obj(m) =>
        var child := if path[0] in m && Truthy(m[path[0]]) then m[path[0]] else Obj(map[]);
        var child' :- SetPath(child, path[1..], v);
        Ok(Obj(m[path[0] := child']))
      case Arr(_) => Ok(x)
      case _ => Err(TypeError)
  }

  /** Every level of the path is an object or falsy, so the assignment lands. */
  predicate Writable(x: Json, path: seq<string>)
    requires |path| >= 1
    decreases |path|
  {
    x.Obj? &&
    (|path| == 1 ||
     var c := Member(x, path[0]);
     c.None? || !Truthy(c.value) || Writable(c.value, path[1..]))
  }

  /** On a writable path the assignment succeeds and the new value sits at the end of the path. */
  lemma {:induction false} SetPathStores(x: Json, path: seq<string>, v: Json)
    requires |path| >= 1 && Writable(x, path)
    ensures SetPath(x, path, v).Ok?
    ensures GetPath(SetPath(x, path, v).value, path) == Some(v)
    decreases |path|
  {
    if |path| > 1 {
      var m := x.fields;
      var child := if path[0] in m && Truthy(m[path[0]]) then m[path[0]] else Obj(map[]);
      if child == Obj(map[]) {
        assert Writable(child, path[1..]) by {
          if |path[1..]| > 1 {
            assert Member(child, path[1..][0]).None?;
          }
        }
      }
      SetPathStores(child, path[1..], v);
    }
  }

  /** Every other path of the same depth keeps its value. */
  lemma {:induction false} SetPathFrame(x: Json, path: seq<string>, v: Json, other: seq<string>)
    requires |path| >= 1 && SetPath(x, path, v).Ok?
    requires |other| == |path| && other != path && GetPath(x, other).Some?
    ensures GetPath(SetPath(x, path, v).value, other) == GetPath(x, other)
    decreases |path|
  {
    if x.Obj? && |path| > 1 && other[0] == path[0] {
      var m := x.fields;
      var c := m[path[0]];
      assert GetPath(c, other[1..]).Some?;
      assert other[1..] != path[1..];
      assert c.Obj? && Truthy(c) by {
        assert |other[1..]| >= 1;
      }
      SetPathFrame(c, path[1..], v, other[1..]);
    }
  }

  /** The value of `x` after `delete x[k]`. */
  function DeleteKey(x: Json, k: string): (r: Result<Json, JsError>)
    ensures x.Null? <==> r.Err?
    ensures r.Ok? && x.Obj? ==> r.value.Obj? && r.value.fields.Keys == x.fields.Keys - {k}
    ensures r.Ok? ==> forall j | j in ObjectView(x) && j != k :: j in ObjectView(r.value) && ObjectView(r.value)[j] == ObjectView(x)[j]
  {
    match x
    case Null => Err(TypeError)
    case Obj(m) => Ok(Obj(m - {k}))
    case _ => Ok(x)
  }
}
