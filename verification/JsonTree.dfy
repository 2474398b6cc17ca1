/**
 JSON values and the dotted paths of crates/collector/src/editor/schema_registry.rs. A
 path is the list of parts its text splits into, which is never empty.
 */
module JsonTree {
  import opened Options

  datatype Json =
    | Null
    | Bool(value: bool)
    | Num(literal: string)
    | Str(text: string)
    | Arr(items: seq<Json>)
    | Obj(fields: Object)

  type Object = map<string, Json>

  type Path = p: seq<string> | p != [] witness [""]

  /** Value::get with a string: only objects have named members. */
  function Member(v: Json, key: string): Option<Json> {
    if v.Obj? && key in v.fields then Some(v.fields[key]) else None
  }

  function AsObject(v: Option<Json>): Object {
    if v.Some? && v.value.Obj? then v.value.fields else map[]
  }

  function AsArray(v: Option<Json>): Option<seq<Json>> {
    if v.Some? && v.value.Arr? then Some(v.value.items) else None
  }

  function GetPath(v: Json, path: Path): Option<Json>
    decreases |path|
  {
    var member := Member(v, path[0]);
    if member.None? || |path| == 1 then member else GetPath(member.value, path[1..])
  }

  /** The walk with a cursor. */
  method WalkPath(v: Json, path: Path) returns (r: Option<Json>)
    ensures r == GetPath(v, path)
  {
    var current := v;
    for i := 0 to |path|
      invariant i < |path| ==> GetPath(v, path) == GetPath(current, path[i..])
      invariant i == |path| ==> GetPath(v, path) == Some(current)
    {
      var next := Member(current, path[i]);
      if next.None? {
        return None;
      }
      current := next.value;
      if i + 1 < |path| { assert path[i..][1..] == path[i + 1..]; }
    }
    return Some(current);
  }

  /** set_path: objects are created on the way down, in place of whatever else was there. */
  function SetPath(m: Object, path: Path, v: Json): Object
    decreases |path|
  {
    if |path| == 1 then m[path[0] := v] else
      var entry := AsObject(Member(Obj(m), path[0]));
      m[path[0] := Obj(SetPath(entry, path[1..], v))]
  }

  /** Neither path leads through the other. */
  predicate Incomparable(p: Path, q: Path) {
    !(p <= q) && !(q <= p)
  }

  lemma {:induction false} SetThenGet(m: Object, path: Path, v: Json)
    ensures GetPath(Obj(SetPath(m, path, v)), path) == Some(v)
    decreases |path|
  {
    if |path| > 1 { SetThenGet(AsObject(Member(Obj(m), path[0])), path[1..], v); }
  }

  /** What is stored under a path that neither leads to nor through the written one stays. */
  lemma {:induction false} SetKeepsOthers(m: Object, path: Path, v: Json, other: Path)
    requires Incomparable(path, other)
    ensures GetPath(Obj(SetPath(m, path, v)), other) == GetPath(Obj(m), other)
    decreases |path|
  {
    if path[0] == other[0] {
      assert |path| > 1 && |other| > 1 by { assert path[..1] == other[..1]; }
      assert Incomparable(path[1..], other[1..]) by {
        assert path == [path[0]] + path[1..] && other == [other[0]] + other[1..];
      }
      SetKeepsOthers(AsObject(Member(Obj(m), path[0])), path[1..], v, other[1..]);
    }
  }
}
