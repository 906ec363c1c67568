/** Reading and writing a value in a nested structure, along a path of keys where `*` is a list's first element. */
module NestedPath {
  import opened Json
  import opened Options

  type Path = seq<string>

  const FIRST := "*"

  predicate Steps(current: Value, key: string) {
    if key == FIRST then current.List? && current.items != [] else current.Dict? && key in current.entries
  }

  function Child(current: Value, key: string): Value
    requires Steps(current, key)
  {
    if key == FIRST then current.items[0] else current.entries[key]
  }

  /** What the path leads to, None when it leads nowhere. */
  function Resolve(root: Value, path: Path): Option<Value> {
    if path == [] then Some(root)
    else if Steps(root, path[0]) then Resolve(Child(root, path[0]), path[1..])
    else None
  }

  predicate Writable(parent: Value, key: string) {
    if key == FIRST then parent.List? && parent.items != [] else parent.Dict?
  }

  function WithChild(parent: Value, key: string, value: Value): Value
    requires Writable(parent, key)
  {
    if key == FIRST then List(parent.items[0 := value]) else Dict(parent.entries[key := value])
  }

  function Replace(root: Value, path: Path, value: Value): Value
    requires Resolve(root, path).Some?
  {
    if path == [] then value
    else WithChild(root, path[0], Replace(Child(root, path[0]), path[1..], value))
  }

  /** None and the empty mapping read alike. */
  function ReadFrom(data: Option<map<string, Value>>): Value {
    if data.None? then Dict(map[]) else Dict(data.value)
  }

  function ValueForPath(data: Option<map<string, Value>>, path: Path): Value {
    var found := Resolve(ReadFrom(data), path);
    if found.Some? then found.value else Null
  }

  /** Whether a write takes effect: the last key's container is there and takes it. */
  predicate Takes(data: Option<map<string, Value>>, path: Path) {
    && data.Some? && data.value != map[] && path != []
    && var parent := Resolve(Dict(data.value), path[..|path| - 1]);
       parent.Some? && Writable(parent.value, path[|path| - 1])
  }

  lemma RootStaysDict(root: Value, to: Path, key: string, value: Value)
    requires root.Dict? && Resolve(root, to).Some? && Writable(Resolve(root, to).value, key)
    ensures Replace(root, to, WithChild(Resolve(root, to).value, key, value)).Dict?
  {
    ReplaceKeepsDict(root, to, WithChild(Resolve(root, to).value, key, value));
  }

  function SetAt(data: Option<map<string, Value>>, path: Path, value: Value): (r: Option<map<string, Value>>) {
    if !Takes(data, path) then data
    else
      var root, to := Dict(data.value), path[..|path| - 1];
      RootStaysDict(root, to, path[|path| - 1], value);
      Some(Replace(root, to, WithChild(Resolve(root, to).value, path[|path| - 1], value)).entries)
  }

  lemma ReplaceKeepsDict(root: Value, path: Path, value: Value)
    requires root.Dict? && Resolve(root, path).Some? && (path == [] ==> value.Dict?)
    ensures Replace(root, path, value).Dict?
  {
  }

  lemma {:induction false} ResolveSnoc(root: Value, path: Path, key: string)
    ensures Resolve(root, path + [key]) ==
            var parent := Resolve(root, path);
            if parent.Some? && Steps(parent.value, key) then Some(Child(parent.value, key)) else None
  {
    if path == [] {
      assert [key][1..] == [];
    } else {
      assert (path + [key])[1..] == path[1..] + [key];
      if Steps(root, path[0]) { ResolveSnoc(Child(root, path[0]), path[1..], key); }
    }
  }

  class Document {
    var data: Option<map<string, Value>>

    constructor (data: Option<map<string, Value>>)
      ensures this.data == data
    {
      this.data := data;
    }

    method Get(path: Path) returns (r: Value)
      ensures r == ValueForPath(data, path)
    {
      var current := ReadFrom(data);
      for i := 0 to |path|
        invariant Resolve(ReadFrom(data), path[..i]) == Some(current)
      {
        ResolveSnoc(ReadFrom(data), path[..i], path[i]);
        assert path[..i + 1] == path[..i] + [path[i]];
        if !Steps(current, path[i]) {
          Unresolved(ReadFrom(data), path, i + 1);
          return Null;
        }
        current := Child(current, path[i]);
      }
      assert path[..|path|] == path;
      r := current;
    }

    method Set(path: Path, value: Value)
      modifies this
      ensures data == SetAt(old(data), path, value)
    {
      if data.None? || data.value == map[] || path == [] {
        return;
      }
      var root := Dict(data.value);
      var current := root;
      var n := |path| - 1;
      for i := 0 to n
        invariant unchanged(this) && Resolve(root, path[..i]) == Some(current)
      {
        ResolveSnoc(root, path[..i], path[i]);
        assert path[..i + 1] == path[..i] + [path[i]];
        if !Steps(current, path[i]) {
          assert path[..n][..i + 1] == path[..i + 1];
          Unresolved(root, path[..n], i + 1);
          return;
        }
        current := Child(current, path[i]);
      }
      if Writable(current, path[n]) {
        RootStaysDict(root, path[..n], path[n], value);
        data := Some(Replace(root, path[..n], WithChild(current, path[n], value)).entries);
      }
    }
  }

  /** Past a dead end there is nothing. */
  lemma {:induction false} Unresolved(root: Value, path: Path, i: nat)
    requires i <= |path| && Resolve(root, path[..i]).None?
    ensures Resolve(root, path).None?
  {
    if i > 0 && Steps(root, path[0]) {
      assert path[..i][1..] == path[1..][..i - 1];
      Unresolved(Child(root, path[0]), path[1..], i - 1);
    }
  }

  // ---------- Replacing at a path ----------

  lemma {:induction false} Replaced(root: Value, path: Path, value: Value)
    requires Resolve(root, path).Some?
    ensures Resolve(Replace(root, path, value), path) == Some(value)
    ensures Replace(root, path, Resolve(root, path).value) == root
  {
    if path != [] {
      Replaced(Child(root, path[0]), path[1..], value);
    }
  }

  lemma {:induction false} ReplacedTwice(root: Value, path: Path, value: Value, again: Value)
    requires Resolve(root, path).Some?
    ensures Resolve(Replace(root, path, value), path).Some?
    ensures Replace(Replace(root, path, value), path, again) == Replace(root, path, again)
  {
    if path != [] {
      ReplacedTwice(Child(root, path[0]), path[1..], value, again);
    }
  }

  predicate Diverge(a: Path, b: Path) {
    a != [] && b != [] && (a[0] != b[0] || Diverge(a[1..], b[1..]))
  }

  /** A write below `path` is not seen along a path that has turned off before. */
  lemma {:induction false} ReplacedElsewhere(root: Value, path: Path, key: string, value: Value, other: Path)
    requires Resolve(root, path).Some? && Writable(Resolve(root, path).value, key)
    requires Diverge(path + [key], other)
    ensures Resolve(Replace(root, path, WithChild(Resolve(root, path).value, key, value)), other) ==
            Resolve(root, other)
  {
    if path != [] {
      assert (path + [key])[0] == path[0] && (path + [key])[1..] == path[1..] + [key];
      if path[0] == other[0] {
        ReplacedElsewhere(Child(root, path[0]), path[1..], key, value, other[1..]);
      }
    } else {
      assert [key][1..] == [] && !Diverge([], other[1..]);
    }
  }

  // ---------- The laws ----------

  /** A write either changes nothing, where the path leads nowhere, or is what the path then reads. */
  lemma SetThenGet(data: Option<map<string, Value>>, path: Path, value: Value)
    ensures Takes(data, path) ==> ValueForPath(SetAt(data, path, value), path) == value
    ensures !Takes(data, path) ==> SetAt(data, path, value) == data
  {
    hide Resolve, Replace;
    if Takes(data, path) {
      var root, to, key := Dict(data.value), path[..|path| - 1], path[|path| - 1];
      var parent := WithChild(Resolve(root, to).value, key, value);
      RootStaysDict(root, to, key, value);
      Replaced(root, to, parent);
      ResolveSnoc(Replace(root, to, parent), to, key);
      assert to + [key] == path;
    }
  }

  lemma StillTakes(data: Option<map<string, Value>>, path: Path, value: Value)
    requires Takes(data, path)
    ensures Takes(SetAt(data, path, value), path)
  {
    var root, to, key := Dict(data.value), path[..|path| - 1], path[|path| - 1];
    var parent := WithChild(Resolve(root, to).value, key, value);
    RootStaysDict(root, to, key, value);
    Replaced(root, to, parent);
    var after := Replace(root, to, parent);
    assert (if to == [] then key else to[0]) in after.entries;
  }

  /** The second of two writes wins. */
  lemma SetTwice(data: Option<map<string, Value>>, path: Path, value: Value, again: Value)
    ensures SetAt(SetAt(data, path, value), path, again) == SetAt(data, path, again)
  {
    hide Resolve, Replace;
    if Takes(data, path) {
      StillTakes(data, path, value);
      var root, to, key := Dict(data.value), path[..|path| - 1], path[|path| - 1];
      var parent := Resolve(root, to).value;
      var first := WithChild(parent, key, value);
      RootStaysDict(root, to, key, value);
      Replaced(root, to, first);
      ReplacedTwice(root, to, first, WithChild(parent, key, again));
      assert WithChild(first, key, again) == WithChild(parent, key, again);
    }
  }

  /** Writing back what a path reads changes nothing. */
  lemma GetThenSet(data: Option<map<string, Value>>, path: Path)
    requires Resolve(ReadFrom(data), path).Some?
    ensures SetAt(data, path, ValueForPath(data, path)) == data
  {
    hide Resolve, Replace;
    if Takes(data, path) {
      var root, to, key := Dict(data.value), path[..|path| - 1], path[|path| - 1];
      ResolveSnoc(root, to, key);
      assert to + [key] == path;
      var parent := Resolve(root, to).value;
      assert WithChild(parent, key, Child(parent, key)) == parent;
      Replaced(root, to, parent);
    }
  }

  /** Every path that turns off from the written one, at a key or at `*`, reads as before. */
  lemma SetElsewhere(data: Option<map<string, Value>>, path: Path, value: Value, other: Path)
    requires Diverge(path, other)
    ensures ValueForPath(SetAt(data, path, value), other) == ValueForPath(data, other)
  {
    hide Resolve, Replace, Diverge, WithChild;
    if Takes(data, path) {
      var root, to, key := Dict(data.value), path[..|path| - 1], path[|path| - 1];
      assert to + [key] == path;
      RootStaysDict(root, to, key, value);
      ReplacedElsewhere(root, to, key, value, other);
    }
  }

  // ---------- What a step is ----------

  /** `*` is a list's first element, and any other key a mapping's own: read from the top, or from what was read. */
  lemma StepExactly(v: Value, key: string)
    ensures Resolve(v, [key]) ==
      if key == "*" then if v.List? && v.items != [] then Some(v.items[0]) else None
      else if v.Dict? && key in v.entries then Some(v.entries[key]) else None
  {
    assert [key][1..] == [];
  }

  /** A path reads what its last key does from what the rest of it reads. */
  lemma {:induction false} ReadsOn(v: Value, path: Path, key: string)
    ensures Resolve(v, path + [key]) ==
      var parent := Resolve(v, path); if parent.None? then None else Resolve(parent.value, [key])
  {
    ResolveSnoc(v, path, key);
    if Resolve(v, path).Some? { StepExactly(Resolve(v, path).value, key); }
  }

  /** A write at a list's `*` leaves its other elements, and one at a key leaves the other keys. */
  lemma WritesOne(v: Value, key: string, value: Value)
    requires Writable(v, key)
    ensures var w := WithChild(v, key, value);
      if key == "*" then v.List? && v.items != [] && w == List([value] + v.items[1..])
      else v.Dict? && w.Dict? && w.entries.Keys == v.entries.Keys + {key} && w.entries[key] == value
           && forall other | other in v.entries && other != key :: w.entries[other] == v.entries[other]
  {
    if key == "*" { assert v.items[0 := value] == [value] + v.items[1..]; }
  }

  /** A write takes effect exactly when the rest of the path reads a mapping, or a list that has a first element. */
  lemma TakesExactly(data: Option<map<string, Value>>, path: Path)
    ensures Takes(data, path) <==>
      && data.Some? && data.value != map[] && path != []
      && var parent := Resolve(Dict(data.value), path[..|path| - 1]);
         parent.Some? && if path[|path| - 1] == "*" then parent.value.List? && parent.value.items != []
                         else parent.value.Dict?
  {
  }
}
