/**
 The configuration manager: its key splitter, its walks through the tree and its typed
 getters and setters. A node of the tree has one owner, so a pointer into the tree is
 the path it was reached by: `current` is that path, and assigning through it replaces
 the subtree there.
 */
module ConfigManager {
  import opened Config
  import opened Options

  // ----- the pointer into the tree ----------------------------------------------

  predicate Present(t: Json, current: seq<string>) {
    current == [] || (current[0] in Members(t) && Present(Members(t)[current[0]], current[1..]))
  }

  function At(t: Json, current: seq<string>): Json
    requires Present(t, current)
  {
    if current == [] then t else At(Members(t)[current[0]], current[1..])
  }

  function Assign(t: Json, current: seq<string>, node: Json): Json
    requires Present(t, current)
  {
    if current == [] then node
    else With(t, current[0], Assign(Members(t)[current[0]], current[1..], node))
  }

  /** After assigning through the pointer, the walk goes on inside the assigned node. */
  lemma {:induction false} AssignThenWalk(t: Json, current: seq<string>, node: Json)
    requires Present(t, current)
    ensures var t' := Assign(t, current, node); Present(t', current) && At(t', current) == node
  {
    if current != [] {
      var name := current[0];
      AssignThenWalk(Members(t)[name], current[1..], node);
    }
  }

  lemma {:induction false} AssignSame(t: Json, current: seq<string>)
    requires Present(t, current)
    ensures Assign(t, current, At(t, current)) == t
  {
    if current != [] {
      AssignSame(Members(t)[current[0]], current[1..]);
      assert Members(t)[current[0] := Members(t)[current[0]]] == Members(t);
    }
  }

  /** Writing past the pointer is writing in the node it points to. */
  lemma {:induction false} PutPast(t: Json, current: seq<string>, node: Json, rest: seq<string>, v: Json)
    requires Present(t, current) && rest != []
    ensures Put(Assign(t, current, node), current + rest, v) == Assign(t, current, Put(node, rest, v))
    decreases |current|
  {
    if current == [] {
      assert current + rest == rest;
    } else {
      hide Put;
      PathTail(current, rest);
      var name, c := current[0], Members(t)[current[0]];
      PutPast(c, current[1..], node, rest, v);
      PutStep(Assign(t, current, node), current + rest, v);
      WithSame(t, name, Assign(c, current[1..], node), Put(Assign(c, current[1..], node), current[1..] + rest, v));
    }
  }

  lemma {:induction false} GetPast(t: Json, current: seq<string>, rest: seq<string>)
    requires Present(t, current) && rest != []
    ensures Get(t, current + rest) == Get(At(t, current), rest)
    decreases |current|
  {
    if current == [] {
      assert current + rest == rest;
    } else {
      PathTail(current, rest);
      GetStep(t, current + rest);
      GetPast(Members(t)[current[0]], current[1..], rest);
    }
  }

  lemma {:induction false} StepDown(t: Json, current: seq<string>, name: string)
    requires Present(t, current) && name in Members(At(t, current))
    ensures Present(t, current + [name]) && At(t, current + [name]) == Members(At(t, current))[name]
    decreases |current|
  {
    if current == [] {
      assert current + [name] == [name];
    } else {
      PathTail(current, [name]);
      StepDown(Members(t)[current[0]], current[1..], name);
    }
  }

  /** At a path that is present, writing is assigning. */
  lemma {:induction false} PutIsAssign(t: Json, path: seq<string>, v: Json)
    requires path != [] && Present(t, path)
    ensures Put(t, path, v) == Assign(t, path, v) && Get(t, path) == Some(At(t, path))
  {
    if |path| > 1 {
      PutIsAssign(Members(t)[path[0]], path[1..], v);
    }
  }

  /** Replacing one node by the other changes neither a later write nor a later append. */
  predicate Neutral(node: Json, node': Json, rest: seq<string>, v: Json)
    requires rest != []
  {
    Put(node', rest, v) == Put(node, rest, v) && Previous(node', rest) == Previous(node, rest)
  }

  /** An empty object may take the place of a scalar or an array. */
  lemma EmptyForScalar(node: Json, rest: seq<string>, v: Json)
    requires !node.Obj? && rest != []
    ensures Neutral(node, Obj(map[]), rest, v)
  {
  }

  /** A child that is missing, or in the way, may be replaced by an empty one. */
  lemma FreshChild(node: Json, c: Json, rest: seq<string>, v: Json)
    requires rest != [] && Members(c) == map[]
    requires if |rest| == 1 then rest[0] !in Members(node) && c == Arr([]) else Members(Child(node, rest[0])) == map[]
    ensures Neutral(node, With(node, rest[0], c), rest, v)
  {
    var node' := With(node, rest[0], c);
    PutStep(node', rest, v);
    PutStep(node, rest, v);
    if |rest| > 1 {
      WithSame(node, rest[0], c, Put(c, rest[1..], v));
      assert Put(c, rest[1..], v) == Put(Child(node, rest[0]), rest[1..], v);
      GetStep(node', rest);
      GetStep(node, rest);
    } else {
      WithSame(node, rest[0], c, v);
    }
  }

  lemma RoomIsNeutral(t: Json, current: seq<string>, node': Json, rest: seq<string>, v: Json)
    requires Present(t, current) && rest != [] && Neutral(At(t, current), node', rest, v)
    ensures Neutral(t, Assign(t, current, node'), current + rest, v)
    ensures Present(Assign(t, current, node'), current) && At(Assign(t, current, node'), current) == node'
  {
    hide Put, Get;
    AssignThenWalk(t, current, node');
    AssignSame(t, current);
    PutPast(t, current, At(t, current), rest, v);
    PutPast(t, current, node', rest, v);
    GetPast(t, current, rest);
    GetPast(Assign(t, current, node'), current, rest);
  }

  // ----- splitting keys ---------------------------------------------------------

  /** Reads pieces up to the next dot and keeps the non-empty ones. */
  method SplitKey(key: string) returns (parts: seq<string>)
    ensures parts == Parts(key)
  {
    hide Parts, FirstDot;
    NoParts();
    parts := [];
    var pos := 0;
    while pos < |key|
      invariant 0 <= pos <= |key|
      invariant parts + Parts(key[pos..]) == Parts(key)
      decreases |key| - pos
    {
      var end := pos;
      while end < |key| && key[end] != '.'
        invariant pos <= end <= |key|
        invariant '.' !in key[pos..end]
      {
        end := end + 1;
      }
      ghost var rest := key[pos..];
      FirstDotIs(rest, end - pos);
      PartsStep(rest);
      assert rest[..end - pos] == key[pos..end];
      assert end < |key| ==> rest[end - pos + 1..] == key[end + 1..];
      var part := key[pos..end];
      if part != "" {
        parts := parts + [part];
      }
      pos := if end < |key| then end + 1 else end;
      assert end == |key| ==> key[pos..] == "";
    }
    assert key[pos..] == "" && parts + [] == parts;
  }

  lemma PartsStep(s: string)
    requires s != ""
    ensures var n := FirstDot(s);
      Parts(s) == (if n == 0 then [] else [s[..n]]) + (if n == |s| then [] else Parts(s[n + 1..]))
  {
    hide FirstDot;
  }

  lemma {:induction false} FirstDotIs(s: string, n: nat)
    requires n <= |s| && '.' !in s[..n] && (n < |s| ==> s[n] == '.')
    ensures FirstDot(s) == n
  {
    if n > 0 {
      assert s[..n][0] == s[0] && s[1..][..n - 1] == s[..n][1..];
      FirstDotIs(s[1..], n - 1);
    }
  }

  // ----- views of a value -------------------------------------------------------

  /** Conversion of any stored integer to a 32-bit `int`. */
  function Wrap32(n: int): (r: int)
    ensures -0x8000_0000 <= r < 0x8000_0000 && (r - n) % 0x1_0000_0000 == 0
    ensures -0x8000_0000 <= n < 0x8000_0000 ==> r == n
  {
    (n + 0x8000_0000) % 0x1_0000_0000 - 0x8000_0000
  }

  function AsInt(v: Option<Json>, default: int): int {
    match v
    case Some(Integer(i)) => Wrap32(i)
    case Some(Unsigned(u)) => Wrap32(u)
    case _ => default
  }

  function AsDouble(v: Option<Json>, default: real): real {
    if v.Some? && v.value.Float? then v.value.number else default
  }

  /** A stored floating value comes back as it is, and is no integer. */
  lemma FloatsReadBack(t: Json, path: seq<string>, x: real, i: int, d: real)
    requires path != []
    ensures AsDouble(Get(Put(t, path, Float(x)), path), d) == x
    ensures AsInt(Get(Put(t, path, Float(x)), path), i) == i
  {
    GetPut(t, path, Float(x));
  }

  /** What each getter makes of a value that was stored as an integer. */
  lemma IntegersReadBack(t: Json, path: seq<string>, n: int, u: nat, i: int, d: real)
    requires path != []
    ensures AsInt(Get(Put(t, path, Integer(n)), path), i) == Wrap32(n)
    ensures AsInt(Get(Put(t, path, Unsigned(u)), path), i) == u <==> u < 0x8000_0000
    ensures AsDouble(Get(Put(t, path, Integer(n)), path), d) == d
  {
    GetPut(t, path, Integer(n));
    GetPut(t, path, Unsigned(u));
  }

  /** A one-part key can be set in an object or in an empty root; longer keys always can. */
  predicate Settable(t: Json, parts: seq<string>) {
    |parts| == 1 ==> t.Obj? || t.Null?
  }

  class ConfigManager {
    var data: Json
    var loaded: bool

    constructor ()
      ensures data == Null && !loaded
    {
      data, loaded := Null, false;
    }

    function Lookup(key: string): Option<Json>
      reads this
    {
      if Parts(key) == [] then None else Get(data, Parts(key))
    }

    /** What the getters see: nothing at all before the file was loaded. */
    function Visible(key: string): Option<Json>
      reads this
    {
      if loaded then Lookup(key) else None
    }

    method ResolveKey(key: string) returns (found: Option<Json>)
      ensures found == Lookup(key)
    {
      var parts := SplitKey(key);
      if parts == [] {
        return None;
      }
      var current := data;
      for i := 0 to |parts| - 1
        invariant Get(data, parts) == Get(current, parts[i..])
      {
        assert parts[i..][1..] == parts[i + 1..];
        if !current.Obj? {
          return None;
        }
        if parts[i] !in current.members || !current.members[parts[i]].Obj? {
          return None;
        }
        current := current.members[parts[i]];
      }
      if !current.Obj? {
        return None;
      }
      var last := parts[|parts| - 1];
      if last !in current.members {
        return None;
      }
      return Some(current.members[last]);
    }

    method GetInt(key: string, default: int) returns (value: int)
      ensures value == AsInt(Visible(key), default)
      ensures !loaded || Parts(key) == [] || Get(data, Parts(key)) == None ==> value == default
      ensures loaded && Parts(key) != [] ==>
        forall v | Get(data, Parts(key)) == Some(v) ::
          && (v.Integer? ==> value == Wrap32(v.signed))
          && (v.Unsigned? ==> value == Wrap32(v.unsigned))
          && (!v.Integer? && !v.Unsigned? ==> value == default)
    {
      if !loaded {
        return default;
      }
      var found := ResolveKey(key);
      match found
      case Some(Integer(i)) => return Wrap32(i);
      case Some(Unsigned(u)) => return Wrap32(u);
      case _ => return default;
    }

    method GetDouble(key: string, default: real) returns (value: real)
      ensures value == AsDouble(Visible(key), default)
      ensures !loaded || Parts(key) == [] || Get(data, Parts(key)) == None ==> value == default
      ensures loaded && Parts(key) != [] ==>
        forall v | Get(data, Parts(key)) == Some(v) :: value == if v.Float? then v.number else default
    {
      if !loaded {
        return default;
      }
      var found := ResolveKey(key);
      return if found.Some? && found.value.Float? then found.value.number else default;
    }

    /** Writes `value` at `key`; throws, changing nothing, when a one-part key meets a scalar root. */
    method SetNested(key: string, value: Json) returns (threw: bool)
      modifies this`data
      ensures threw <==> !Settable(old(data), Parts(key))
      ensures data == if threw || Parts(key) == [] then old(data) else Put(old(data), Parts(key), value)
    {
      hide Put, Get, Parts, Assign;
      var parts := SplitKey(key);
      if parts == [] {
        return false;
      }
      var current: seq<string> := [];
      for i := 0 to |parts| - 1
        invariant current == parts[..i] && Present(data, current)
        invariant Put(data, parts, value) == Put(old(data), parts, value)
        invariant i == 0 ==> data == old(data)
        invariant i > 0 ==> At(data, current).Obj?
      {
        ghost var rest := parts[i..];
        assert parts == current + rest;
        if !At(data, current).Obj? {
          EmptyForScalar(At(data, current), rest, value);
          RoomIsNeutral(data, current, Obj(map[]), rest, value);
          data := Assign(data, current, Obj(map[]));
        }
        var node := At(data, current);
        if parts[i] !in node.members || !node.members[parts[i]].Obj? {
          var roomy := With(node, parts[i], Obj(map[]));
          FreshChild(node, Obj(map[]), rest, value);
          RoomIsNeutral(data, current, roomy, rest, value);
          data := Assign(data, current, roomy);
        }
        StepDown(data, current, parts[i]);
        current := current + [parts[i]];
      }
      var last := parts[|parts| - 1];
      var node := At(data, current);
      if !node.Obj? && !node.Null? {
        return true;
      }
      assert parts == current + [last];
      PutPast(data, current, node, [last], value);
      AssignSame(data, current);
      PutStep(node, [last], value);
      data := Assign(data, current, With(node, last, value));
      return false;
    }

    method AppendToArray(arrayKey: string, element: Json)
      modifies this`data
      ensures data == if Parts(arrayKey) == [] then old(data) else Append(old(data), Parts(arrayKey), element)
    {
      hide Put, Get, Parts;
      var parts := SplitKey(arrayKey);
      if parts == [] {
        return;
      }
      ghost var before := Previous(data, parts);
      ghost var result := Arr(before + [element]);
      var current: seq<string> := [];
      for i := 0 to |parts|
        invariant current == parts[..i] && Present(data, current)
        invariant Put(data, parts, result) == Put(old(data), parts, result)
        invariant Previous(data, parts) == before
      {
        ghost var rest := parts[i..];
        assert parts == current + rest;
        if !At(data, current).Obj? {
          EmptyForScalar(At(data, current), rest, result);
          RoomIsNeutral(data, current, Obj(map[]), rest, result);
          data := Assign(data, current, Obj(map[]));
        }
        var node := At(data, current);
        if parts[i] !in node.members {
          var child := if i == |parts| - 1 then Arr([]) else Obj(map[]);
          var roomy := With(node, parts[i], child);
          FreshChild(node, child, rest, result);
          RoomIsNeutral(data, current, roomy, rest, result);
          data := Assign(data, current, roomy);
        }
        StepDown(data, current, parts[i]);
        current := current + [parts[i]];
      }
      assert current == parts;
      PutIsAssign(data, current, result);
      if !At(data, current).Arr? {
        AssignThenWalk(data, current, Arr([]));
        PutIsAssign(data, current, Arr([]));
        PutPut(data, current, Arr([]), result);
        data := Assign(data, current, Arr([]));
        PutIsAssign(data, current, result);
      }
      data := Assign(data, current, Arr(At(data, current).elems + [element]));
    }
  }
}
