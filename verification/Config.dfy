/**
 Dotted keys and the JSON tree they address: what a key's parts are, what reading and
 writing at a path mean, and the laws that tie the two.
 */
module Config {
  import opened Options

  /** A JSON value; integers keep the signed or unsigned kind they were stored with. */
  datatype Json =
    | Null
    | Boolean(flag: bool)
    | Integer(signed: int)
    | Unsigned(unsigned: nat)
    | Float(number: real)
    | Text(text: string)
    | Arr(elems: seq<Json>)
    | Obj(members: map<string, Json>)

  // ----- keys -------------------------------------------------------------------

  /** Where the first dot is, or the length if there is none. */
  function FirstDot(s: string): (n: nat)
    ensures n <= |s| && '.' !in s[..n] && (n < |s| ==> s[n] == '.')
  {
    if s == "" || s[0] == '.' then 0 else
      assert forall k | 0 < k <= 1 + FirstDot(s[1..]) :: s[..k] == [s[0]] + s[1..][..k - 1];
      1 + FirstDot(s[1..])
  }

  /** The non-empty pieces of a key between its dots. */
  function Parts(key: string): seq<string>
    decreases |key|
  {
    if key == "" then [] else
      var n := FirstDot(key);
      (if n == 0 then [] else [key[..n]]) + (if n == |key| then [] else Parts(key[n + 1..]))
  }

  predicate IsName(part: string) { part != "" && '.' !in part }

  predicate AreNames(parts: seq<string>) { forall k | 0 <= k < |parts| :: IsName(parts[k]) }

  function Join(parts: seq<string>): string {
    if parts == [] then "" else if |parts| == 1 then parts[0] else parts[0] + "." + Join(parts[1..])
  }

  lemma {:induction false} PartsAreNames(key: string)
    ensures AreNames(Parts(key))
    decreases |key|
  {
    if key != "" && FirstDot(key) < |key| {
      PartsAreNames(key[FirstDot(key) + 1..]);
    }
  }

  lemma {:induction false} FirstDotOf(a: string, b: string)
    requires '.' !in a
    ensures FirstDot(a) == |a| && FirstDot(a + "." + b) == |a|
  {
    if a != "" {
      FirstDotOf(a[1..], b);
      assert (a + "." + b)[1..] == a[1..] + "." + b;
    }
  }

  /** A dot between two keys is where their part lists meet. */
  lemma {:induction false} PartsOfConcat(a: string, b: string)
    ensures Parts(a + "." + b) == Parts(a) + Parts(b)
    decreases |a|
  {
    hide Parts, FirstDot;
    var n := FirstDot(a);
    if n == |a| {
      PartsOfFirst(a, b);
      PartsOfWhole(a);
    } else {
      var name, rest := a[..n], a[n + 1..];
      assert a == name + "." + rest;
      assert a + "." + b == name + "." + (rest + "." + b);
      PartsOfFirst(name, rest);
      PartsOfFirst(name, rest + "." + b);
      PartsOfConcat(rest, b);
    }
  }

  function Piece(name: string): seq<string> { if name == "" then [] else [name] }

  /** The piece before the first dot, and those after it. */
  lemma PartsOfFirst(name: string, rest: string)
    requires '.' !in name
    ensures Parts(name + "." + rest) == Piece(name) + Parts(rest)
  {
    hide FirstDot;
    var key := name + "." + rest;
    FirstDotOf(name, rest);
    assert key[..|name|] == name && key[|name| + 1..] == rest;
  }

  lemma PartsOfWhole(name: string)
    requires '.' !in name
    ensures Parts(name) == Piece(name)
  {
    hide FirstDot;
    FirstDotOf(name, "");
    assert name[..|name|] == name;
  }

  lemma PartsOfName(a: string)
    requires IsName(a)
    ensures Parts(a) == [a]
  {
    FirstDotOf(a, "");
    assert a[..|a|] == a;
  }

  /** Every list of names is the part list of some key. */
  lemma {:induction false} PartsOfJoin(parts: seq<string>)
    requires AreNames(parts)
    ensures Parts(Join(parts)) == parts
  {
    hide Parts;
    if parts == [] {
      NoParts();
    } else {
      assert IsName(parts[0]);
      PartsOfName(parts[0]);
      if |parts| > 1 {
        PartsOfJoin(parts[1..]);
        PartsOfConcat(parts[0], Join(parts[1..]));
      }
    }
  }

  lemma NoParts()
    ensures Parts("") == []
  {
  }

  // ----- reading and writing at a path ------------------------------------------

  function Members(t: Json): map<string, Json> {
    if t.Obj? then t.members else map[]
  }

  function Get(t: Json, path: seq<string>): Option<Json>
    requires path != []
    decreases |path|
  {
    if path[0] !in Members(t) then None
    else if |path| == 1 then Some(Members(t)[path[0]])
    else Get(Members(t)[path[0]], path[1..])
  }

  function Child(t: Json, name: string): Json {
    if name in Members(t) then Members(t)[name] else Null
  }

  /** `t` as an object whose member `name` is `c`. */
  function With(t: Json, name: string, c: Json): Json {
    Obj(Members(t)[name := c])
  }

  /** The tree after writing `v` at `path`; whatever is in the way becomes an object. */
  function Put(t: Json, path: seq<string>, v: Json): Json
    requires path != []
    decreases |path|
  {
    With(t, path[0], if |path| == 1 then v else Put(Child(t, path[0]), path[1..], v))
  }

  function Previous(t: Json, path: seq<string>): seq<Json>
    requires path != []
  {
    if Get(t, path).Some? && Get(t, path).value.Arr? then Get(t, path).value.elems else []
  }

  /** The tree after appending `e` to the array at `path`. */
  function Append(t: Json, path: seq<string>, e: Json): Json
    requires path != []
  {
    Put(t, path, Arr(Previous(t, path) + [e]))
  }

  function AppendAll(t: Json, path: seq<string>, es: seq<Json>): Json
    requires path != []
    decreases |es|
  {
    if es == [] then t else AppendAll(Append(t, path, es[0]), path, es[1..])
  }

  /** Neither path is a prefix of the other. */
  predicate Incomparable(p: seq<string>, q: seq<string>) {
    !(p <= q) && !(q <= p)
  }

  lemma PathTail(path: seq<string>, more: seq<string>)
    requires path != []
    ensures (path + more)[0] == path[0] && (path + more)[1..] == path[1..] + more
    ensures |path| == 1 ==> path[1..] + more == more
  {
  }

  lemma GetStep(t: Json, path: seq<string>)
    requires |path| > 1
    ensures Get(t, path) == if path[0] in Members(t) then Get(Child(t, path[0]), path[1..]) else None
  {
  }

  lemma PutStep(t: Json, path: seq<string>, v: Json)
    requires path != []
    ensures Put(t, path, v)
         == With(t, path[0], if |path| == 1 then v else Put(Child(t, path[0]), path[1..], v))
  {
  }

  lemma WithSame(t: Json, name: string, c: Json, d: Json)
    ensures Child(With(t, name, c), name) == c
    ensures With(With(t, name, c), name, d) == With(t, name, d)
  {
  }

  lemma WithOther(t: Json, name: string, c: Json, other: string, d: Json)
    requires name != other
    ensures Child(With(t, name, c), other) == Child(t, other)
    ensures With(With(t, name, c), other, d) == With(With(t, other, d), name, c)
  {
    var m := Members(t);
    assert m[name := c][other := d] == m[other := d][name := c];
  }

  // ----- laws of reading after writing ------------------------------------------

  lemma {:induction false} GetPut(t: Json, path: seq<string>, v: Json)
    requires path != []
    ensures Get(Put(t, path, v), path) == Some(v)
    decreases |path|
  {
    if |path| > 1 {
      GetPut(Child(t, path[0]), path[1..], v);
    }
  }

  /** Below the written path one reads inside the written value. */
  lemma {:induction false} GetPutBelow(t: Json, path: seq<string>, v: Json, more: seq<string>)
    requires path != [] && more != []
    ensures Get(Put(t, path, v), path + more) == Get(v, more)
    decreases |path|
  {
    hide Get, Put;
    PathTail(path, more);
    PutStep(t, path, v);
    GetStep(Put(t, path, v), path + more);
    if |path| > 1 {
      GetPutBelow(Child(t, path[0]), path[1..], v, more);
    }
  }

  /** Beside the written path nothing changes, even where scalars had to make way. */
  lemma {:induction false} GetPutBeside(t: Json, path: seq<string>, v: Json, other: seq<string>)
    requires Incomparable(path, other)
    ensures path != [] && other != []
    ensures Get(Put(t, path, v), other) == Get(t, other)
    decreases |path|
  {
    hide Put;
    PutStep(t, path, v);
    if path[0] == other[0] {
      hide Get;
      IncomparableTails(path, other);
      GetStep(t, other);
      GetStep(Put(t, path, v), other);
      GetPutBeside(Child(t, path[0]), path[1..], v, other[1..]);
      if path[0] !in Members(t) {
        GetNull(other[1..]);
      }
    }
  }

  lemma GetNull(path: seq<string>)
    requires path != []
    ensures Get(Null, path) == None
  {
  }

  /** Paths that part ways after a common first name have a second one each. */
  lemma IncomparableTails(p: seq<string>, q: seq<string>)
    requires Incomparable(p, q) && p != [] && q != [] && p[0] == q[0]
    ensures |p| > 1 && |q| > 1 && Incomparable(p[1..], q[1..])
  {
    assert p == [p[0]] + p[1..] && q == [q[0]] + q[1..];
    assert |p| == 1 ==> p <= q;
    assert |q| == 1 ==> q <= p;
  }

  /** Above the written path one reads the old subtree with the rest of the path written. */
  lemma {:induction false} GetPutAbove(t: Json, path: seq<string>, more: seq<string>, v: Json)
    requires path != [] && more != []
    ensures Get(Put(t, path + more, v), path)
         == Some(Put(if Get(t, path).Some? then Get(t, path).value else Null, more, v))
    decreases |path|
  {
    hide Put;
    PathTail(path, more);
    PutStep(t, path + more, v);
    if |path| > 1 {
      hide Get;
      GetStep(t, path);
      GetStep(Put(t, path + more, v), path);
      GetPutAbove(Child(t, path[0]), path[1..], more, v);
      GetNull(path[1..]);
    }
  }

  // ----- laws of writing twice --------------------------------------------------

  lemma {:induction false} PutPut(t: Json, path: seq<string>, v: Json, w: Json)
    requires path != []
    ensures Put(Put(t, path, v), path, w) == Put(t, path, w)
    decreases |path|
  {
    if |path| > 1 {
      PutPut(Child(t, path[0]), path[1..], v, w);
    }
  }

  /** Writing at a prefix forgets whatever was written below it. */
  lemma {:induction false} PutAbsorbs(t: Json, path: seq<string>, more: seq<string>, v: Json, w: Json)
    requires path != [] && more != []
    ensures Put(Put(t, path + more, v), path, w) == Put(t, path, w)
    decreases |path|
  {
    hide Put, With, Child;
    PathTail(path, more);
    var name, c, all := path[0], Child(t, path[0]), path + more;
    PutStep(t, all, v);
    PutStep(Put(t, all, v), path, w);
    PutStep(t, path, w);
    WithSame(t, name, Put(c, all[1..], v), if |path| == 1 then w else Put(c, path[1..], w));
    if |path| > 1 {
      PutAbsorbs(c, path[1..], more, v, w);
    }
  }

  /** Writing below a path just written is writing inside the written value. */
  lemma {:induction false} PutBelow(t: Json, path: seq<string>, more: seq<string>, v: Json, w: Json)
    requires path != [] && more != []
    ensures Put(Put(t, path, v), path + more, w) == Put(t, path, Put(v, more, w))
    decreases |path|
  {
    hide Put, With, Child;
    PathTail(path, more);
    var name, c, all := path[0], Child(t, path[0]), path + more;
    PutStep(t, path, v);
    PutStep(Put(t, path, v), all, w);
    PutStep(t, path, Put(v, more, w));
    if |path| == 1 {
      WithSame(t, name, v, Put(v, more, w));
    } else {
      PutBelow(c, path[1..], more, v, w);
      WithSame(t, name, Put(c, path[1..], v), Put(c, path[1..], Put(v, more, w)));
    }
  }

  /** Writing back what is there changes nothing. */
  lemma {:induction false} PutGet(t: Json, path: seq<string>)
    requires path != [] && Get(t, path).Some?
    ensures Put(t, path, Get(t, path).value) == t
    decreases |path|
  {
    if |path| > 1 {
      PutGet(Child(t, path[0]), path[1..]);
    }
  }

  lemma {:induction false} PutCommutes(t: Json, p: seq<string>, v: Json, q: seq<string>, w: Json)
    requires Incomparable(p, q)
    ensures p != [] && q != []
    ensures Put(Put(t, p, v), q, w) == Put(Put(t, q, w), p, v)
    decreases |p|
  {
    hide Put, With, Child;
    var c, d := Child(t, p[0]), Child(t, q[0]);
    PutStep(t, p, v);
    PutStep(t, q, w);
    PutStep(Put(t, p, v), q, w);
    PutStep(Put(t, q, w), p, v);
    if p[0] == q[0] {
      IncomparableTails(p, q);
      PutCommutes(c, p[1..], v, q[1..], w);
      var cp, cq := Put(c, p[1..], v), Put(c, q[1..], w);
      WithSame(t, p[0], cp, Put(cp, q[1..], w));
      WithSame(t, p[0], cq, Put(cq, p[1..], v));
    } else {
      var cp := if |p| == 1 then v else Put(c, p[1..], v);
      var cq := if |q| == 1 then w else Put(d, q[1..], w);
      WithOther(t, p[0], cp, q[0], cq);
      WithOther(t, q[0], cq, p[0], cp);
    }
  }

  // ----- laws of appending ------------------------------------------------------

  /** The array at the path grows by the element; anything else there starts anew. */
  lemma GetAppend(t: Json, path: seq<string>, e: Json)
    requires path != []
    ensures Get(Append(t, path, e), path) == Some(Arr(Previous(t, path) + [e]))
  {
    GetPut(t, path, Arr(Previous(t, path) + [e]));
  }

  lemma GetAppendBeside(t: Json, path: seq<string>, e: Json, other: seq<string>)
    requires Incomparable(path, other)
    ensures path != [] && other != []
    ensures Get(Append(t, path, e), other) == Get(t, other)
  {
    GetPutBeside(t, path, Arr(Previous(t, path) + [e]), other);
  }

  /** Appending a list one by one leaves exactly that list behind what was there. */
  lemma {:induction false} GetAppendAll(t: Json, path: seq<string>, es: seq<Json>)
    requires path != [] && es != []
    ensures Get(AppendAll(t, path, es), path) == Some(Arr(Previous(t, path) + es))
    decreases |es|
  {
    var t' := Append(t, path, es[0]);
    GetAppend(t, path, es[0]);
    if |es| == 1 {
      assert AppendAll(t', path, es[1..]) == t' && es == [es[0]];
    } else {
      GetAppendAll(t', path, es[1..]);
      assert Previous(t', path) + es[1..] == Previous(t, path) + es;
    }
  }

  lemma AppendsToFreshKey(t: Json, path: seq<string>, es: seq<Json>)
    requires path != [] && es != [] && Get(t, path) == None
    ensures Get(AppendAll(t, path, es), path) == Some(Arr(es))
  {
    GetAppendAll(t, path, es);
    assert Previous(t, path) + es == es;
  }
}
