/** Which elements of a sequence a shorter one is made of. */
module Sequences {

  /** `t` is `s` read at rising places, which are those of the elements that pass. */
  ghost predicate SelectsAt<T>(at: seq<nat>, s: seq<T>, t: seq<T>, passes: T -> bool) {
    && |at| == |t|
    && (forall i, j | 0 <= i < j < |at| :: at[i] < at[j])
    && (forall i | 0 <= i < |at| :: at[i] < |s| && t[i] == s[at[i]])
    && (forall k | 0 <= k < |s| :: k in at <==> passes(s[k]))
  }

  /** `t` is what is left of `s` without the elements that do not pass: the others are all there, in order. */
  ghost predicate Selects<T>(s: seq<T>, t: seq<T>, passes: T -> bool) {
    exists at: seq<nat> :: SelectsAt(at, s, t, passes)
  }

  lemma SelectsNone<T>(passes: T -> bool)
    ensures Selects<T>([], [], passes)
  {
    assert SelectsAt<T>([], [], [], passes);
  }

  lemma SelectsMore<T>(s: seq<T>, t: seq<T>, x: T, passes: T -> bool)
    requires Selects(s, t, passes)
    ensures Selects(s + [x], t + (if passes(x) then [x] else []), passes)
  {
    var at: seq<nat> :| SelectsAt(at, s, t, passes);
    SelectsAtMore(at, s, t, x, passes);
  }

  lemma SelectsAtMore<T>(at: seq<nat>, s: seq<T>, t: seq<T>, x: T, passes: T -> bool)
    requires SelectsAt(at, s, t, passes)
    ensures SelectsAt(at + (if passes(x) then [|s|] else []), s + [x], t + (if passes(x) then [x] else []), passes)
  {
  }

  /** Two such sequences are one. */
  lemma SelectionUnique<T>(s: seq<T>, t: seq<T>, u: seq<T>, passes: T -> bool)
    requires Selects(s, t, passes) && Selects(s, u, passes)
    ensures t == u
  {
    var a: seq<nat> :| SelectsAt(a, s, t, passes);
    var b: seq<nat> :| SelectsAt(b, s, u, passes);
    assert forall x :: x in a <==> x in b by {
      forall x | x in a ensures x in b { var i :| 0 <= i < |a| && a[i] == x; }
      forall x | x in b ensures x in a { var i :| 0 <= i < |b| && b[i] == x; }
    }
    RisingUnique(a, b);
  }

  lemma {:induction false} RisingUnique(a: seq<nat>, b: seq<nat>)
    requires forall i, j | 0 <= i < j < |a| :: a[i] < a[j]
    requires forall i, j | 0 <= i < j < |b| :: b[i] < b[j]
    requires forall x :: x in a <==> x in b
    ensures a == b
  {
    if b != [] {
      assert b[0] in a;
    }
    if a != [] {
      assert a[0] in b;
      var m, n := |a| - 1, |b| - 1;
      assert a[m] in b && b[n] in a;
      assert a[m] == b[n];
      assert forall x :: x in a[..m] <==> x in a && x < a[m];
      assert forall x :: x in b[..n] <==> x in b && x < b[n];
      RisingUnique(a[..m], b[..n]);
      assert a == a[..m] + [a[m]] && b == b[..n] + [b[n]];
    }
  }
}
