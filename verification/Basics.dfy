/** Shared value types and the few facts about finite sets that the counting theorems need. */
module Basics {

  datatype Option<+T> = None | Some(value: T)

  function Abs(x: int): nat { if x < 0 then -x else x }

  function AbsReal(x: real): real { if x < 0.0 then -x else x }

  function MaxReal(x: real, y: real): real { if x < y then y else x }

  function Min(x: nat, y: nat): nat { if x < y then x else y }

  function AllButLast<T>(s: seq<T>): seq<T>
    requires s != []
  {
    s[..|s| - 1]
  }

  function Last<T>(s: seq<T>): T
    requires s != []
  {
    s[|s| - 1]
  }

  ghost predicate Injective<A(!new), B>(m: map<A, B>) {
    forall a, b :: a in m && b in m && m[a] == m[b] ==> a == b
  }

  /** A one-to-one correspondence between two finite sets makes them equally large. */
  lemma {:induction false} BijectionCard<A(!new), B>(m: map<A, B>)
    requires Injective(m)
    ensures |m.Keys| == |m.Values|
  {
    if m.Keys == {} {
      assert m.Values == {};
    } else {
      var a :| a in m;
      var rest := map x | x in m && x != a :: m[x];
      assert rest.Keys == m.Keys - {a};
      BijectionCard(rest);
      assert m.Values == rest.Values + {m[a]} by {
        forall b | b in m.Values ensures b in rest.Values + {m[a]} {
          var x :| x in m && m[x] == b;
          if x != a { assert rest[x] == b; }
        }
        assert m[a] in m.Values;
        assert forall b :: b in rest.Values ==> b in m.Values;
      }
    }
  }

  /** The same fact with both sets given outright. */
  lemma SameCard<A(!new), B>(from: set<A>, to: set<B>, m: map<A, B>)
    requires m.Keys == from && Injective(m)
    requires forall a :: a in m ==> m[a] in to
    requires forall b :: b in to ==> exists a :: a in m && m[a] == b
    ensures |from| == |to|
  {
    BijectionCard(m);
    assert m.Values == to;
  }

  lemma SubsetCard<T>(small: set<T>, large: set<T>)
    requires small <= large
    ensures |small| <= |large|
    ensures |small| == |large| ==> small == large
  {
    assert large == small + (large - small);
    assert |large| == |small| + |large - small|;
  }

  lemma UnionCard<T>(a: set<T>, b: set<T>, c: set<T>)
    requires a !! b && a !! c && b !! c
    ensures |a + b + c| == |a| + |b| + |c|
  {
    assert |a + b| == |a| + |b|;
    assert (a + b) !! c;
  }

  /** A set with a member, all of whose members coincide, has exactly one element. */
  lemma SingletonCard<T>(s: set<T>, x: T)
    requires x in s && forall y :: y in s ==> y == x
    ensures |s| == 1
  {
    assert s == {x};
  }
}
