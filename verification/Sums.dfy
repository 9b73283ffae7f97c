// Sums over finite sets.
module Sums {

  ghost function Sum<T(!new)>(s: set<T>, f: T -> int): int
    decreases s
  {
    if s == {} then 0
    else
      var x :| x in s;
      f(x) + Sum(s - {x}, f)
  }

  // Any element can be taken out first.
  lemma {:induction false} TakeOut<T(!new)>(s: set<T>, f: T -> int, x: T)
    requires x in s
    ensures Sum(s, f) == f(x) + Sum(s - {x}, f)
    decreases s
  {
    var y :| y in s && Sum(s, f) == f(y) + Sum(s - {y}, f);
    if y != x {
      TakeOut(s - {y}, f, x);
      TakeOut(s - {x}, f, y);
      assert s - {y} - {x} == s - {x} - {y};
    }
  }

  lemma {:induction false} SumSame<T(!new)>(s: set<T>, f: T -> int, g: T -> int)
    requires forall x :: x in s ==> f(x) == g(x)
    ensures Sum(s, f) == Sum(s, g)
    decreases s
  {
    if s != {} {
      var x :| x in s;
      TakeOut(s, f, x);
      TakeOut(s, g, x);
      SumSame(s - {x}, f, g);
    }
  }

  lemma {:induction false} SumAtMost<T(!new)>(s: set<T>, f: T -> int, bound: nat)
    requires forall x :: x in s ==> 0 <= f(x) <= bound
    ensures 0 <= Sum(s, f) <= |s| * bound
    decreases s
  {
    if s != {} {
      var x :| x in s;
      TakeOut(s, f, x);
      SumAtMost(s - {x}, f, bound);
      OneMore(|s - {x}|, bound);
    }
  }

  lemma OneMore(n: nat, bound: nat)
    ensures (n + 1) * bound == n * bound + bound
  {
  }

  // Changing one term changes the sum by as much.
  lemma SumChanges<T(!new)>(s: set<T>, f: T -> int, g: T -> int, x: T)
    requires x in s && forall y :: y in s && y != x ==> f(y) == g(y)
    ensures Sum(s, g) == Sum(s, f) - f(x) + g(x)
  {
    TakeOut(s, f, x);
    TakeOut(s, g, x);
    SumSame(s - {x}, f, g);
  }

  // A set is as large as the parts it falls into.
  function Part<T, K(==)>(s: set<T>, key: T -> K, k: K): set<T> {
    set x | x in s && key(x) == k
  }

  lemma {:induction false} PartsAddUp<T(!new), K(!new)>(s: set<T>, key: T -> K, keys: set<K>, size: K -> int)
    requires forall x :: x in s ==> key(x) in keys
    requires forall k :: k in keys ==> size(k) == |Part(s, key, k)|
    ensures |s| == Sum(keys, size)
    decreases keys
  {
    if keys == {} {
      assert s == {};
    } else {
      var k :| k in keys;
      var part := Part(s, key, k);
      TakeOut(keys, size, k);
      forall o | o in keys - {k}
        ensures Part(s - part, key, o) == Part(s, key, o)
      {
      }
      PartsAddUp(s - part, key, keys - {k}, size);
      assert s == part + (s - part);
    }
  }

  // A sum over a list of a set's elements.
  function SumOf<T>(xs: seq<T>, f: T -> int): int {
    if xs == [] then 0 else f(xs[0]) + SumOf(xs[1..], f)
  }

  lemma {:induction false} ListSums<T(!new)>(xs: seq<T>, s: set<T>, f: T -> int)
    requires |xs| == |s| && forall x :: x in xs <==> x in s
    ensures SumOf(xs, f) == Sum(s, f)
    decreases |xs|
  {
    if xs != [] {
      var x := xs[0];
      OnceInList(xs, s);
      assert forall y :: y in xs <==> y == x || y in xs[1..];
      TakeOut(s, f, x);
      ListSums(xs[1..], s - {x}, f);
    }
  }

  // No element is listed twice when the list is as long as the set is large.
  lemma {:induction false} OnceInList<T>(xs: seq<T>, s: set<T>)
    requires xs != [] && |xs| == |s| && forall x :: x in xs <==> x in s
    ensures xs[0] !in xs[1..]
  {
    if xs[0] in xs[1..] {
      assert s == set x | x in xs[1..];
      AtMostAsLong(xs[1..]);
    }
  }

  lemma {:induction false} AtMostAsLong<T>(xs: seq<T>)
    ensures |set x | x in xs| <= |xs|
  {
    if xs == [] {
      assert (set x | x in xs) == {};
    } else {
      AtMostAsLong(xs[1..]);
      assert (set x | x in xs) == {xs[0]} + set x | x in xs[1..];
    }
  }
}
