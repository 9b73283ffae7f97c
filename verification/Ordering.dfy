// Sorting finite sets by a strict total order, as ORDER BY does.
module Ordering {

  ghost predicate StrictTotal<T(!new)>(less: (T, T) -> bool) {
    && (forall x :: !less(x, x))
    && (forall x, y, z :: less(x, y) && less(y, z) ==> less(x, z))
    && (forall x, y :: x != y ==> less(x, y) || less(y, x))
  }

  predicate First<T(==)>(s: set<T>, less: (T, T) -> bool, x: T) {
    x in s && forall y :: y in s && y != x ==> less(x, y)
  }

  lemma {:induction false} FirstExists<T(!new)>(s: set<T>, less: (T, T) -> bool)
    requires StrictTotal(less) && s != {}
    ensures exists x :: First(s, less, x)
    decreases s
  {
    var y :| y in s;
    if s == {y} {
      assert First(s, less, y);
    } else {
      FirstExists(s - {y}, less);
      var rest :| First(s - {y}, less, rest);
      var x := if less(y, rest) then y else rest;
      forall z | z in s && z != x
        ensures less(x, z)
      {
        assert z == y || z in s - {y};
      }
      assert First(s, less, x);
    }
  }

  // The elements of s in order.
  ghost function Sort<T(!new)>(s: set<T>, less: (T, T) -> bool): seq<T>
    requires StrictTotal(less)
    decreases s
  {
    if s == {} then []
    else
      FirstExists(s, less);
      var x :| First(s, less, x);
      [x] + Sort(s - {x}, less)
  }

  ghost predicate InOrder<T(!new)>(xs: seq<T>, less: (T, T) -> bool) {
    forall i, j :: 0 <= i < j < |xs| ==> less(xs[i], xs[j])
  }

  ghost predicate Lists<T(!new)>(xs: seq<T>, s: set<T>) {
    |xs| == |s| && forall x :: x in xs <==> x in s
  }

  lemma {:induction false} SortIsSorted<T(!new)>(s: set<T>, less: (T, T) -> bool)
    requires StrictTotal(less)
    ensures InOrder(Sort(s, less), less) && Lists(Sort(s, less), s)
    decreases s
  {
    if s != {} {
      var x := Sort(s, less)[0];
      assert First(s, less, x) && Sort(s, less) == [x] + Sort(s - {x}, less) by {
        FirstExists(s, less);
      }
      SortIsSorted(s - {x}, less);
      assert s == (s - {x}) + {x};
    }
  }

  // There is only one way to list a set in order.
  lemma {:induction false} SortIsUnique<T(!new)>(xs: seq<T>, s: set<T>, less: (T, T) -> bool)
    requires StrictTotal(less) && InOrder(xs, less) && forall x :: x in xs <==> x in s
    ensures xs == Sort(s, less)
    decreases s
  {
    if xs == [] {
      assert s == {};
    } else {
      var x := xs[0];
      assert x in s && First(s, less, x);
      var f := Sort(s, less)[0];
      assert First(s, less, f) && Sort(s, less) == [f] + Sort(s - {f}, less) by {
        FirstExists(s, less);
      }
      assert x == f;
      forall z
        ensures z in xs[1..] <==> z in s - {x}
      {
        if z in xs[1..] {
          var i :| 0 <= i < |xs| - 1 && xs[1..][i] == z;
          assert xs[i + 1] == z;
        }
        if z in s - {x} {
          var i :| 0 <= i < |xs| && xs[i] == z;
          assert xs[1..][i - 1] == z;
        }
      }
      SortIsUnique(xs[1..], s - {x}, less);
    }
  }

  ghost function After<T(!new)>(s: set<T>, less: (T, T) -> bool, c: T): set<T> {
    set x | x in s && less(c, x)
  }

  lemma RestIsAfter<T(!new)>(xs: seq<T>, s: set<T>, less: (T, T) -> bool, k: nat, x: T)
    requires StrictTotal(less) && InOrder(xs, less) && Lists(xs, s) && k < |xs|
    ensures x in xs[k + 1..] <==> x in After(s, less, xs[k])
  {
    if x in xs[k + 1..] {
      var i :| 0 <= i < |xs| - k - 1 && xs[k + 1..][i] == x;
      assert xs[k + 1 + i] == x;
    }
    if x in After(s, less, xs[k]) {
      var i :| 0 <= i < |xs| && xs[i] == x;
      assert i > k;
      assert xs[k + 1..][i - k - 1] == x;
    }
  }

  lemma RestIsInOrder<T(!new)>(xs: seq<T>, less: (T, T) -> bool, k: nat)
    requires InOrder(xs, less) && k <= |xs|
    ensures InOrder(xs[k..], less)
  {
  }

  // What comes after the k-th element is listed by the rest of the list.
  lemma AfterIsRest<T(!new)>(s: set<T>, less: (T, T) -> bool, k: nat)
    requires StrictTotal(less) && k < |Sort(s, less)|
    ensures Sort(After(s, less, Sort(s, less)[k]), less) == Sort(s, less)[k + 1..]
  {
    var xs := Sort(s, less);
    SortIsSorted(s, less);
    RestIsInOrder(xs, less, k + 1);
    forall x
      ensures x in xs[k + 1..] <==> x in After(s, less, xs[k])
    {
      RestIsAfter(xs, s, less, k, x);
    }
    SortIsUnique(xs[k + 1..], After(s, less, xs[k]), less);
  }
}
