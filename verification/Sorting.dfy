/** The sorts the sources call: a stable insertion sort by a caller's `before-or-equal` order. */
module Sorting {

  function Insert<T>(xs: seq<T>, x: T, le: (T, T) -> bool): seq<T>
  {
    if xs == [] then [x]
    else if le(xs[|xs| - 1], x) then xs + [x]
    else Insert(xs[..|xs| - 1], x, le) + [xs[|xs| - 1]]
  }

  function Sort<T>(xs: seq<T>, le: (T, T) -> bool): seq<T>
  {
    if xs == [] then [] else Insert(Sort(xs[..|xs| - 1], le), xs[|xs| - 1], le)
  }

  ghost predicate Sorted<T>(xs: seq<T>, le: (T, T) -> bool)
  {
    forall i, j :: 0 <= i < j < |xs| ==> le(xs[i], xs[j])
  }

  /** `le` is a total preorder. */
  ghost predicate Orders<T(!new)>(le: (T, T) -> bool)
  {
    && (forall x, y :: le(x, y) || le(y, x))
    && (forall x, y, z :: le(x, y) && le(y, z) ==> le(x, z))
  }

  lemma {:induction false} InsertPermutes<T>(xs: seq<T>, x: T, le: (T, T) -> bool)
    ensures multiset(Insert(xs, x, le)) == multiset(xs) + multiset{x}
  {
    if xs != [] {
      assert xs == xs[..|xs| - 1] + [xs[|xs| - 1]];
      InsertPermutes(xs[..|xs| - 1], x, le);
    }
  }

  /** Sorting keeps every element, with its multiplicity. */
  lemma {:induction false} SortPermutes<T>(xs: seq<T>, le: (T, T) -> bool)
    ensures multiset(Sort(xs, le)) == multiset(xs)
    ensures |Sort(xs, le)| == |xs|
    ensures forall x :: x in Sort(xs, le) <==> x in xs
  {
    if xs == [] {
    } else {
      SortPermutes(xs[..|xs| - 1], le);
      InsertPermutes(Sort(xs[..|xs| - 1], le), xs[|xs| - 1], le);
      assert xs == xs[..|xs| - 1] + [xs[|xs| - 1]];
    }
    assert |Sort(xs, le)| == |multiset(Sort(xs, le))| == |multiset(xs)| == |xs|;
    assert forall x :: x in Sort(xs, le) <==> x in multiset(Sort(xs, le));
    assert forall x :: x in xs <==> x in multiset(xs);
  }

  lemma {:induction false} InsertSorts<T(!new)>(xs: seq<T>, x: T, le: (T, T) -> bool)
    requires Orders(le)
    requires Sorted(xs, le)
    ensures Sorted(Insert(xs, x, le), le)
  {
    if xs == [] {
    } else {
      var last := xs[|xs| - 1];
      if le(last, x) {
        forall i | 0 <= i < |xs| ensures le(xs[i], x) {
          assert le(xs[i], last);
        }
      } else {
        var init := xs[..|xs| - 1];
        InsertSorts(init, x, le);
        InsertPermutes(init, x, le);
        var r := Insert(init, x, le);
        forall i | 0 <= i < |r| ensures le(r[i], last) {
          assert r[i] in multiset(r);
          if r[i] != x {
            assert r[i] in multiset(init);
            var k :| 0 <= k < |init| && init[k] == r[i];
            assert le(xs[k], last);
          }
        }
      }
    }
  }

  /** Sorting by a total preorder sorts. */
  lemma {:induction false} SortSorts<T(!new)>(xs: seq<T>, le: (T, T) -> bool)
    requires Orders(le)
    ensures Sorted(Sort(xs, le), le)
  {
    if xs != [] {
      SortSorts(xs[..|xs| - 1], le);
      InsertSorts(Sort(xs[..|xs| - 1], le), xs[|xs| - 1], le);
    }
  }
}
