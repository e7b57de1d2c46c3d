/** Vocabulary shared by every component: optional values, results, and sums over lists. */
module Common {

  datatype Option<+T> = None | Some(value: T)

  datatype Result<+T, +E> = Ok(value: T) | Err(error: E) {
    predicate IsFailure() { Err? }

    function PropagateFailure<U>(): Result<U, E>
      requires Err?
    {
      Err(error)
    }

    function Extract(): T
      requires Ok?
    {
      value
    }
  }

  function Min(a: int, b: int): int { if a < b then a else b }

  function Max(a: int, b: int): int { if a > b then a else b }

  function Abs(x: int): nat { if x < 0 then -x else x }

  /** The elements that satisfy `p`, in order. */
  function Filter<T>(xs: seq<T>, p: T -> bool): (r: seq<T>)
    ensures |r| <= |xs|
    ensures forall x :: x in r ==> x in xs && p(x)
    ensures forall x :: x in xs && p(x) ==> x in r
  {
    if xs == [] then []
    else
      var rest := Filter(xs[..|xs| - 1], p);
      if p(xs[|xs| - 1]) then rest + [xs[|xs| - 1]] else rest
  }

  lemma {:induction false} FilterAll<T>(xs: seq<T>, p: T -> bool)
    requires forall x :: x in xs ==> p(x)
    ensures Filter(xs, p) == xs
  {
    if xs != [] {
      FilterAll(xs[..|xs| - 1], p);
    }
  }

  lemma {:induction false} FilterNone<T>(xs: seq<T>, p: T -> bool)
    requires forall x :: x in xs ==> !p(x)
    ensures Filter(xs, p) == []
  {
    if xs != [] {
      FilterNone(xs[..|xs| - 1], p);
    }
  }

  lemma {:induction false} FilterAppend<T>(xs: seq<T>, ys: seq<T>, p: T -> bool)
    ensures Filter(xs + ys, p) == Filter(xs, p) + Filter(ys, p)
  {
    if ys == [] {
      assert xs + ys == xs;
    } else {
      assert (xs + ys)[..|xs + ys| - 1] == xs + ys[..|ys| - 1];
      FilterAppend(xs, ys[..|ys| - 1], p);
    }
  }

  function Map<T, U>(xs: seq<T>, f: T -> U): (r: seq<U>)
    ensures |r| == |xs|
    ensures forall i :: 0 <= i < |xs| ==> r[i] == f(xs[i])
  {
    seq(|xs|, i requires 0 <= i < |xs| => f(xs[i]))
  }

  /** The list of lists, joined. */
  function Concat<T>(xss: seq<seq<T>>): seq<T>
  {
    if xss == [] then [] else Concat(xss[..|xss| - 1]) + xss[|xss| - 1]
  }

  /** Sum of `f` over a list, accumulated from the left as a loop does. */
  function SumBy<T>(xs: seq<T>, f: T -> int): int
  {
    if xs == [] then 0 else SumBy(xs[..|xs| - 1], f) + f(xs[|xs| - 1])
  }

  lemma {:induction false} SumByAppend<T>(xs: seq<T>, ys: seq<T>, f: T -> int)
    ensures SumBy(xs + ys, f) == SumBy(xs, f) + SumBy(ys, f)
  {
    if ys == [] {
      assert xs + ys == xs;
    } else {
      assert (xs + ys)[..|xs + ys| - 1] == xs + ys[..|ys| - 1];
      SumByAppend(xs, ys[..|ys| - 1], f);
    }
  }

  lemma {:induction false} SumByStep<T>(xs: seq<T>, k: nat, f: T -> int)
    requires k < |xs|
    ensures SumBy(xs[..k + 1], f) == SumBy(xs[..k], f) + f(xs[k])
  {
    assert xs[..k + 1][..k] == xs[..k];
  }

  /** Taking one element out of the middle. */
  lemma {:induction false} SumByRemove<T>(xs: seq<T>, k: nat, f: T -> int)
    requires k < |xs|
    ensures SumBy(xs, f) == SumBy(xs[..k] + xs[k + 1..], f) + f(xs[k])
  {
    assert xs == xs[..k] + [xs[k]] + xs[k + 1..];
    SumByAppend(xs[..k] + [xs[k]], xs[k + 1..], f);
    SumByAppend(xs[..k], [xs[k]], f);
    SumByAppend(xs[..k], xs[k + 1..], f);
    assert [xs[k]][..0] == [];
  }

  lemma RemoveFromMultiset<T>(xs: seq<T>, k: nat)
    requires k < |xs|
    ensures multiset(xs[..k] + xs[k + 1..]) == multiset(xs) - multiset{xs[k]}
  {
    assert xs == xs[..k] + [xs[k]] + xs[k + 1..];
  }

  /** A sum does not depend on the order of its terms. */
  lemma {:induction false} SumByPermutation<T>(xs: seq<T>, ys: seq<T>, f: T -> int)
    requires multiset(xs) == multiset(ys)
    ensures SumBy(xs, f) == SumBy(ys, f)
    decreases |xs|
  {
    if xs == [] {
      assert |multiset(ys)| == 0;
    } else {
      var x := xs[|xs| - 1];
      assert x in multiset(xs);
      assert x in ys;
      var k :| 0 <= k < |ys| && ys[k] == x;
      RemoveFromMultiset(xs, |xs| - 1);
      RemoveFromMultiset(ys, k);
      assert xs[..|xs| - 1] + xs[|xs| - 1 + 1..] == xs[..|xs| - 1];
      SumByPermutation(xs[..|xs| - 1], ys[..k] + ys[k + 1..], f);
      SumByRemove(ys, k, f);
    }
  }

  /** A predicate and its complement split the sum. */
  lemma {:induction false} SumBySplit<T>(xs: seq<T>, p: T -> bool, q: T -> bool, f: T -> int)
    requires forall x :: x in xs ==> q(x) == !p(x)
    ensures SumBy(xs, f) == SumBy(Filter(xs, p), f) + SumBy(Filter(xs, q), f)
  {
    if xs != [] {
      var ys, x := xs[..|xs| - 1], xs[|xs| - 1];
      SumBySplit(ys, p, q, f);
      SumByAppend(Filter(ys, p), [x], f);
      SumByAppend(Filter(ys, q), [x], f);
      assert [x][..0] == [];
    }
  }

  /** The elements a filter drops contribute nothing when `f` is zero on them. */
  lemma {:induction false} SumByFilterZero<T>(xs: seq<T>, p: T -> bool, f: T -> int)
    requires forall x :: x in xs && !p(x) ==> f(x) == 0
    ensures SumBy(Filter(xs, p), f) == SumBy(xs, f)
  {
    if xs != [] {
      var ys, x := xs[..|xs| - 1], xs[|xs| - 1];
      SumByFilterZero(ys, p, f);
      SumByAppend(Filter(ys, p), [x], f);
      assert [x][..0] == [];
    }
  }

  lemma {:induction false} SumByLe<T>(xs: seq<T>, f: T -> int, g: T -> int)
    requires forall x :: x in xs ==> f(x) <= g(x)
    ensures SumBy(xs, f) <= SumBy(xs, g)
  {
    if xs != [] {
      SumByLe(xs[..|xs| - 1], f, g);
    }
  }

  lemma {:induction false} SumByEq<T>(xs: seq<T>, f: T -> int, g: T -> int)
    requires forall x :: x in xs ==> f(x) == g(x)
    ensures SumBy(xs, f) == SumBy(xs, g)
  {
    SumByLe(xs, f, g);
    SumByLe(xs, g, f);
  }

  lemma {:induction false} SumByNonNegative<T>(xs: seq<T>, f: T -> int)
    requires forall x :: x in xs ==> f(x) >= 0
    ensures SumBy(xs, f) >= 0
  {
    if xs != [] {
      SumByNonNegative(xs[..|xs| - 1], f);
    }
  }

  /** One term of a sum of non-negative terms is at most the sum. */
  lemma {:induction false} SumByTerm<T>(xs: seq<T>, k: nat, f: T -> int)
    requires k < |xs|
    requires forall x :: x in xs ==> f(x) >= 0
    ensures f(xs[k]) <= SumBy(xs, f)
  {
    SumByRemove(xs, k, f);
    SumByNonNegative(xs[..k] + xs[k + 1..], f);
  }

  /** A sum that is not zero has a term that is not. */
  lemma {:induction false} SomeTerm<T>(xs: seq<T>, g: T -> int) returns (x: T)
    requires SumBy(xs, g) != 0
    ensures x in xs && g(x) != 0
  {
    x := xs[|xs| - 1];
    if g(x) == 0 {
      x := SomeTerm(xs[..|xs| - 1], g);
    }
  }

  /** Sums are linear. */
  lemma {:induction false} SumByLinear<T>(xs: seq<T>, f: T -> int, a: int, g: T -> int, b: int, h: T -> int)
    requires forall x :: x in xs ==> h(x) == a * f(x) + b * g(x)
    ensures SumBy(xs, h) == a * SumBy(xs, f) + b * SumBy(xs, g)
  {
    if xs == [] {
    } else {
      var ys, x := xs[..|xs| - 1], xs[|xs| - 1];
      SumByLinear(ys, f, a, g, b, h);
      assert a * (SumBy(ys, f) + f(x)) == a * SumBy(ys, f) + a * f(x);
      assert b * (SumBy(ys, g) + g(x)) == b * SumBy(ys, g) + b * g(x);
    }
  }

  /** A sum whose terms are at most `c` is at most the length times `c`. */
  lemma {:induction false} SumByBound<T>(xs: seq<T>, f: T -> int, c: int)
    requires forall x :: x in xs ==> f(x) <= c
    ensures SumBy(xs, f) <= |xs| * c
  {
    if xs == [] {
    } else {
      SumByBound(xs[..|xs| - 1], f, c);
      assert |xs| * c == (|xs| - 1) * c + c;
    }
  }

  /** Summing a mapped list is summing the composition. */
  lemma {:induction false} SumByMap<T, U>(xs: seq<T>, m: T -> U, f: U -> int, g: T -> int)
    requires forall x :: x in xs ==> f(m(x)) == g(x)
    ensures SumBy(Map(xs, m), f) == SumBy(xs, g)
  {
    if xs == [] {
    } else {
      SumByMap(xs[..|xs| - 1], m, f, g);
      assert Map(xs, m)[..|xs| - 1] == Map(xs[..|xs| - 1], m);
    }
  }

  // ----- integer division, where every floor and ceiling below comes from

  /** Division that truncates toward zero, as the sources' integers divide. */
  function TruncDiv(a: int, d: nat): int
    requires d > 0
  {
    if a >= 0 then a / d else -((-a) / d)
  }

  function CeilDiv(a: nat, d: nat): nat
    requires d > 0
  {
    (a + d - 1) / d
  }

  /** The quotient is the largest q with q * d <= a. */
  lemma FloorDiv(a: int, d: int, q: int)
    requires d > 0
    ensures (a / d) * d <= a < (a / d) * d + d
    ensures q * d <= a <==> q <= a / d
    ensures a < q * d <==> a / d < q
  {
    var f := a / d;
    assert a == f * d + a % d;
    if q <= f {
      assert q * d <= f * d by { MulMono(q, f, d); }
    } else {
      assert (f + 1) * d <= q * d by { MulMono(f + 1, q, d); }
      assert (f + 1) * d == f * d + d;
    }
  }

  /** The ceiling is the smallest q with a <= q * d. */
  lemma CeilingDiv(a: nat, d: nat, q: int)
    requires d > 0
    ensures a <= CeilDiv(a, d) * d < a + d
    ensures a <= q * d <==> CeilDiv(a, d) <= q
    ensures q * d < a <==> q < CeilDiv(a, d)
  {
    FloorDiv(a + d - 1, d, q);
    FloorDiv(a + d - 1, d, q + 1);
    assert (q + 1) * d == q * d + d;
  }

  lemma Spread(a: int, b: int, k: int)
    ensures (a + b) * k == a * k + b * k && k * (a + b) == k * a + k * b
  {
  }

  lemma MulMono(a: int, b: int, c: int)
    requires a <= b && 0 <= c
    ensures a * c <= b * c && c * a <= c * b
  {
    assert (b - a) * c >= 0;
    assert b * c == a * c + (b - a) * c;
  }

  lemma MulMono2(a: int, b: int, c: int, d: int)
    requires 0 <= a <= b && 0 <= c <= d
    ensures 0 <= a * c <= b * d
  {
    MulMono(a, b, c);
    MulMono(c, d, b);
    assert a * c >= 0;
  }

  lemma MulStrict(a: int, b: int, c: int)
    requires a < b && 0 < c
    ensures a * c < b * c
  {
    MulMono(a + 1, b, c);
    assert (a + 1) * c == a * c + c;
  }

  /** Comparing products by one positive factor compares the other factors. */
  lemma MulCancel(a: int, b: int, c: int)
    requires 0 < c
    ensures a * c <= b * c <==> a <= b
    ensures a * c < b * c <==> a < b
  {
    if a <= b { MulMono(a, b, c); } else { MulStrict(b, a, c); }
    if b <= a { MulMono(b, a, c); } else { MulStrict(a, b, c); }
  }
}
