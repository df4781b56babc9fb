/** Generic sequence helpers: element sets, filtering in order and keep-first
    distinctness (the `filter` and `distinct` stages of a stream pipeline). */
module Sequences {

  /** No element occurs twice. */
  predicate NoDups<T(==)>(xs: seq<T>) {
    forall i, j :: 0 <= i < j < |xs| ==> xs[i] != xs[j]
  }

  /** The set of elements of `xs`. */
  function Elems<T(==)>(xs: seq<T>): set<T> {
    set x | x in xs
  }

  /** The elements of `xs` that satisfy `p`, in their original order. */
  function Filter<T(!new)>(xs: seq<T>, p: T -> bool): (r: seq<T>)
    ensures |r| <= |xs|
    ensures forall x :: x in r <==> x in xs && p(x)
  {
    if |xs| == 0 then []
    else
      assert xs == xs[..|xs| - 1] + [xs[|xs| - 1]];
      Filter(xs[..|xs| - 1], p) + (if p(xs[|xs| - 1]) then [xs[|xs| - 1]] else [])
  }

  /** Appending one element extends the filtered sequence by that element when it passes. */
  lemma FilterSnoc<T(!new)>(xs: seq<T>, x: T, p: T -> bool)
    ensures Filter(xs + [x], p) == Filter(xs, p) + (if p(x) then [x] else [])
  {
    assert (xs + [x])[..|xs|] == xs;
  }

  /** Filtering distributes over concatenation, so order across the two parts is kept. */
  lemma {:induction false} FilterAppend<T(!new)>(a: seq<T>, b: seq<T>, p: T -> bool)
    ensures Filter(a + b, p) == Filter(a, p) + Filter(b, p)
  {
    if |b| == 0 {
      assert a + b == a;
    } else {
      var n := |b| - 1;
      var c, x := b[..n], b[n];
      assert b == c + [x];
      assert a + b == (a + c) + [x];
      FilterAppend(a, c, p);
      FilterSnoc(a + c, x, p);
      FilterSnoc(c, x, p);
      var fa, fc, l := Filter(a, p), Filter(c, p), if p(x) then [x] else [];
      assert (fa + fc) + l == fa + (fc + l);
    }
  }

  /** Nothing passes a filter that no element satisfies. */
  lemma {:induction false} FilterNone<T(!new)>(xs: seq<T>, p: T -> bool)
    requires forall x :: x in xs ==> !p(x)
    ensures Filter(xs, p) == []
  {
    if |xs| > 0 {
      FilterNone(xs[..|xs| - 1], p);
    }
  }

  /** Keep the first occurrence of every element, drop later repeats. */
  function Distinct<T(==,!new)>(xs: seq<T>): (r: seq<T>)
    ensures NoDups(r)
    ensures forall x :: x in r <==> x in xs
  {
    if |xs| == 0 then []
    else
      assert xs == xs[..|xs| - 1] + [xs[|xs| - 1]];
      var d := Distinct(xs[..|xs| - 1]);
      if xs[|xs| - 1] in d then d else d + [xs[|xs| - 1]]
  }

  /** A repeat-free sequence has as many elements as its element set. */
  lemma {:induction false} NoDupsCardinality<T>(xs: seq<T>)
    requires NoDups(xs)
    ensures |Elems(xs)| == |xs|
  {
    if |xs| > 0 {
      var n := |xs| - 1;
      NoDupsCardinality(xs[..n]);
      assert xs == xs[..n] + [xs[n]];
      assert Elems(xs) == Elems(xs[..n]) + {xs[n]};
      assert xs[n] !in Elems(xs[..n]);
    }
  }

  /** `distinct().count()`: the length after dropping repeats is the number of distinct values. */
  lemma DistinctCount<T(!new)>(xs: seq<T>)
    ensures |Distinct(xs)| == |Elems(xs)|
    ensures |Distinct(xs)| <= |xs|
  {
    NoDupsCardinality(Distinct(xs));
    assert Elems(Distinct(xs)) == Elems(xs);
    ElemsCardinality(xs);
  }

  /** A sequence has at most as many distinct elements as positions. */
  lemma {:induction false} ElemsCardinality<T>(xs: seq<T>)
    ensures |Elems(xs)| <= |xs|
  {
    if |xs| > 0 {
      var n := |xs| - 1;
      ElemsCardinality(xs[..n]);
      assert xs == xs[..n] + [xs[n]];
      assert Elems(xs) == Elems(xs[..n]) + {xs[n]};
    }
  }
}
