/** The list filters the routers build with a loop (`[x for x in xs if p(x)]`), and the
    subsequence relation that says such a filter, or any other dropping of elements, keeps order. */
module Filters {

  /** The elements of `xs` that satisfy `p`, in order. */
  function Filter<T>(xs: seq<T>, p: T -> bool): (ys: seq<T>)
    ensures |ys| <= |xs|
    ensures forall i :: 0 <= i < |ys| ==> ys[i] in xs && p(ys[i])
    ensures forall i :: 0 <= i < |xs| && p(xs[i]) ==> xs[i] in ys
  {
    if xs == [] then []
    else Filter(xs[..|xs| - 1], p) + (if p(xs[|xs| - 1]) then [xs[|xs| - 1]] else [])
  }

  /** One more input element: it is appended exactly when it passes. */
  lemma FilterSnoc<T>(xs: seq<T>, x: T, p: T -> bool)
    ensures Filter(xs + [x], p) == Filter(xs, p) + (if p(x) then [x] else [])
  {
    assert (xs + [x])[..|xs|] == xs;
  }

  /** When every element passes, nothing is removed. */
  lemma {:induction false} FilterAll<T>(xs: seq<T>, p: T -> bool)
    requires forall x :: x in xs ==> p(x)
    ensures Filter(xs, p) == xs
  {
    if xs != [] {
      var front, x := xs[..|xs| - 1], xs[|xs| - 1];
      assert front + [x] == xs;
      assert forall y :: y in front ==> y in xs;
      FilterAll(front, p);
      FilterSnoc(front, x, p);
      assert p(x);
    }
  }

  /** When no element passes, nothing is kept. */
  lemma {:induction false} FilterNone<T>(xs: seq<T>, p: T -> bool)
    requires forall x :: x in xs ==> !p(x)
    ensures Filter(xs, p) == []
  {
    if xs != [] {
      var front := xs[..|xs| - 1];
      assert forall x :: x in front ==> x in xs;
      FilterNone(front, p);
    }
  }

  /** Filters that agree on every element give the same result. */
  lemma {:induction false} FilterSame<T>(xs: seq<T>, p: T -> bool, q: T -> bool)
    requires forall x :: x in xs ==> p(x) == q(x)
    ensures Filter(xs, p) == Filter(xs, q)
  {
    if xs != [] {
      var front := xs[..|xs| - 1];
      assert forall x :: x in front ==> x in xs;
      FilterSame(front, p, q);
    }
  }

  /** `ys` is `xs` with some elements left out and the rest in their original order. */
  predicate SubsequenceOf<T(==)>(ys: seq<T>, xs: seq<T>)
    decreases |xs|
  {
    if ys == [] then true
    else if xs == [] then false
    else (ys[0] == xs[0] && SubsequenceOf(ys[1..], xs[1..])) || SubsequenceOf(ys, xs[1..])
  }

  lemma {:induction false} SubsequenceAppendOne<T>(ys: seq<T>, xs: seq<T>, x: T)
    requires SubsequenceOf(ys, xs)
    ensures SubsequenceOf(ys, xs + [x])
    decreases |xs|
  {
    if ys != [] {
      assert (xs + [x])[0] == xs[0] && (xs + [x])[1..] == xs[1..] + [x];
      if ys[0] == xs[0] && SubsequenceOf(ys[1..], xs[1..]) {
        SubsequenceAppendOne(ys[1..], xs[1..], x);
      } else {
        SubsequenceAppendOne(ys, xs[1..], x);
      }
    }
  }

  lemma {:induction false} SubsequenceSnocBoth<T>(ys: seq<T>, xs: seq<T>, x: T)
    requires SubsequenceOf(ys, xs)
    ensures SubsequenceOf(ys + [x], xs + [x])
    decreases |xs|
  {
    if xs == [] {
      assert ys == [] && ys + [x] == xs + [x];
    } else {
      assert (xs + [x])[0] == xs[0] && (xs + [x])[1..] == xs[1..] + [x];
      if ys == [] {
        SubsequenceSnocBoth(ys, xs[1..], x);
        assert ys + [x] == [x];
      } else if ys[0] == xs[0] && SubsequenceOf(ys[1..], xs[1..]) {
        SubsequenceSnocBoth(ys[1..], xs[1..], x);
        assert (ys + [x])[0] == ys[0] && (ys + [x])[1..] == ys[1..] + [x];
      } else {
        SubsequenceSnocBoth(ys, xs[1..], x);
      }
    }
  }

  /** The result keeps the surviving elements in their original order. */
  lemma {:induction false} FilterSubsequence<T>(xs: seq<T>, p: T -> bool)
    ensures SubsequenceOf(Filter(xs, p), xs)
  {
    if xs != [] {
      var front := xs[..|xs| - 1];
      var x := xs[|xs| - 1];
      var ys := Filter(front, p);
      FilterSubsequence(front, p);
      FilterSnoc(front, x, p);
      assert front + [x] == xs;
      if p(x) {
        SubsequenceSnocBoth(ys, front, x);
        assert Filter(xs, p) == ys + [x];
      } else {
        SubsequenceAppendOne(ys, front, x);
        assert Filter(xs, p) == ys + [] == ys;
      }
    }
  }

  /** Every element of a subsequence occurs in the sequence it was taken from. */
  lemma {:induction false} SubsequenceMembers<T>(ys: seq<T>, xs: seq<T>, y: T)
    requires SubsequenceOf(ys, xs) && y in ys
    ensures y in xs
    decreases |xs|
  {
    if ys[0] == xs[0] && SubsequenceOf(ys[1..], xs[1..]) {
      if y != ys[0] {
        assert y in ys[1..];
        SubsequenceMembers(ys[1..], xs[1..], y);
      }
    } else {
      SubsequenceMembers(ys, xs[1..], y);
    }
  }
}
