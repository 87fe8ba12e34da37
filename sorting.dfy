/** Python's `list.sort(key=..., reverse=True)`, which the pipeline calls on
    articles and videos, as a stable insertion sort on descending keys. */
module Sorting {
  import opened Strings

  /** What a key order must satisfy for descending sorting to make sense:
      asymmetric, and "not less than" is transitive. */
  ghost predicate StrictWeakOrder<K(!new)>(lt: (K, K) -> bool) {
    && (forall a, b :: lt(a, b) ==> !lt(b, a))
    && (forall a, b, c :: !lt(a, b) && !lt(b, c) ==> !lt(a, c))
  }

  /** No element has a strictly smaller key than an element after it. */
  ghost predicate SortedDesc<T, K>(xs: seq<T>, key: T -> K, lt: (K, K) -> bool) {
    forall i, j :: 0 <= i < j < |xs| ==> !lt(key(xs[i]), key(xs[j]))
  }

  /** Puts `x` in front of the first element whose key is not greater than its own,
      so that `x` stays ahead of later elements with an equal key. */
  function Insert<T, K>(x: T, ys: seq<T>, key: T -> K, lt: (K, K) -> bool): (r: seq<T>)
    ensures multiset(r) == multiset(ys) + multiset{x}
  {
    if ys == [] || !lt(key(x), key(ys[0])) then [x] + ys
    else
      assert ys == [ys[0]] + ys[1..];
      [ys[0]] + Insert(x, ys[1..], key, lt)
  }

  function SortDesc<T, K>(xs: seq<T>, key: T -> K, lt: (K, K) -> bool): (r: seq<T>)
    ensures multiset(r) == multiset(xs)
  {
    if xs == [] then []
    else
      assert xs == [xs[0]] + xs[1..];
      Insert(xs[0], SortDesc(xs[1..], key, lt), key, lt)
  }

  lemma {:induction false} InsertSorted<T, K(!new)>(x: T, ys: seq<T>, key: T -> K, lt: (K, K) -> bool)
    requires StrictWeakOrder(lt) && SortedDesc(ys, key, lt)
    ensures SortedDesc(Insert(x, ys, key, lt), key, lt)
  {
    if ys == [] || !lt(key(x), key(ys[0])) {
      var r := [x] + ys;
      forall i, j | 0 <= i < j < |r| ensures !lt(key(r[i]), key(r[j])) {
        if i == 0 && j > 1 {
          assert !lt(key(ys[0]), key(ys[j - 1]));
        }
      }
    } else {
      var rest := Insert(x, ys[1..], key, lt);
      InsertSorted(x, ys[1..], key, lt);
      var r := [ys[0]] + rest;
      forall i, j | 0 <= i < j < |r| ensures !lt(key(r[i]), key(r[j])) {
        if i == 0 {
          var z := rest[j - 1];
          assert z in multiset(rest);
          if z != x {
            assert z in multiset(ys[1..]);
            var k :| 0 <= k < |ys[1..]| && ys[1..][k] == z;
            assert ys[k + 1] == z;
          }
        }
      }
    }
  }

  /** The sort puts the keys in descending order and keeps every element. */
  lemma {:induction false} SortDescCorrect<T, K(!new)>(xs: seq<T>, key: T -> K, lt: (K, K) -> bool)
    requires StrictWeakOrder(lt)
    ensures SortedDesc(SortDesc(xs, key, lt), key, lt)
    ensures multiset(SortDesc(xs, key, lt)) == multiset(xs)
  {
    if xs != [] {
      SortDescCorrect(xs[1..], key, lt);
      InsertSorted(xs[0], SortDesc(xs[1..], key, lt), key, lt);
    }
  }

  /** No two elements share an identity. */
  ghost predicate DistinctBy<T, I>(xs: seq<T>, id: T -> I) {
    forall i, j :: 0 <= i < j < |xs| ==> id(xs[i]) != id(xs[j])
  }

  lemma {:induction false} InsertDistinct<T, K, I>(x: T, ys: seq<T>, key: T -> K, lt: (K, K) -> bool, id: T -> I)
    requires DistinctBy(ys, id)
    requires forall y :: y in ys ==> id(y) != id(x)
    ensures DistinctBy(Insert(x, ys, key, lt), id)
  {
    if ys == [] || !lt(key(x), key(ys[0])) {
      var r := [x] + ys;
      forall i, j | 0 <= i < j < |r| ensures id(r[i]) != id(r[j]) {
        assert r[j] == ys[j - 1] && ys[j - 1] in ys;
        if i > 0 {
          assert r[i] == ys[i - 1];
        }
      }
    } else {
      var rest := Insert(x, ys[1..], key, lt);
      InsertDistinct(x, ys[1..], key, lt, id);
      var r := [ys[0]] + rest;
      forall i, j | 0 <= i < j < |r| ensures id(r[i]) != id(r[j]) {
        if i == 0 {
          var z := rest[j - 1];
          assert z in multiset(rest);
          if z != x {
            assert z in multiset(ys[1..]);
            var k :| 0 <= k < |ys[1..]| && ys[1..][k] == z;
            assert ys[k + 1] == z;
          } else {
            assert ys[0] in ys;
          }
        } else {
          assert r[i] == rest[i - 1] && r[j] == rest[j - 1];
        }
      }
    }
  }

  /** Sorting keeps distinct identities distinct. */
  lemma {:induction false} SortDescDistinct<T, K, I>(xs: seq<T>, key: T -> K, lt: (K, K) -> bool, id: T -> I)
    requires DistinctBy(xs, id)
    ensures DistinctBy(SortDesc(xs, key, lt), id)
  {
    if xs != [] {
      var tail := xs[1..];
      assert DistinctBy(tail, id) by {
        forall i, j | 0 <= i < j < |tail| ensures id(tail[i]) != id(tail[j]) {
          assert tail[i] == xs[i + 1] && tail[j] == xs[j + 1];
        }
      }
      SortDescDistinct(tail, key, lt, id);
      var sorted := SortDesc(tail, key, lt);
      forall y | y in sorted ensures id(y) != id(xs[0]) {
        assert y in multiset(sorted);
        var k :| 0 <= k < |tail| && tail[k] == y;
        assert xs[k + 1] == y;
      }
      InsertDistinct(xs[0], sorted, key, lt, id);
    }
  }

  /** Code-point order on strings, the order Python compares `str` values by, is a strict weak order. */
  lemma StrLtIsStrictWeakOrder()
    ensures StrictWeakOrder(StrLt)
  {
    forall a, b | StrLt(a, b) ensures !StrLt(b, a) {
      StrLtAsymmetric(a, b);
    }
    forall a, b, c | !StrLt(a, b) && !StrLt(b, c) ensures !StrLt(a, c) {
      if a != b {
        StrLtConnected(a, b);
      }
      if b != c {
        StrLtConnected(b, c);
      }
      if a != b && b != c {
        StrLtTransitive(c, b, a);
      }
      if StrLt(a, c) {
        StrLtAsymmetric(a, c);
      }
    }
  }
}
