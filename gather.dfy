/** The join after `asyncio.gather(*tasks, return_exceptions=True)` that every
    `fetch_all_*` adapter performs: list results are concatenated in task order,
    exception results are skipped. */
module Gather {
  import opened Types

  function Contribution<T>(r: TaskResult<seq<T>>): seq<T> {
    match r
    case Returned(xs) => xs
    case Raised => []
  }

  function Flatten<T>(rs: seq<TaskResult<seq<T>>>): seq<T> {
    if rs == [] then [] else Flatten(rs[..|rs| - 1]) + Contribution(rs[|rs| - 1])
  }

  /** The `for result in results: if isinstance(result, list): all.extend(result)` loop. */
  method Concat<T>(results: seq<TaskResult<seq<T>>>) returns (all: seq<T>)
    ensures all == Flatten(results)
  {
    all := [];
    for i := 0 to |results|
      invariant all == Flatten(results[..i])
    {
      assert results[..i + 1][..i] == results[..i];
      match results[i]
      case Returned(xs) =>
        all := all + xs;
      case Raised =>
    }
    assert results[..|results|] == results;
  }

  lemma {:induction false} FlattenAppend<T>(a: seq<TaskResult<seq<T>>>, b: seq<TaskResult<seq<T>>>)
    ensures Flatten(a + b) == Flatten(a) + Flatten(b)
    decreases |b|
  {
    if b == [] {
      assert a + b == a;
    } else {
      var b' := b[..|b| - 1];
      assert (a + b)[..|a + b| - 1] == a + b';
      FlattenAppend(a, b');
    }
  }

  /** A task that raised contributes nothing and does not disturb the others. */
  lemma {:induction false} FlattenSkipsRaised<T>(a: seq<TaskResult<seq<T>>>, b: seq<TaskResult<seq<T>>>)
    ensures Flatten(a + [Raised] + b) == Flatten(a) + Flatten(b)
  {
    var a' := a + [Raised];
    FlattenAppend(a', b);
    assert a'[..|a'| - 1] == a;
    assert Flatten(a') == Flatten(a) + Contribution<T>(Raised);
  }

  /** Every element of the join comes from a returned list, and every element of a returned list is in it. */
  lemma {:induction false} FlattenMembers<T>(rs: seq<TaskResult<seq<T>>>, x: T)
    ensures x in Flatten(rs) <==> exists i :: 0 <= i < |rs| && x in Contribution(rs[i])
  {
    if rs != [] {
      var front := rs[..|rs| - 1];
      FlattenMembers(front, x);
      if x in Flatten(rs) && x !in Contribution(rs[|rs| - 1]) {
        var i :| 0 <= i < |front| && x in Contribution(front[i]);
        assert front[i] == rs[i];
      }
      if exists i :: 0 <= i < |rs| && x in Contribution(rs[i]) {
        var i :| 0 <= i < |rs| && x in Contribution(rs[i]);
        if i < |rs| - 1 {
          assert front[i] == rs[i];
        }
      }
    }
  }

  /** Two tasks that both returned contribute their lists in order. */
  lemma FlattenTwo<T>(rs: seq<TaskResult<seq<T>>>, a: seq<T>, b: seq<T>)
    requires rs == [Returned(a), Returned(b)]
    ensures Flatten(rs) == a + b
  {
    assert Flatten(rs[..1]) == a by {
      assert rs[..1][..0] == [];
    }
    assert rs[..|rs| - 1] == rs[..1];
  }
}
