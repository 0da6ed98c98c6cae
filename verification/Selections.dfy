/** What a filter-and-map over a sequence selects, by position. */
module Selections {
  import opened Orderings

  /** The `i`th selected value is what `f` makes of the element at its position. */
  ghost predicate ComesFrom<A(!new), B(!new)>(xs: seq<A>, f: A -> Option<B>, ys: seq<B>, at: seq<nat>, i: nat)
    requires |at| == |ys|
  {
    i < |at| && at[i] < |xs| && f(xs[at[i]]) == Some(ys[i]) && (i > 0 ==> at[i - 1] < at[i])
  }

  /** The element at `k`, if accepted, is selected. */
  ghost predicate Covered<A(!new), B(!new)>(xs: seq<A>, f: A -> Option<B>, at: seq<nat>, k: nat)
    requires k < |xs|
  {
    f(xs[k]).Some? ==> k in at
  }

  /** `ys` is what `f` makes of the elements it accepts, at the positions `at`, in order and without omission. */
  ghost predicate Picks<A(!new), B(!new)>(xs: seq<A>, f: A -> Option<B>, ys: seq<B>, at: seq<nat>) {
    && |at| == |ys|
    && (forall i :: 0 <= i < |at| ==> ComesFrom(xs, f, ys, at, i))
    && (forall k :: 0 <= k < |xs| ==> Covered(xs, f, at, k))
  }

  lemma PicksNext<A(!new), B(!new)>(xs: seq<A>, f: A -> Option<B>, ys: seq<B>, at: seq<nat>, x: A)
    returns (at': seq<nat>)
    requires Picks(xs, f, ys, at)
    ensures Picks(xs + [x], f, ys + (if f(x).Some? then [f(x).value] else []), at')
  {
    at' := if f(x).Some? then at + [|xs|] else at;
    var all, ys' := xs + [x], ys + (if f(x).Some? then [f(x).value] else []);
    forall i | 0 <= i < |at'| ensures ComesFrom(all, f, ys', at', i) {
      if i < |at| {
        assert ComesFrom(xs, f, ys, at, i);
      } else if i > 0 {
        assert ComesFrom(xs, f, ys, at, i - 1);
      }
    }
    forall k | 0 <= k < |all| ensures Covered(all, f, at', k) {
      if k < |xs| {
        assert Covered(xs, f, at, k);
      } else if f(x).Some? {
        assert at'[|at|] == k;
      }
    }
  }

  /** Everything selected, and nothing else. */
  lemma PicksMembers<A(!new), B(!new)>(xs: seq<A>, f: A -> Option<B>, ys: seq<B>, at: seq<nat>, y: B)
    requires Picks(xs, f, ys, at)
    ensures y in ys <==> exists k :: 0 <= k < |xs| && f(xs[k]) == Some(y)
  {
    if k :| 0 <= k < |xs| && f(xs[k]) == Some(y) {
      assert Covered(xs, f, at, k);
      var i :| 0 <= i < |at| && at[i] == k;
      assert ComesFrom(xs, f, ys, at, i);
      assert ys[i] == y;
    }
    if y in ys {
      var i :| 0 <= i < |ys| && ys[i] == y;
      assert ComesFrom(xs, f, ys, at, i);
      assert f(xs[at[i]]) == Some(y);
    }
  }
}
