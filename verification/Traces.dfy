/** Step machines in general: what a list of steps leads to, and the trace it leaves. */
module Traces {
  import opened Orderings

  /** The state after a step, if the step is enabled. */
  type Machine<!S, !T> = (S, T) -> Option<S>

  ghost predicate Leads<S(!new), T(!new)>(next: Machine<S, T>, s: S, steps: seq<T>, s': S)
    decreases |steps|
  {
    if steps == [] then s == s'
    else next(s, steps[0]).Some? && Leads(next, next(s, steps[0]).value, steps[1..], s')
  }

  lemma One<S(!new), T(!new)>(next: Machine<S, T>, s: S, step: T, s': S)
    requires next(s, step) == Some(s')
    ensures Leads(next, s, [step], s')
  {
    assert Leads(next, s', [], s');
  }

  lemma {:induction false} LeadsThen<S(!new), T(!new)>(next: Machine<S, T>, s: S, a: seq<T>, m: S, b: seq<T>, s': S)
    requires Leads(next, s, a, m) && Leads(next, m, b, s')
    ensures Leads(next, s, a + b, s')
    decreases |a|
  {
    if a == [] {
      assert a + b == b;
    } else {
      assert (a + b)[1..] == a[1..] + b;
      LeadsThen(next, next(s, a[0]).value, a[1..], m, b, s');
    }
  }

  ghost predicate Trace<S(!new), T(!new)>(next: Machine<S, T>, trace: seq<S>, steps: seq<T>) {
    |trace| == |steps| + 1 && forall i :: 0 <= i < |steps| ==> next(trace[i], steps[i]) == Some(trace[i + 1])
  }

  lemma {:induction false} LeadsTrace<S(!new), T(!new)>(next: Machine<S, T>, s: S, steps: seq<T>, s': S)
    returns (trace: seq<S>)
    requires Leads(next, s, steps, s')
    ensures Trace(next, trace, steps) && trace[0] == s && trace[|steps|] == s'
    decreases |steps|
  {
    if steps == [] {
      trace := [s];
    } else {
      var rest := LeadsTrace(next, next(s, steps[0]).value, steps[1..], s');
      trace := [s] + rest;
      forall i | 0 <= i < |steps| ensures next(trace[i], steps[i]) == Some(trace[i + 1]) {
        if i > 0 {
          assert next(rest[i - 1], steps[1..][i - 1]) == Some(rest[i]);
        }
      }
    }
  }

  lemma {:induction false} Between<S(!new), T(!new)>(next: Machine<S, T>, trace: seq<S>, steps: seq<T>, i: nat, k: nat)
    requires Trace(next, trace, steps) && i <= k < |trace|
    ensures Leads(next, trace[i], steps[i..k], trace[k])
    decreases k - i
  {
    if i < k {
      Between(next, trace, steps, i + 1, k);
      assert steps[i..k][1..] == steps[i + 1..k];
    }
  }
}
