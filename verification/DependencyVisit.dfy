/**
 The cycle check over the sync dependency graph: a depth-first visit that keeps going after
 it has reported a cycle, over dependencies that may name undeclared domains or themselves.
 */
module DependencyVisit {

  type Graph = map<string, seq<string>>

  /** A dependency between declared domains. */
  ghost predicate Edge(g: Graph, a: string, b: string) { a in g && b in g && b in g[a] }

  ghost predicate Path(g: Graph, p: seq<string>) {
    forall i :: 0 <= i < |p| - 1 ==> Edge(g, p[i], p[i + 1])
  }

  /** A closed path of at least one edge through `v`. */
  ghost predicate Cycle(g: Graph, p: seq<string>, v: string) {
    |p| >= 2 && p[0] == v && p[|p| - 1] == v && Path(g, p)
  }

  ghost predicate OnCycle(g: Graph, v: string) { exists p :: Cycle(g, p, v) }

  /** Each finished domain comes after all declared domains it depends on. */
  ghost predicate Topological(g: Graph, done: seq<string>) {
    forall i, d :: 0 <= i < |done| && done[i] in g && d in g[done[i]] && d in g ==> d in done[..i]
  }

  class DependencyCheck {
    const domains: Graph
    var visiting: set<string>
    var visited: set<string>
    var errors: seq<string>
    /** The visited domains in the order they were finished. */
    ghost var done: seq<string>

    constructor (domains: Graph)
      ensures this.domains == domains && visiting == {} && visited == {} && errors == [] && done == []
    {
      this.domains, visiting, visited, errors, done := domains, {}, {}, [], [];
    }

    /** `stack` lists the domains being visited, outermost first. */
    ghost predicate Valid(stack: seq<string>)
      reads this
    {
      && Path(domains, stack)
      && (forall v :: v in visiting <==> v in stack)
      && visiting <= domains.Keys
      && (forall v :: v in visited <==> v in done)
      && (forall v :: v in errors ==> OnCycle(domains, v))
      && (errors == [] ==> Topological(domains, done))
    }

    method Visit(name: string, ghost stack: seq<string>)
      requires Valid(stack)
      requires stack != [] && name in domains ==> Edge(domains, stack[|stack| - 1], name)
      modifies this
      ensures Valid(stack) && visiting == old(visiting)
      ensures old(visited) <= visited && old(errors) <= errors
      ensures errors == [] && name in domains ==> name in visited
      decreases domains.Keys - visiting
    {
      if name in visiting {
        ClosesCycle(domains, stack, name);
        errors := errors + [name];
        return;
      }
      if name in visited || name !in domains {
        return;
      }
      visiting := visiting + {name};
      ghost var stack' := stack + [name];
      assert Path(domains, stack') by {
        forall i | 0 <= i < |stack'| - 1 ensures Edge(domains, stack'[i], stack'[i + 1]) {
          if i < |stack| - 1 { assert Edge(domains, stack[i], stack[i + 1]); }
        }
      }
      var dependencies := domains[name];
      for k := 0 to |dependencies|
        invariant Valid(stack') && visiting == old(visiting) + {name}
        invariant old(visited) <= visited && old(errors) <= errors
        invariant errors == [] ==> forall j :: 0 <= j < k && dependencies[j] in domains ==> dependencies[j] in visited
      {
        Visit(dependencies[k], stack');
      }
      visiting := visiting - {name};
      visited := visited + {name};
      done := done + [name];
      if errors == [] {
        TopologicalNext(domains, done[..|done| - 1], name);
        assert done == done[..|done| - 1] + [name];
      }
    }

    /** Visits every declared domain, in the order the document lists them. */
    method Check(names: seq<string>)
      requires Valid([]) && visited == {} && errors == []
      requires forall v :: v in names <==> v in domains
      modifies this
      ensures errors != [] <==> exists v :: OnCycle(domains, v)
      ensures forall v :: v in errors ==> OnCycle(domains, v)
    {
      for k := 0 to |names|
        invariant Valid([])
        invariant errors == [] ==> forall j :: 0 <= j < k ==> names[j] in visited
      {
        assert names[k] in names;
        Visit(names[k], []);
      }
      if errors == [] {
        assert forall v :: v in domains ==> v in done;
        forall v ensures !OnCycle(domains, v) {
          if p :| Cycle(domains, p, v) {
            TopologicalHasNoCycle(domains, done, p, v);
          }
        }
      } else {
        assert errors[0] in errors;
      }
    }
  }

  /** A dependency on a domain still being visited closes a path back to it. */
  lemma ClosesCycle(g: Graph, stack: seq<string>, name: string)
    requires Path(g, stack) && name in stack && Edge(g, stack[|stack| - 1], name)
    ensures OnCycle(g, name)
  {
    var k :| 0 <= k < |stack| && stack[k] == name;
    var p := stack[k..] + [name];
    forall i | 0 <= i < |p| - 1 ensures Edge(g, p[i], p[i + 1]) {
      if i < |p| - 2 { assert Edge(g, stack[k + i], stack[k + i + 1]); }
    }
    assert Cycle(g, p, name);
  }

  lemma TopologicalNext(g: Graph, done: seq<string>, name: string)
    requires Topological(g, done) && name in g && forall d :: d in g[name] && d in g ==> d in done
    ensures Topological(g, done + [name])
  {
    var next := done + [name];
    forall i, d | 0 <= i < |next| && next[i] in g && d in g[next[i]] && d in g ensures d in next[..i] {
      assert next[..i] == if i < |done| then done[..i] else done;
    }
  }

  /** Along a path in a topological order, positions can always be chosen to go down. */
  lemma {:induction false} GoesDown(g: Graph, done: seq<string>, p: seq<string>, n: nat, i: nat) returns (j: nat)
    requires Topological(g, done) && Path(g, p) && n < |p| && i < |done| && done[i] == p[0]
    ensures j < |done| && done[j] == p[n] && j + n <= i
  {
    if n == 0 {
      j := i;
    } else {
      var k := GoesDown(g, done, p, n - 1, i);
      assert Edge(g, p[n - 1], p[n]);
      assert p[n] in done[..k];
      j :| 0 <= j < k && done[..k][j] == p[n];
    }
  }

  lemma {:induction false} TopologicalHasNoCycle(g: Graph, done: seq<string>, p: seq<string>, v: string)
    requires Topological(g, done) && Cycle(g, p, v) && forall x :: x in g ==> x in done
    ensures false
  {
    assert Edge(g, p[0], p[1]);
    var i :| 0 <= i < |done| && done[i] == v;
    Descends(g, done, p, i);
  }

  /** From any position of `v` the cycle leads to a lower one, for ever. */
  lemma {:induction false} Descends(g: Graph, done: seq<string>, p: seq<string>, i: nat)
    requires Topological(g, done) && |p| >= 2 && Cycle(g, p, p[0]) && i < |done| && done[i] == p[0]
    ensures false
    decreases i
  {
    var j := GoesDown(g, done, p, |p| - 1, i);
    Descends(g, done, p, j);
  }
}
