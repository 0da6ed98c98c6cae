/**
 The label search: a queue of routes, a table with one label per (node, hubs), and the
 best destination label so far.

 The contract of `Search` states the result (the unique best route), how the search
 proceeds (pops never go down in queue order, no state is expanded twice) and when it
 gives up (an extension with an unknown leg or a duration beyond 64 bits).
 */
module TravelSearch {
  import opened Orderings
  import opened TravelRoutes
  import opened TravelOptimality

  /** The two-dimensional `best` table holds exactly the labels of `table`. */
  ghost predicate Mirrors(net: Net, best: array2<Option<Route>>, table: Table)
    reads best
  {
    && best.Length0 == net.Size() && best.Length1 == MAX_INTERMEDIATE_HUBS + 1
    && (forall s <- table.Keys :: s.0 < net.Size() && s.1 <= MAX_INTERMEDIATE_HUBS)
    && forall n: nat, h: nat :: n < best.Length0 && h < best.Length1 ==>
                                  best[n, h] == if (n, h) in table then Some(table[(n, h)]) else None
  }

  ghost predicate QueueOk(net: Net, table: Table, queue: multiset<Route>) {
    forall r <- queue :: && queue[r] == 1
                         && ValidRoute(net, r) && r.State() in table && !Below(r, table[r.State()])
  }

  /** Labels only improve, and whatever is new lies above `floor` in queue order. */
  ghost predicate Improves(table: Table, table': Table, queue: multiset<Route>, queue': multiset<Route>, floor: Route) {
    && (forall s <- table.Keys :: s in table' && !Below(table[s], table'[s]))
    && (forall s <- table'.Keys ::
          (s in table && table'[s] == table[s]) || (table'[s] in queue' && Below(floor, table'[s])))
    && (forall r <- queue :: r in queue')
    && (forall r <- queue' :: r in queue || Below(floor, r))
  }

  lemma ImprovesTwice(t0: Table, t1: Table, t2: Table, q0: multiset<Route>, q1: multiset<Route>, q2: multiset<Route>,
                      floor: Route)
    requires Improves(t0, t1, q0, q1, floor) && Improves(t1, t2, q1, q2, floor)
    ensures Improves(t0, t2, q0, q2, floor)
  {
    forall s <- t0.Keys ensures s in t2 && !Below(t0[s], t2[s]) {
      QueueTransitive(t2[s], t1[s], t0[s]);
    }
  }

  lemma OfferedStays(net: Net, table: Table, table': Table, queue: multiset<Route>, queue': multiset<Route>,
                     floor: Route, r: Route, t: nat)
    requires Improves(table, table', queue, queue', floor) && Offered(net, table, r, t)
    ensures Offered(net, table', r, t)
  {
    var c := Extend(net, r, t);
    QueueTransitive(table'[c.State()], table[c.State()], c);
  }

  lemma Unchanged(table: Table, queue: multiset<Route>, floor: Route)
    ensures Improves(table, table, queue, queue, floor)
  {
    forall s <- table.Keys ensures !Below(table[s], table[s]) {
      QueueTotal(table[s], table[s]);
    }
  }

  /** A strictly better candidate is new to the queue and no queued route undercuts it. */
  lemma QueueReplaced(net: Net, table: Table, queue: multiset<Route>, c: Route)
    requires QueueOk(net, table, queue) && ValidRoute(net, c)
    requires c.State() in table ==> Below(c, table[c.State()])
    ensures QueueOk(net, table[c.State() := c], queue + multiset{c})
  {
    QueueTotal(c, c);
    forall r <- queue | r.State() == c.State() ensures Below(c, r) && !Below(r, c) && r != c {
      QueueTotal(c, table[c.State()]);
      QueueTransitive(c, table[c.State()], r);
      QueueTotal(c, r);
    }
  }

  lemma TableReplaced(net: Net, table: Table, c: Route)
    requires TableOk(net, table) && ValidRoute(net, c)
    ensures TableOk(net, table[c.State() := c])
  {
  }

  lemma ReplacedImproves(table: Table, queue: multiset<Route>, c: Route, floor: Route)
    requires Below(floor, c) && (c.State() in table ==> Below(c, table[c.State()]))
    ensures Improves(table, table[c.State() := c], queue, queue + multiset{c}, floor)
  {
    var table' := table[c.State() := c];
    forall s <- table.Keys ensures !Below(table[s], table'[s]) {
      QueueTotal(table[s], table'[s]);
    }
  }

  lemma Replaced(net: Net, table: Table, queue: multiset<Route>, c: Route, floor: Route)
    requires TableOk(net, table) && QueueOk(net, table, queue)
    requires ValidRoute(net, c) && Below(floor, c)
    requires c.State() in table ==> Below(c, table[c.State()])
    ensures var table' := table[c.State() := c]; var queue' := queue + multiset{c};
            TableOk(net, table') && QueueOk(net, table', queue') && Improves(table, table', queue, queue', floor)
  {
    TableReplaced(net, table, c);
    QueueReplaced(net, table, queue, c);
    ReplacedImproves(table, queue, c, floor);
  }

  /** The labels after `c` was offered: kept unless strictly better. */
  ghost function Merged(net: Net, table: Table, c: Route): Table {
    if c.State() in table && !Below(c, table[c.State()]) then table else table[c.State() := c]
  }

  lemma MergedOk(net: Net, table: Table, queue: multiset<Route>, route: Route, target: nat)
    requires net.Valid() && ValidRoute(net, route) && route.node != net.Dest()
    requires Allowed(net, route, target) && Feasible(net, route, target)
    requires TableOk(net, table) && QueueOk(net, table, queue)
    ensures var c := Extend(net, route, target);
            var table' := Merged(net, table, c);
            var queue' := if table' == table then queue else queue + multiset{c};
            && TableOk(net, table') && QueueOk(net, table', queue')
            && Improves(table, table', queue, queue', route) && Offered(net, table', route, target)
  {
    var c := Extend(net, route, target);
    ExtendValid(net, route, target);
    if Merged(net, table, c) == table {
      Unchanged(table, queue, route);
      QueueTotal(c, c);
    } else {
      Replaced(net, table, queue, c, route);
    }
  }

  /** The comparison the table makes is the queue's. */
  lemma Verdict(net: Net, table: Table, route: Route, target: nat)
    requires net.Valid() && ValidRoute(net, route) && route.node != net.Dest() && TableOk(net, table)
    requires Allowed(net, route, target) && net.leg(route.node, target).Some?
    ensures var c := Extend(net, route, target);
            && InNet(net, c.path) && c.node < net.Size() && c.hubs <= MAX_INTERMEDIATE_HUBS
            && (c.State() in table ==> && InNet(net, table[c.State()].path)
                                       && (QualityCompare(net, c, table[c.State()]) == Less)
                                           == Below(c, table[c.State()]))
  {
    var c := Extend(net, route, target);
    ExtendValid(net, route, target);
    if c.State() in table {
      OrdersAgree(net, c, table[c.State()]);
    }
  }

  /** One entry of the table. */
  method Put(net: Net, best: array2<Option<Route>>, ghost table: Table, c: Route)
    requires Mirrors(net, best, table) && c.node < net.Size() && c.hubs <= MAX_INTERMEDIATE_HUBS
    modifies best
    ensures Mirrors(net, best, table[c.State() := c])
  {
    best[c.node, c.hubs] := Some(c);
  }

  /** Offers one extension to the table; `false` when its leg or its sum is not representable. */
  method Relax(net: Net, route: Route, target: nat, best: array2<Option<Route>>, queue: multiset<Route>,
               ghost table: Table)
    returns (ok: bool, queue': multiset<Route>, ghost table': Table)
    requires net.Valid() && ValidRoute(net, route) && route.node != net.Dest() && Allowed(net, route, target)
    requires Mirrors(net, best, table) && TableOk(net, table)
    modifies best
    ensures ok == Feasible(net, route, target)
    ensures ok ==> Mirrors(net, best, table') && table' == Merged(net, table, Extend(net, route, target))
    ensures ok ==> queue' == if table' == table then queue else queue + multiset{Extend(net, route, target)}
  {
    queue', table' := queue, table;
    var leg := net.leg(route.node, target);
    if leg.None? || route.seconds + leg.value.seconds > U64_MAX {
      return false, queue', table';
    }
    ok := true;
    var candidate := Extend(net, route, target);
    Verdict(net, table, route, target);
    QueueTotal(candidate, candidate);
    var known := best[candidate.node, candidate.hubs];
    if known.None? || QualityCompare(net, candidate, known.value) == Less {
      Put(net, best, table, candidate);
      table' := table[candidate.State() := candidate];
      assert table' != table by { assert table'[candidate.State()] == candidate; }
      queue' := queue + multiset{candidate};
    }
  }

  /** Everything the loops keep: the table mirrors the labels, labels and queue are sound. */
  ghost predicate Ready(net: Net, best: array2<Option<Route>>, table: Table, queue: multiset<Route>)
    reads best
  {
    Mirrors(net, best, table) && TableOk(net, table) && QueueOk(net, table, queue)
  }

  /** Every permitted target below `bound` has been offered. */
  ghost predicate OfferedBelow(net: Net, table: Table, route: Route, bound: nat) {
    forall t: nat :: t < bound && Allowed(net, route, t) ==> Offered(net, table, route, t)
  }

  lemma OfferedNext(net: Net, t0: Table, t1: Table, q0: multiset<Route>, q1: multiset<Route>, route: Route, bound: nat)
    requires Improves(t0, t1, q0, q1, route) && OfferedBelow(net, t0, route, bound)
    requires Allowed(net, route, bound) ==> Offered(net, t1, route, bound)
    ensures OfferedBelow(net, t1, route, bound + 1)
  {
    forall t: nat | t < bound && Allowed(net, route, t) ensures Offered(net, t1, route, t) {
      OfferedStays(net, t0, t1, q0, q1, route, route, t);
    }
  }

  /** Offers every permitted extension of `route`, in target order. */
  method Expand(net: Net, route: Route, best: array2<Option<Route>>, queue: multiset<Route>, ghost table: Table)
    returns (ok: bool, queue': multiset<Route>, ghost table': Table)
    requires net.Valid() && ValidRoute(net, route) && route.node != net.Dest()
    requires Ready(net, best, table, queue)
    modifies best
    ensures !ok ==> exists t :: Allowed(net, route, t) && !Feasible(net, route, t)
    ensures ok ==> Ready(net, best, table', queue')
    ensures ok ==> Improves(table, table', queue, queue', route)
    ensures ok ==> OfferedBelow(net, table', route, net.Size())
  {
    ok, queue', table' := true, queue, table;
    Unchanged(table, queue, route);
    for target := 1 to net.Size()
      invariant Ready(net, best, table', queue')
      invariant Improves(table, table', queue, queue', route)
      invariant OfferedBelow(net, table', route, target)
    {
      ghost var t1, q1 := table', queue';
      if target in route.path || (target != net.Dest() && route.hubs == MAX_INTERMEDIATE_HUBS) {
        continue;
      }
      ok, queue', table' := Relax(net, route, target, best, queue', table');
      if !ok {
        return;
      }
      MergedOk(net, t1, q1, route, target);
      ImprovesTwice(table, t1, table', queue, q1, queue', route);
      OfferedNext(net, t1, table', q1, queue', route, target);
    }
  }

  // ----- the main loop -------------------------------------------------------------

  /** Every label still waits in the queue or is settled. */
  ghost predicate Progress(net: Net, table: Table, queue: multiset<Route>, found: Option<Route>) {
    && (found.Some? ==> ValidRoute(net, found.value) && found.value.node == net.Dest())
    && forall s <- table.Keys :: table[s] in queue || Settled(net, table, found, table[s])
  }

  ghost predicate Ascending(pops: seq<Route>) {
    forall i, j :: 0 <= i < j < |pops| ==> !Below(pops[j], pops[i])
  }

  /** The queue holds nothing below the last pop; expanded labels are final. */
  ghost predicate Paced(net: Net, table: Table, queue: multiset<Route>, pops: seq<Route>, expanded: seq<(nat, nat)>) {
    && net.Size() >= 2
    && Ascending(pops)
    && (pops != [] ==> forall r <- queue :: !Below(r, Last(pops)))
    && (forall i, j :: 0 <= i < j < |expanded| ==> expanded[i] != expanded[j])
    && (forall s <- expanded :: && s in States(net.Size() - 2)
                                && s in table && table[s] !in queue
                                && pops != [] && !Below(Last(pops), table[s]))
  }

  /** One node after one to `most` stops. */
  ghost function Row(node: nat, most: nat): set<(nat, nat)> {
    if most == 0 then {} else Row(node, most - 1) + {(node, most)}
  }

  /** The states the search can expand: the origin, and each hub after one to eight stops. */
  ghost function States(hubs: nat): set<(nat, nat)> {
    if hubs == 0 then {(0, 0)} else States(hubs - 1) + Row(hubs, MAX_INTERMEDIATE_HUBS)
  }

  lemma {:induction false} RowCount(node: nat, most: nat)
    ensures |Row(node, most)| <= most
    ensures forall h :: 1 <= h <= most ==> (node, h) in Row(node, most)
  {
    if most > 0 { RowCount(node, most - 1); }
  }

  lemma {:induction false} StatesCount(hubs: nat)
    ensures |States(hubs)| <= MAX_INTERMEDIATE_HUBS * hubs + 1
    ensures (0, 0) in States(hubs)
    ensures forall n: nat, h: nat :: 1 <= n <= hubs && 1 <= h <= MAX_INTERMEDIATE_HUBS ==> (n, h) in States(hubs)
  {
    if hubs > 0 {
      StatesCount(hubs - 1);
      RowCount(hubs, MAX_INTERMEDIATE_HUBS);
      var before, row := States(hubs - 1), Row(hubs, MAX_INTERMEDIATE_HUBS);
      assert |before + row| <= |before| + |row|;
    }
  }

  lemma {:induction false} DistinctFit<T>(xs: seq<T>, all: set<T>)
    requires forall i, j :: 0 <= i < j < |xs| ==> xs[i] != xs[j]
    requires forall x <- xs :: x in all
    ensures |xs| <= |all|
  {
    if xs != [] {
      var rest := xs[..|xs| - 1];
      forall x <- rest ensures x in all - {Last(xs)} {}
      DistinctFit(rest, all - {Last(xs)});
    }
  }

  lemma ExpandedCount(net: Net, table: Table, queue: multiset<Route>, pops: seq<Route>, expanded: seq<(nat, nat)>)
    requires net.Valid() && Paced(net, table, queue, pops, expanded)
    ensures |expanded| <= MAX_INTERMEDIATE_HUBS * (net.Size() - 2) + 1
  {
    StatesCount(net.Size() - 2);
    DistinctFit(expanded, States(net.Size() - 2));
  }

  /** What a pop of the queue yields: an entry no other entry lies below. */
  predicate IsFirst(queue: multiset<Route>, r: Route) {
    r in queue && forall s <- queue :: !Below(s, r)
  }

  lemma {:induction false} HasFirst(queue: multiset<Route>) returns (r: Route)
    requires |queue| > 0
    ensures IsFirst(queue, r)
    decreases |queue|
  {
    var x :| x in queue;
    r := x;
    QueueTotal(x, x);
    var rest := queue - multiset{x};
    assert queue == rest + multiset{x};
    if |rest| > 0 {
      var m := HasFirst(rest);
      QueueTotal(x, m);
      r := if Below(x, m) then x else m;
      forall s <- queue ensures !Below(s, r) {
        if s in rest { QueueTransitive(r, m, s); }
      }
    }
  }

  /** A pop keeps the pace: nothing left lies below it. */
  lemma PopPaced(net: Net, table: Table, queue: multiset<Route>, pops: seq<Route>, expanded: seq<(nat, nat)>,
                 route: Route)
    requires Paced(net, table, queue, pops, expanded)
    requires IsFirst(queue, route)
    ensures Paced(net, table, queue - multiset{route}, pops + [route], expanded)
  {
    var pops' := pops + [route];
    forall i, j | 0 <= i < j < |pops'| ensures !Below(pops'[j], pops'[i]) {
      if j == |pops| {
        QueueTransitive(pops[i], Last(pops), route) by {
          if i < |pops| - 1 { assert !Below(pops[|pops| - 1], pops[i]); } else { QueueTotal(pops[i], pops[i]); }
        }
      }
    }
    forall s <- expanded ensures !Below(route, table[s]) {
      QueueTransitive(table[s], Last(pops), route);
    }
  }

  /** Two routes to one state tie in quality only when they are the same route. */
  lemma TieIsSame(net: Net, a: Route, b: Route)
    requires net.Valid() && ValidRoute(net, a) && ValidRoute(net, b) && a.node == b.node
    ensures QualityCompare(net, a, b) == Equal <==> a == b
  {
    OrdersAgree(net, a, b);
    LexEqual(a.path, b.path);
  }

  /** A destination label is weighed against the result. */
  lemma FoundProgress(net: Net, table: Table, queue: multiset<Route>, found: Option<Route>, route: Route,
                      found': Option<Route>)
    requires Progress(net, table, queue, found) && QueueOk(net, table, queue)
    requires route in queue && route.node == net.Dest() && ValidRoute(net, route)
    requires found' == if found.None? || Below(route, found.value) then Some(route) else found
    ensures Progress(net, table, queue - multiset{route}, found')
  {
    QueueTotal(route, route);
    forall s <- table.Keys
      ensures table[s] in queue - multiset{route} || Settled(net, table, found', table[s])
    {
      var l := table[s];
      if l != route && l !in queue && l.node == net.Dest() && found' != found {
        QueueTotal(route, found.value);
        QueueTransitive(route, found.value, l);
      }
    }
  }

  /** Expanding a label settles it and leaves the others settled or queued. */
  lemma ExpandProgress(net: Net, table: Table, queue: multiset<Route>, found: Option<Route>, route: Route,
                       table': Table, queue': multiset<Route>)
    requires Progress(net, table, queue, found)
    requires route in queue && route.node != net.Dest()
    requires Improves(table, table', queue - multiset{route}, queue', route)
    requires OfferedBelow(net, table', route, net.Size())
    ensures Progress(net, table', queue', found)
  {
    forall s <- table'.Keys ensures table'[s] in queue' || Settled(net, table', found, table'[s]) {
      var l := table'[s];
      if l !in queue' && l != route && l.node != net.Dest() {
        forall t: nat | Allowed(net, l, t) ensures Offered(net, table', l, t) {
          OfferedStays(net, table, table', queue - multiset{route}, queue', route, l, t);
        }
      }
    }
  }

  /** Later labels never undercut a label at or below the last pop. */
  lemma FinalStays(table: Table, queue: multiset<Route>, route: Route, table': Table, queue': multiset<Route>,
                   s: (nat, nat))
    requires Improves(table, table', queue, queue', route)
    requires s in table && table[s] !in queue && !Below(route, table[s])
    ensures table'[s] == table[s] && table'[s] !in queue'
  {
    QueueTotal(route, table[s]);
    if table'[s] != table[s] {
      QueueTotal(route, table'[s]);
      QueueTransitive(table[s], route, table'[s]);
      assert false;
    }
  }

  lemma Expandable(net: Net, route: Route)
    requires net.Valid() && ValidRoute(net, route) && route.node != net.Dest()
    ensures route.State() in States(net.Size() - 2)
  {
    StatesCount(net.Size() - 2);
    if |route.path| > 1 {
      assert route.path[0] != Last(route.path);
    }
  }

  /** Expanding the last pop keeps the pace. */
  lemma ExpandPaced(net: Net, table: Table, queue: multiset<Route>, pops: seq<Route>, expanded: seq<(nat, nat)>,
                    route: Route,
                    table': Table, queue': multiset<Route>)
    requires Paced(net, table, queue, pops, expanded) && pops != [] && Last(pops) == route
    requires route.State() in States(net.Size() - 2)
    requires route.State() in table && table[route.State()] == route && route !in queue
    requires route.State() !in expanded
    requires Improves(table, table', queue, queue', route)
    ensures Paced(net, table', queue', pops, expanded + [route.State()])
  {
    QueueTotal(route, route);
    var expanded' := expanded + [route.State()];
    forall s <- expanded' ensures s in States(net.Size() - 2) && s in table' && table'[s] !in queue'
        && !Below(route, table'[s]) {
      assert s == route.State() || s in expanded;
      FinalStays(table, queue, route, table', queue', s);
    }
    forall r <- queue' ensures !Below(r, route) {
      QueueTotal(route, r);
    }
  }

  /** What the main loop keeps about labels, queue, result and trace. */
  ghost predicate Loop(net: Net, table: Table, queue: multiset<Route>, found: Option<Route>,
                       pops: seq<Route>, expanded: seq<(nat, nat)>) {
    && TableOk(net, table) && QueueOk(net, table, queue)
    && Progress(net, table, queue, found)
    && Paced(net, table, queue, pops, expanded)
  }

  /** Dropping an entry that is no longer the label of its state. */
  lemma StaleStep(net: Net, table: Table, queue: multiset<Route>, found: Option<Route>,
                  pops: seq<Route>, expanded: seq<(nat, nat)>, route: Route)
    requires Loop(net, table, queue, found, pops, expanded) && IsFirst(queue, route)
    requires table[route.State()] != route
    ensures Loop(net, table, queue - multiset{route}, found, pops + [route], expanded)
  {
    PopPaced(net, table, queue, pops, expanded, route);
  }

  lemma FoundStep(net: Net, table: Table, queue: multiset<Route>, found: Option<Route>,
                  pops: seq<Route>, expanded: seq<(nat, nat)>, route: Route, found': Option<Route>)
    requires Loop(net, table, queue, found, pops, expanded) && IsFirst(queue, route)
    requires route.node == net.Dest()
    requires found' == if found.None? || Below(route, found.value) then Some(route) else found
    ensures Loop(net, table, queue - multiset{route}, found', pops + [route], expanded)
  {
    PopPaced(net, table, queue, pops, expanded, route);
    FoundProgress(net, table, queue, found, route, found');
  }

  lemma ExpandStep(net: Net, table: Table, queue: multiset<Route>, found: Option<Route>,
                   pops: seq<Route>, expanded: seq<(nat, nat)>, route: Route, table': Table, queue': multiset<Route>)
    requires net.Valid() && Loop(net, table, queue, found, pops, expanded) && IsFirst(queue, route)
    requires route.node != net.Dest() && table[route.State()] == route
    requires Improves(table, table', queue - multiset{route}, queue', route)
    requires TableOk(net, table') && QueueOk(net, table', queue')
    requires OfferedBelow(net, table', route, net.Size())
    ensures Loop(net, table', queue', found, pops + [route], expanded + [route.State()])
    ensures |expanded| < MAX_INTERMEDIATE_HUBS * (net.Size() - 2) + 1
  {
    PopPaced(net, table, queue, pops, expanded, route);
    ExpandProgress(net, table, queue, found, route, table', queue');
    Expandable(net, route);
    assert route.State() !in expanded;
    assert queue[route] == 1;
    ExpandPaced(net, table, queue - multiset{route}, pops + [route], expanded, route, table', queue');
    ExpandedCount(net, table', queue', pops + [route], expanded + [route.State()]);
  }

  /** What is known of the entry just popped. */
  lemma Popped(net: Net, table: Table, queue: multiset<Route>, route: Route)
    requires net.Valid() && TableOk(net, table) && QueueOk(net, table, queue) && IsFirst(queue, route)
    ensures ValidRoute(net, route) && route.node < net.Size() && route.State() in table
    ensures InNet(net, route.path) && InNet(net, table[route.State()].path)
    ensures QualityCompare(net, table[route.State()], route) == Equal <==> table[route.State()] == route
    ensures QueueOk(net, table, queue - multiset{route}) && |queue - multiset{route}| < |queue|
  {
    TieIsSame(net, table[route.State()], route);
  }

  /** Some valid extension has an unknown leg or a duration beyond 64 bits. */
  ghost predicate Unplannable(net: Net) {
    exists r, t :: ValidRoute(net, r) && r.node != net.Dest() && Allowed(net, r, t) && !Feasible(net, r, t)
  }

  /** One popped entry: dropped when stale, kept when it reaches the destination, expanded otherwise. */
  method Handle(net: Net, route: Route, best: array2<Option<Route>>, queue: multiset<Route>, found: Option<Route>,
                ghost table: Table, ghost pops: seq<Route>, ghost expanded: seq<(nat, nat)>)
    returns (ok: bool, queue': multiset<Route>, found': Option<Route>, ghost table': Table,
        ghost expanded': seq<(nat, nat)>)
    requires net.Valid() && Mirrors(net, best, table) && Loop(net, table, queue, found, pops, expanded)
    requires IsFirst(queue, route)
    modifies best
    ensures ok ==> Mirrors(net, best, table') && Loop(net, table', queue', found', pops + [route], expanded')
    ensures ok ==> || (expanded' == expanded && |queue'| < |queue|)
                   || (|expanded'| == |expanded| + 1 && |expanded| < MAX_INTERMEDIATE_HUBS * (net.Size() - 2) + 1)
    ensures !ok ==> Unplannable(net) && expanded' == expanded && Ascending(pops + [route])
  {
    ok, queue', found', table', expanded' := true, queue - multiset{route}, found, table, expanded;
    Popped(net, table, queue, route);
    var known := best[route.node, route.hubs];
    if known.None? {
      return;
    }
    if QualityCompare(net, known.value, route) != Equal {
      StaleStep(net, table, queue, found, pops, expanded, route);
    } else if route.node == net.Dest() {
      if found.Some? {
        OrdersAgree(net, route, found.value);
      }
      if found.None? || QualityCompare(net, route, found.value) == Less {
        found' := Some(route);
      }
      FoundStep(net, table, queue, found, pops, expanded, route, found');
    } else {
      ok, queue', table' := Expand(net, route, best, queue', table);
      if ok {
        ExpandStep(net, table, queue, found, pops, expanded, route, table', queue');
        expanded' := expanded + [route.State()];
      } else {
        PopPaced(net, table, queue, pops, expanded, route);
      }
    }
  }

  /**
   The search of the planner.  `ok` is false when an extension could not be represented.
   The trace records every pop and every expanded state.
   */
  method Search(net: Net)
    returns (ok: bool, found: Option<Route>, ghost pops: seq<Route>, ghost expanded: seq<(nat, nat)>)
    requires net.Valid()
    ensures if ok then found.Some? && IsBest(net, found.value) else Unplannable(net)
    ensures Ascending(pops)
    ensures forall i, j :: 0 <= i < j < |expanded| ==> expanded[i] != expanded[j]
    ensures |expanded| <= MAX_INTERMEDIATE_HUBS * (net.Size() - 2) + 1
  {
    var best := new Option<Route>[net.Size(), MAX_INTERMEDIATE_HUBS + 1]((i, j) => None);
    var initial := Route(0, 0, 0, 0.0, [0]);
    best[0, 0] := Some(initial);
    var queue := multiset{initial};
    found := None;
    ghost var table: Table := map[(0, 0) := initial];
    pops, expanded := [], [];
    ok := true;
    QueueTotal(initial, initial);
    while |queue| > 0
      invariant Mirrors(net, best, table)
      invariant Loop(net, table, queue, found, pops, expanded)
      decreases MAX_INTERMEDIATE_HUBS * (net.Size() - 2) + 1 - |expanded|, |queue|
    {
      ghost var first := HasFirst(queue);
      var route :| IsFirst(queue, route);
      ExpandedCount(net, table, queue, pops, expanded);
      ok, queue, found, table, expanded := Handle(net, route, best, queue, found, table, pops, expanded);
      pops := pops + [route];
      if !ok {
        return;
      }
    }
    ExpandedCount(net, table, queue, pops, expanded);
    SettledIsBest(net, table, found);
  }
}
