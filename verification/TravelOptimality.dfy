/**
 Why one label per (node, hub count) is enough.

 A finished search leaves a table in which every label is settled: each permitted
 extension of it has been offered, and each destination label has been weighed against
 the result.  The table keeps no alternatives, and a label refuses to visit a node twice,
 so an optimal route might seem to need a label that was thrown away.  It does not: a
 better label for a prefix either extends along the rest of the route, or meets the rest
 of the route early, and then cutting the loop saves hubs at no cost in seconds.
 */
module TravelOptimality {
  import opened Orderings
  import opened TravelRoutes

  type Table = map<(nat, nat), Route>

  ghost predicate TableOk(net: Net, table: Table) {
    && (0, 0) in table
    && forall s <- table.Keys :: ValidRoute(net, table[s]) && table[s].State() == s
  }

  function Extend(net: Net, r: Route, t: nat): Route {
    Route(t, if t == net.Dest() then r.hubs else r.hubs + 1,
          r.seconds + net.LegSeconds(r.node, t), r.distance + net.LegDistance(r.node, t), r.path + [t])
  }

  /** The targets the search tries from a label. */
  predicate Allowed(net: Net, r: Route, t: nat) {
    1 <= t < net.Size() && t !in r.path && (t == net.Dest() || r.hubs < MAX_INTERMEDIATE_HUBS)
  }

  /** The leg is known and the sum fits the 64-bit counter. */
  predicate Feasible(net: Net, r: Route, t: nat) {
    net.leg(r.node, t).Some? && r.seconds + net.LegSeconds(r.node, t) <= U64_MAX
  }

  /** The extension was considered, and the table holds it or something no worse. */
  ghost predicate Offered(net: Net, table: Table, r: Route, t: nat) {
    var c := Extend(net, r, t);
    Feasible(net, r, t) && c.State() in table && !Below(c, table[c.State()])
  }

  ghost predicate Settled(net: Net, table: Table, found: Option<Route>, r: Route) {
    if r.node == net.Dest() then found.Some? && !Below(r, found.value)
    else forall t :: Allowed(net, r, t) ==> Offered(net, table, r, t)
  }

  ghost predicate AllSettled(net: Net, table: Table, found: Option<Route>) {
    forall s <- table.Keys :: Settled(net, table, found, table[s])
  }

  lemma ExtendTrack(net: Net, p: seq<nat>, t: nat)
    requires net.Valid() && Track(net, p) && KnownLegs(net, p) && Last(p) != net.Dest()
    requires t < net.Size() && t !in p && net.leg(Last(p), t).Some?
    ensures Track(net, p + [t]) && KnownLegs(net, p + [t])
    ensures HubCount(net, p + [t]) == if t == net.Dest() then HubCount(net, p) else HubCount(net, p) + 1
  {
    var q := p + [t];
    forall i | 0 <= i < |q| - 1 ensures q[i] != net.Dest() && net.leg(q[i], q[i + 1]).Some? && q[i] != t {
      assert q[i] == p[i];
    }
  }

  lemma ExtendTotals(net: Net, p: seq<nat>, t: nat)
    requires p != []
    ensures Seconds(net, p + [t]) == Seconds(net, p) + net.LegSeconds(Last(p), t)
    ensures Distance(net, p + [t]) == Distance(net, p) + net.LegDistance(Last(p), t)
  {
    var q := p + [t];
    assert q[..|q| - 1] == p && q[|q| - 2] == Last(p);
  }

  lemma ExtendValid(net: Net, r: Route, t: nat)
    requires net.Valid() && ValidRoute(net, r) && r.node != net.Dest()
    requires Allowed(net, r, t) && net.leg(r.node, t).Some?
    ensures ValidRoute(net, Extend(net, r, t)) && Below(r, Extend(net, r, t))
  {
    ExtendTrack(net, r.path, t);
    ExtendTotals(net, r.path, t);
    LexExtends(r.path, t);
  }

  /** The order of two paths with the same number of hubs. */
  ghost predicate NoWorse(net: Net, a: seq<nat>, b: seq<nat>) {
    || Seconds(net, a) < Seconds(net, b)
    || (Seconds(net, a) == Seconds(net, b)
        && (Distance(net, a) < Distance(net, b)
            || (Distance(net, a) == Distance(net, b) && Lex(a, b) != Greater)))
  }

  /** Behind two paths of one length to one node, the rest of the way changes nothing. */
  lemma SwapPrefix(net: Net, a: seq<nat>, b: seq<nat>, s: seq<nat>)
    requires a != [] && |a| == |b| && Last(a) == Last(b)
    requires NoWorse(net, a, b)
    ensures NoWorse(net, a + s, b + s)
  {
    var k := |a| - 1;
    Split(net, a + s, k);
    Split(net, b + s, k);
    assert (a + s)[..k + 1] == a && (b + s)[..k + 1] == b;
    assert (a + s)[k..] == [Last(a)] + s == (b + s)[k..];
    LexAppend(a, b, s);
  }

  /** The route that follows label `l` to its `k`-th node and then `p` from its `j`-th. */
  lemma CutLoop(net: Net, l: seq<nat>, p: seq<nat>, k: nat, j: nat)
    requires k < |l| && j < |p| && l[k] == p[j]
    ensures Seconds(net, l[..k + 1] + p[j + 1..]) == Seconds(net, l[..k + 1]) + Seconds(net, p[j..])
    ensures Seconds(net, l[..k + 1]) <= Seconds(net, l)
  {
    var q := l[..k + 1] + p[j + 1..];
    Split(net, q, k);
    assert q[..k + 1] == l[..k + 1] && q[k..] == p[j..];
    Split(net, l, k);
  }

  /** A path glued from a label and the tail of an itinerary it does not touch. */
  lemma GlueTrack(net: Net, l: seq<nat>, p: seq<nat>, j: nat)
    requires Track(net, l) && KnownLegs(net, l)
    requires Itinerary(net, p) && KnownLegs(net, p) && j < |p| && Last(l) == p[j]
    requires |l| <= j + 1
    requires forall m :: j < m < |p| ==> p[m] !in l
    requires j == |p| - 1 || Last(l) != net.Dest()
    ensures Itinerary(net, l + p[j + 1..]) && KnownLegs(net, l + p[j + 1..])
  {
    var q := l + p[j + 1..];
    forall i | 0 <= i < |q| ensures q[i] == if i < |l| then l[i] else p[j + 1 + i - |l|] {}
    forall i | 0 <= i < |q| - 1 ensures net.leg(q[i], q[i + 1]).Some? && q[i] != net.Dest() {
      if i >= |l| - 1 {
        var m := j + 1 + i - |l|;
        assert q[i] == p[m] && q[i + 1] == p[m + 1];
      }
    }
    if j == |p| - 1 {
      assert q == l;
    } else {
      assert Last(q) == Last(p);
    }
  }

  /** The last node of `p` after position `i` that `l` already visits, if there is one. */
  lemma LastMeeting(l: seq<nat>, p: seq<nat>, i: nat) returns (j: nat)
    requires i < |p|
    ensures i <= j < |p|
    ensures forall m :: j < m < |p| ==> p[m] !in l
    ensures j > i ==> p[j] in l
  {
    j := |p| - 1;
    while j > i && p[j] !in l
      invariant i <= j < |p|
      invariant forall m :: j < m < |p| ==> p[m] !in l
    {
      j := j - 1;
    }
  }

  lemma StartLabel(net: Net, table: Table)
    requires net.Valid() && TableOk(net, table)
    ensures table[(0, 0)].path == [0]
  {
    var p := table[(0, 0)].path;
    assert p[0] == Last(p);
  }

  /** The first `i` legs of `p` are a label of the table. */
  ghost predicate Label(net: Net, table: Table, p: seq<nat>, i: nat)
    requires i < |p|
  {
    var s := (p[i], if p[i] == net.Dest() then i - 1 else i);
    s in table && table[s].path == p[..i + 1]
  }


  lemma LabelExtends(net: Net, table: Table, p: seq<nat>, i: nat)
    requires net.Valid() && TableOk(net, table) && Itinerary(net, p) && i + 1 < |p| && Label(net, table, p, i)
    ensures (p[i], i) in table
    ensures var r := table[(p[i], i)];
            && ValidRoute(net, r) && r.node != net.Dest() && Allowed(net, r, p[i + 1])
            && Extend(net, r, p[i + 1]).path == p[..i + 2]
  {
    var r := table[(p[i], i)];
    assert forall m :: 0 <= m <= i ==> r.path[m] == p[m];
    assert p[i + 1] != p[0];
    assert r.path + [p[i + 1]] == p[..i + 2];
  }

  /** The label kept for the state of a route is no worse. */
  lemma KeptLabel(net: Net, table: Table, c: Route)
    requires TableOk(net, table) && ValidRoute(net, c) && c.State() in table && !Below(c, table[c.State()])
    ensures var l := table[c.State()].path;
            && Track(net, l) && KnownLegs(net, l) && |l| == |c.path| && Last(l) == Last(c.path)
            && Label(net, table, l, |l| - 1) && NoWorse(net, l, c.path)
  {
    var l := table[c.State()].path;
    assert l[..|l| - 1 + 1] == l;
    LexReverses(l, c.path);
  }

  /** The table has a label for the next node that is no worse than `p` up to there. */
  lemma NextLabel(net: Net, table: Table, found: Option<Route>, p: seq<nat>, i: nat) returns (l: seq<nat>)
    requires net.Valid() && TableOk(net, table) && AllSettled(net, table, found)
    requires Itinerary(net, p) && i + 1 < |p| && Label(net, table, p, i)
    ensures Track(net, l) && KnownLegs(net, l) && |l| == i + 2 && Last(l) == p[i + 1]
    ensures Label(net, table, l, i + 1)
    ensures NoWorse(net, l, p[..i + 2])
  {
    LabelExtends(net, table, p, i);
    var r, t := table[(p[i], i)], p[i + 1];
    assert Settled(net, table, found, r) && Offered(net, table, r, t);
    ExtendValid(net, r, t);
    KeptLabel(net, table, Extend(net, r, t));
    l := table[Extend(net, r, t).State()].path;
  }

  /** A label no worse than `p` so far, that misses the rest of `p`, can replace its head. */
  lemma ReplaceHead(net: Net, p: seq<nat>, l: seq<nat>, i: nat)
    requires Itinerary(net, p) && KnownLegs(net, p) && i < |p|
    requires Track(net, l) && KnownLegs(net, l) && |l| == i + 1 && Last(l) == p[i]
    requires NoWorse(net, l, p[..i + 1])
    requires forall m :: i < m < |p| ==> p[m] !in l
    ensures var q := l + p[i + 1..];
            Itinerary(net, q) && KnownLegs(net, q) && |q| == |p| && NoWorse(net, q, p)
  {
    GlueTrack(net, l, p, i);
    SwapPrefix(net, l, p[..i + 1], p[i + 1..]);
    assert p[..i + 1] + p[i + 1..] == p;
  }

  /** One that meets the rest of `p` gives a route with fewer hubs and no more seconds. */
  lemma CutShort(net: Net, p: seq<nat>, l: seq<nat>, i: nat, j: nat) returns (q: seq<nat>)
    requires Itinerary(net, p) && KnownLegs(net, p) && i < j < |p|
    requires Track(net, l) && KnownLegs(net, l) && |l| == i + 1 && Last(l) == p[i]
    requires NoWorse(net, l, p[..i + 1])
    requires p[j] in l && forall m :: j < m < |p| ==> p[m] !in l
    ensures Itinerary(net, q) && KnownLegs(net, q) && |q| < |p| && Seconds(net, q) <= Seconds(net, p)
  {
    var k :| 0 <= k < |l| && l[k] == p[j];
    var head := l[..k + 1];
    q := head + p[j + 1..];
    GlueTrack(net, head, p, j);
    CutLoop(net, l, p, k, j);
    Split(net, p, i);
    Split(net, p[i..], j - i);
    assert p[i..][j - i..] == p[j..];
  }

  /** Path order and hub count order carry over to the routes. */
  lemma RoutesFollow(net: Net, p: seq<nat>, q: seq<nat>)
    requires net.Valid() && Itinerary(net, p) && Itinerary(net, q)
    requires (|q| == |p| && NoWorse(net, q, p)) || (|q| < |p| && Seconds(net, q) <= Seconds(net, p))
    ensures !Below(RouteOf(net, p), RouteOf(net, q))
  {
    LexReverses(q, p);
  }

  lemma LabelHead(net: Net, table: Table, l: seq<nat>, s: seq<nat>)
    requires l != [] && Label(net, table, l, |l| - 1)
    ensures Label(net, table, l + s, |l| - 1)
  {
    assert (l + s)[..|l|] == l == l[..|l|];
  }

  lemma LabelStart(net: Net, table: Table, p: seq<nat>)
    requires net.Valid() && TableOk(net, table) && Itinerary(net, p)
    ensures Label(net, table, p, 0)
  {
    StartLabel(net, table);
    assert p[..1] == [0];
  }

  /** Either the next leg of `p` can be made a label too, or `p` has a shorter rival. */
  lemma Improve(net: Net, table: Table, found: Option<Route>, p: seq<nat>, i: nat) returns (q: seq<nat>, k: nat)
    requires net.Valid() && TableOk(net, table) && AllSettled(net, table, found)
    requires Itinerary(net, p) && KnownLegs(net, p) && i + 1 < |p| && Label(net, table, p, i)
    ensures Itinerary(net, q) && KnownLegs(net, q) && k < |q| && Label(net, table, q, k)
    ensures !Below(RouteOf(net, p), RouteOf(net, q))
    ensures |q| < |p| || (|q| == |p| && k == i + 1)
  {
    var l := NextLabel(net, table, found, p, i);
    var j := LastMeeting(l, p, i + 1);
    if j == i + 1 {
      ReplaceHead(net, p, l, i + 1);
      q, k := l + p[i + 2..], i + 1;
      LabelHead(net, table, l, p[i + 2..]);
    } else {
      q := CutShort(net, p, l, i + 1, j);
      k := 0;
      LabelStart(net, table, q);
    }
    RoutesFollow(net, p, q);
  }

  /** From a label that is a prefix of `p`, the result of the search is no worse than `p`. */
  lemma {:induction false} PrefixOptimal(net: Net, table: Table, found: Option<Route>, p: seq<nat>, i: nat)
    requires net.Valid() && TableOk(net, table) && AllSettled(net, table, found)
    requires Itinerary(net, p) && KnownLegs(net, p) && i < |p| && Label(net, table, p, i)
    ensures found.Some? && !Below(RouteOf(net, p), found.value)
    decreases |p|, |p| - i
  {
    if i == |p| - 1 {
      assert p[..i + 1] == p;
      assert Settled(net, table, found, table[(p[i], i - 1)]);
    } else {
      var q, k := Improve(net, table, found, p, i);
      PrefixOptimal(net, table, found, q, k);
      QueueTransitive(found.value, RouteOf(net, q), RouteOf(net, p));
    }
  }

  /** In a settled table every leg a route could use is known. */
  lemma LegsKnown(net: Net, table: Table, found: Option<Route>, p: seq<nat>)
    requires net.Valid() && TableOk(net, table) && AllSettled(net, table, found)
    requires Itinerary(net, p)
    ensures KnownLegs(net, p)
  {
    StartLabel(net, table);
    var start := table[(0, 0)];
    assert Settled(net, table, found, start);
    forall i | 0 <= i < |p| - 1 ensures net.leg(p[i], p[i + 1]).Some? {
      assert p[i + 1] != p[0];
      if i == 0 {
        assert Allowed(net, start, p[1]) && Offered(net, table, start, p[1]);
      } else {
        assert p[i] != p[0];
        assert Allowed(net, start, p[i]) && Offered(net, table, start, p[i]);
        var r := table[(p[i], 1)];
        assert r.path == [0, p[i]];
        assert Settled(net, table, found, r);
        assert p[i + 1] != p[i];
        assert Allowed(net, r, p[i + 1]) && Offered(net, table, r, p[i + 1]);
      }
    }
  }

  /** The route no itinerary improves on, under the preference order. */
  ghost predicate IsBest(net: Net, best: Route)
  {
    && ValidRoute(net, best) && best.node == net.Dest()
    && forall p :: Itinerary(net, p) ==>
                     KnownLegs(net, p) && QualityCompare(net, RouteOf(net, p), best) != Less
  }

  /** A settled table has found the best of ALL simple routes with at most eight hubs. */
  lemma SettledIsBest(net: Net, table: Table, found: Option<Route>)
    requires net.Valid() && TableOk(net, table) && AllSettled(net, table, found)
    requires found.Some? ==> ValidRoute(net, found.value) && found.value.node == net.Dest()
    ensures found.Some? && IsBest(net, found.value)
  {
    forall p | Itinerary(net, p)
      ensures KnownLegs(net, p) && found.Some? && QualityCompare(net, RouteOf(net, p), found.value) != Less
    {
      LegsKnown(net, table, found, p);
      LabelStart(net, table, p);
      PrefixOptimal(net, table, found, p, 0);
      OrdersAgree(net, RouteOf(net, p), found.value);
    }
    assert Itinerary(net, [0, net.Dest()]);
  }

  /** There is only one best route. */
  lemma BestUnique(net: Net, a: Route, b: Route)
    requires net.Valid() && IsBest(net, a) && IsBest(net, b)
    ensures a == b
  {
    assert RouteOf(net, a.path) == a && RouteOf(net, b.path) == b;
    OrdersAgree(net, a, b);
    OrdersAgree(net, b, a);
    QueueTotal(a, b);
  }

  /** Every route the planner may choose from can be timed. */
  ghost predicate AllKnown(net: Net) {
    forall p :: Itinerary(net, p) ==> KnownLegs(net, p)
  }

  lemma BestFacts(net: Net, best: Route)
    requires net.Valid() && IsBest(net, best)
    ensures AllKnown(net)
    ensures forall p :: Itinerary(net, p) ==> best.seconds <= Seconds(net, p)
    ensures Itinerary(net, best.path)
    ensures best.hubs == 0 ==> best.path == [0, net.Dest()]
  {
    forall p | Itinerary(net, p) ensures best.seconds <= Seconds(net, p) {
      assert QualityCompare(net, RouteOf(net, p), best) != Less;
    }
  }
}
