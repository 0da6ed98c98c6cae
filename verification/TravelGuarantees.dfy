/** What a returned plan promises its caller. */
module TravelGuarantees {
  import opened Orderings
  import opened Domain
  import opened TravelRoutes
  import opened TravelOptimality
  import opened TravelTiming
  import opened TravelPlanner

  /** The plan lists the systems of `p`. */
  ghost predicate Follows(net: Net, plan: SmartTravelPlan, p: seq<nat>) {
    && InNet(net, p) && |plan.systems| == |p|
    && (forall i :: 0 <= i < |p| ==> plan.systems[i] == net.keys[p[i]].id)
  }

  lemma PlanPath(net: Net, plan: SmartTravelPlan) returns (best: Route, p: seq<nat>)
    requires net.Valid() && PlanOf(net, plan)
    ensures IsBest(net, best) && p == ChosenPath(net, best, plan.directSeconds)
    ensures Itinerary(net, p) && Follows(net, plan, p)
    ensures AllKnown(net) && Itinerary(net, best.path) && best.seconds == Seconds(net, best.path)
    ensures best.hubs == |best.path| - 2 && (best.hubs == 0 ==> best.path == [0, net.Dest()])
    ensures forall q :: Itinerary(net, q) ==> best.seconds <= Seconds(net, q)
    ensures plan.directSeconds == Seconds(net, [0, net.Dest()])
    ensures plan == MakePlan(KeyPath(net, p), Distance(net, p), plan.directSeconds, Seconds(net, p))
  {
    DirectTotals(net);
    best :| Selects(net, best, plan);
    p := ChosenPath(net, best, plan.directSeconds);
    BestFacts(net, best);
    PathFollows(net, plan, p);
  }

  lemma PathFollows(net: Net, plan: SmartTravelPlan, p: seq<nat>)
    requires InNet(net, p)
    requires plan == MakePlan(KeyPath(net, p), plan.totalDistance, plan.directSeconds, plan.estimatedSeconds)
    ensures Follows(net, plan, p)
  {
    assert forall i :: 0 <= i < |p| ==> KeyPath(net, p)[i] == net.keys[p[i]];
  }

  /** A simple route from origin to destination with at most eight stops between. */
  ghost predicate SimpleRoute(net: Net, q: seq<nat>) {
    && 2 <= |q| <= 10 && q[0] == 0 && q[|q| - 1] == |net.keys| - 1
    && (forall i :: 0 <= i < |q| ==> q[i] < |net.keys|)
    && forall i, j :: 0 <= i < j < |q| ==> q[i] != q[j]
  }

  lemma ItineraryWritten(net: Net, q: seq<nat>)
    requires net.Valid()
    ensures Itinerary(net, q) <==> SimpleRoute(net, q)
  {
    if Itinerary(net, q) {
      assert q[|q| - 1] == net.Dest() != q[0];
    }
  }

  /** Faster, or as fast with fewer stops, or also as long with a shorter way. */
  ghost predicate Precedes(net: Net, p: seq<nat>, q: seq<nat>) {
    || Seconds(net, p) < Seconds(net, q)
    || (Seconds(net, p) == Seconds(net, q) && |p| < |q|)
    || (Seconds(net, p) == Seconds(net, q) && |p| == |q| && Distance(net, p) < Distance(net, q))
  }

  /** The best route is preceded by no simple route; among equals its keys come first. */
  lemma BestWritten(net: Net, best: Route, q: seq<nat>)
    requires net.Valid() && IsBest(net, best) && SimpleRoute(net, q)
    ensures !Precedes(net, q, best.path) && SimpleRoute(net, best.path)
    ensures !Precedes(net, best.path, q) ==> KeyPathCompare(KeyPath(net, q), KeyPath(net, best.path)) != Less
  {
    ItineraryWritten(net, q);
    ItineraryWritten(net, best.path);
    assert QualityCompare(net, RouteOf(net, q), best) != Less;
  }

  /**
   A plan follows a simple route over hubs whose leg times add up to the estimate.  It is
   never slower than the direct leg, so the saving is an exact difference; it is at most
   one second above every other route, and at most equal to it when it is not direct.
   */
  lemma PlanSound(net: Net, plan: SmartTravelPlan) returns (p: seq<nat>)
    requires net.Valid() && PlanOf(net, plan)
    ensures Itinerary(net, p) && KnownLegs(net, p) && Follows(net, plan, p)
    ensures plan.intermediateSystems == plan.systems[1..|p| - 1]
    ensures plan.isDirect <==> p == [0, net.Dest()]
    ensures plan.estimatedSeconds == Seconds(net, p) && plan.totalDistance == Distance(net, p)
    ensures plan.directSeconds == net.LegSeconds(0, net.Dest())
    ensures plan.directSeconds == plan.estimatedSeconds + plan.savedSeconds
    ensures plan.isDirect <==> plan.savedSeconds < 2
    ensures SimpleRoute(net, p) && forall q :: SimpleRoute(net, q) ==> plan.estimatedSeconds <= Seconds(net, q) + 1
    ensures !plan.isDirect ==> forall q :: SimpleRoute(net, q) ==> plan.estimatedSeconds <= Seconds(net, q)
  {
    DirectTotals(net);
    var best;
    best, p := PlanPath(net, plan);
    assert Itinerary(net, [0, net.Dest()]);
    if best.hubs == 0 {
      assert best.seconds == plan.directSeconds;
    }
    ItineraryWritten(net, p);
    forall q | SimpleRoute(net, q) ensures best.seconds <= Seconds(net, q) {
      ItineraryWritten(net, q);
    }
  }

  /** In one realm no system is visited twice. */
  lemma SystemsDistinct(origin: Star, destination: Star, catalogue: seq<Star>, profile: Profile, metric: Metric,
                        p: seq<nat>)
    requires origin.position.Some? && destination.position.Some? && origin.key != destination.key
    requires origin.key.realm == destination.key.realm
    requires forall s :: s in catalogue ==> s.key.realm == origin.key.realm
    requires var net := PlannerNet(origin, destination, catalogue, profile, metric); Itinerary(net, p)
    ensures var net := PlannerNet(origin, destination, catalogue, profile, metric);
            forall i, j :: 0 <= i < j < |p| ==> net.keys[p[i]].id != net.keys[p[j]].id
  {
    var net := PlannerNet(origin, destination, catalogue, profile, metric);
    var hubs := Hubs(origin.key, destination.key, catalogue);
    var nodes := Nodes(origin, destination, catalogue);
    HubsCorrect(origin.key, destination.key, catalogue);
    forall a, b | 0 <= a < b < |nodes| ensures nodes[a].key.id != nodes[b].key.id {
      if 1 <= a { assert hubs[a - 1] in hubs; }
      if b < |nodes| - 1 { assert hubs[b - 1] in hubs; }
      if 1 <= a && b < |nodes| - 1 {
        KeyEqual(hubs[a - 1].key, hubs[b - 1].key);
      }
    }
    forall i, j | 0 <= i < j < |p| ensures net.keys[p[i]].id != net.keys[p[j]].id {
      assert p[i] != p[j];
    }
  }

  /** A plan means that every leg was known. */
  lemma PlanNeedsAllLegs(net: Net, plan: SmartTravelPlan)
    requires net.Valid() && PlanOf(net, plan)
    ensures LegsComplete(net)
  {
    var best :| Selects(net, best, plan);
    BestKnowsAll(net, best);
  }

  /** An added hub with a key of its own becomes a node. */
  lemma AddedNode(origin: Star, destination: Star, catalogue: seq<Star>, hub: Star) returns (i: nat)
    requires origin.position.Some? && destination.position.Some?
    requires Eligible(origin.key, destination.key, hub) && !HasKey(catalogue, hub.key)
    ensures var nodes := Nodes(origin, destination, catalogue + [hub]);
            1 <= i < |nodes| - 1 && nodes[i] == NodeOf(hub) && nodes[0] == NodeOf(origin)
  {
    var stars := catalogue + [hub];
    var hubs := Hubs(origin.key, destination.key, stars);
    HubsCorrect(origin.key, destination.key, stars);
    assert stars[|catalogue|] == hub;
    var h :| h in hubs && h.key == hub.key;
    assert h in stars && h !in catalogue;
    var j :| 0 <= j < |hubs| && hubs[j] == h;
    i := j + 1;
  }

  lemma UnknownLegNoPlan(net: Net, a: nat, b: nat)
    requires net.Valid() && a < net.Dest() && 1 <= b < net.Size() && a != b && net.leg(a, b).None?
    ensures !LegsComplete(net) && forall plan :: !PlanOf(net, plan)
  {
    forall plan | PlanOf(net, plan) ensures false {
      PlanNeedsAllLegs(net, plan);
    }
  }

  /**
   One added hub whose leg from the origin cannot be timed removes every plan, however good
   the direct leg is.
   */
  lemma HubRemovesPlan(origin: Star, destination: Star, catalogue: seq<Star>, hub: Star, profile: Profile,
                       metric: Metric)
    requires origin.position.Some? && destination.position.Some?
    requires Eligible(origin.key, destination.key, hub) && !HasKey(catalogue, hub.key)
    requires LegBetween(NodeOf(origin), NodeOf(hub), profile, metric).None?
    ensures var net := PlannerNet(origin, destination, catalogue + [hub], profile, metric);
            !LegsComplete(net) && forall plan :: !PlanOf(net, plan)
  {
    var i := AddedNode(origin, destination, catalogue, hub);
    UnknownLegNoPlan(PlannerNet(origin, destination, catalogue + [hub], profile, metric), 0, i);
  }

  // ----- more hubs never hurt ------------------------------------------------------

  /** The position in `large` of each node of `small`. */
  ghost predicate Embeds(small: seq<Node>, large: seq<Node>, f: seq<nat>) {
    && |f| == |small| >= 2 && |large| >= 2
    && (forall i :: 0 <= i < |f| ==> f[i] < |large| && large[f[i]] == small[i])
    && (forall i, j :: 0 <= i < j < |f| ==> f[i] != f[j])
    && f[0] == 0 && f[|f| - 1] == |large| - 1
  }

  ghost function Image(f: seq<nat>, p: seq<nat>): seq<nat>
    requires forall i :: 0 <= i < |p| ==> p[i] < |f|
  {
    seq(|p|, i requires 0 <= i < |p| => f[p[i]])
  }

  lemma {:induction false} ImageSeconds(small: seq<Node>, large: seq<Node>, f: seq<nat>, p: seq<nat>,
                                        profile: Profile, metric: Metric)
    requires Embeds(small, large, f) && forall i :: 0 <= i < |p| ==> p[i] < |f|
    ensures Seconds(NetOf(large, profile, metric), Image(f, p)) == Seconds(NetOf(small, profile, metric), p)
  {
    if |p| >= 2 {
      var q := p[..|p| - 1];
      ImageSeconds(small, large, f, q, profile, metric);
      assert Image(f, q) == Image(f, p)[..|p| - 1];
    }
  }

  lemma ImageItinerary(small: seq<Node>, large: seq<Node>, f: seq<nat>, p: seq<nat>, profile: Profile, metric: Metric)
    requires Embeds(small, large, f) && Itinerary(NetOf(small, profile, metric), p)
    ensures Itinerary(NetOf(large, profile, metric), Image(f, p))
  {
    var q := Image(f, p);
    forall i, j | 0 <= i < j < |q| ensures q[i] != q[j] {
      assert p[i] != p[j];
    }
    assert forall i :: 0 <= i < |p| - 1 ==> p[i] != |f| - 1;
  }

  /** Where each hub of `small` stands among those of `large`. */
  lemma {:induction false} Places(small: seq<Star>, large: seq<Star>) returns (f: seq<nat>)
    requires Sorted(small) && forall h :: h in small ==> h in large
    ensures |f| == |small| && forall i :: 0 <= i < |f| ==> 1 <= f[i] <= |large| && large[f[i] - 1] == small[i]
    ensures forall i, j :: 0 <= i < j < |f| ==> f[i] != f[j]
  {
    f := [];
    while |f| < |small|
      invariant |f| <= |small|
      invariant forall i :: 0 <= i < |f| ==> 1 <= f[i] <= |large| && large[f[i] - 1] == small[i]
    {
      assert small[|f|] in large;
      var k :| 0 <= k < |large| && large[k] == small[|f|];
      f := f + [k + 1];
    }
    forall i, j | 0 <= i < j < |f| ensures f[i] != f[j] {
      KeyEqual(small[i].key, small[j].key);
    }
  }

  /** Stars appended to a catalogue, or added anywhere in one that lists no key twice. */
  ghost predicate Enlarges(catalogue: seq<Star>, larger: seq<Star>) {
    || catalogue <= larger
    || (&& (forall s :: s in catalogue ==> s in larger)
        && forall s, t :: s in larger && t in larger && s.key == t.key ==> s == t)
  }

  lemma HubsStay(origin: StarKey, destination: StarKey, catalogue: seq<Star>, larger: seq<Star>)
    requires Enlarges(catalogue, larger)
    ensures forall h :: h in Hubs(origin, destination, catalogue) ==> h in Hubs(origin, destination, larger)
  {
    if catalogue <= larger {
      assert larger == catalogue + larger[|catalogue|..];
      HubsGrow(origin, destination, catalogue, larger[|catalogue|..]);
    } else {
      HubsCorrect(origin, destination, catalogue);
      HubsCorrect(origin, destination, larger);
      forall h | h in Hubs(origin, destination, catalogue) ensures h in Hubs(origin, destination, larger) {
        assert HasKey(Hubs(origin, destination, larger), h.key);
      }
    }
  }

  lemma Embedding(origin: Star, destination: Star, catalogue: seq<Star>, larger: seq<Star>) returns (f: seq<nat>)
    requires origin.position.Some? && destination.position.Some? && Enlarges(catalogue, larger)
    ensures Embeds(Nodes(origin, destination, catalogue), Nodes(origin, destination, larger), f)
  {
    var hs := Hubs(origin.key, destination.key, catalogue);
    var hl := Hubs(origin.key, destination.key, larger);
    HubsStay(origin.key, destination.key, catalogue, larger);
    HubsCorrect(origin.key, destination.key, catalogue);
    var g := Places(hs, hl);
    f := Framed(g, |hl|);
    var small, large := Nodes(origin, destination, catalogue), Nodes(origin, destination, larger);
    forall i | 1 <= i < |f| - 1 ensures large[f[i]] == small[i] {
      assert f[i] == g[i - 1] && hl[g[i - 1] - 1] == hs[i - 1];
      assert large[f[i]] == NodeOf(hl[f[i] - 1]);
      assert small[i] == NodeOf(hs[i - 1]);
    }
  }

  lemma Framed(g: seq<nat>, hubs: nat) returns (f: seq<nat>)
    requires forall i :: 0 <= i < |g| ==> 1 <= g[i] <= hubs
    requires forall i, j :: 0 <= i < j < |g| ==> g[i] != g[j]
    ensures |f| == |g| + 2 && f[0] == 0 && f[|g| + 1] == hubs + 1
    ensures forall i :: 1 <= i <= |g| ==> f[i] == g[i - 1] && f[i] <= hubs
    ensures forall i, j :: 0 <= i < j < |f| ==> f[i] != f[j]
  {
    f := [0] + g + [hubs + 1];
  }

  /** Adding stars to the catalogue never makes the estimate larger. */
  lemma MoreHubsNeverSlower(origin: Star, destination: Star, catalogue: seq<Star>, larger: seq<Star>,
                            profile: Profile, metric: Metric, plan: SmartTravelPlan, plan': SmartTravelPlan)
    requires origin.position.Some? && destination.position.Some? && Enlarges(catalogue, larger)
    requires PlanOf(PlannerNet(origin, destination, catalogue, profile, metric), plan)
    requires PlanOf(PlannerNet(origin, destination, larger, profile, metric), plan')
    ensures plan'.estimatedSeconds <= plan.estimatedSeconds
  {
    var small, large := Nodes(origin, destination, catalogue), Nodes(origin, destination, larger);
    var p := PlanSound(NetOf(small, profile, metric), plan);
    var f := Embedding(origin, destination, catalogue, larger);
    ImageSeconds(small, large, f, p, profile, metric);
    ImageItinerary(small, large, f, p, profile, metric);
    assert large[0] == small[0] && Last(large) == Last(small);
    NotSlower(NetOf(large, profile, metric), plan', plan, Image(f, p));
  }

  /** A plan whose net has a route as fast as another plan, and the same direct leg. */
  lemma NotSlower(net: Net, plan: SmartTravelPlan, other: SmartTravelPlan, q: seq<nat>)
    requires net.Valid() && PlanOf(net, plan) && Itinerary(net, q) && Seconds(net, q) == other.estimatedSeconds
    requires other.directSeconds == net.LegSeconds(0, net.Dest())
    requires other.directSeconds == other.estimatedSeconds + other.savedSeconds
    requires other.isDirect <==> other.savedSeconds < 2
    requires other.isDirect ==> other.savedSeconds == 0
    ensures plan.estimatedSeconds <= other.estimatedSeconds
  {
    var p := PlanSound(net, plan);
    ItineraryWritten(net, q);
  }

  // ----- how much a detour can save ------------------------------------------------

  /** The triangle inequality, wherever the three distances are finite. */
  ghost predicate Triangle(metric: Metric) {
    forall a, b, c :: metric(a, b).Some? && metric(b, c).Some? && metric(a, c).Some? ==>
                        metric(a, c).value <= metric(a, b).value + metric(b, c).value
  }

  /** A leg whose floor filled the 64-bit counter. */
  ghost predicate Full(net: Net, a: nat, b: nat) {
    4 * net.LegSeconds(a, b) >= 3 * U64_MAX - 3
  }

  /** Two roundings cost a hub leg less than six quarter seconds, one rounding less than four. */
  lemma LegLower(nodes: seq<Node>, profile: Profile, metric: Metric, a: nat, b: nat)
    requires a < |nodes| && b < |nodes| && NetOf(nodes, profile, metric).leg(a, b).Some?
    ensures var net := NetOf(nodes, profile, metric);
            || Full(net, a, b)
            || (4 * net.LegSeconds(a, b)) as real
               > 3.0 * Scaled(net.LegDistance(a, b), profile) - (if nodes[b].hasHub then 6.0 else 4.0)
  {
    var d := metric(nodes[a].position, nodes[b].position).value;
    var n := PreSurge(d, profile).value;
    assert Scaled(d, profile) >= 0.0;
  }

  ghost predicate NoFullLeg(net: Net, p: seq<nat>) {
    forall i :: 0 <= i < |p| - 1 ==> !Full(net, p[i], p[i + 1])
  }

  /** Along hubs the seconds stay within six quarters per leg of three quarters of the distance. */
  lemma {:induction false} HubLegsLower(nodes: seq<Node>, profile: Profile, metric: Metric, p: seq<nat>)
    requires var net := NetOf(nodes, profile, metric);
             p != [] && InNet(net, p) && KnownLegs(net, p) && NoFullLeg(net, p)
    requires forall i :: 0 < i < |p| ==> nodes[p[i]].hasHub
    ensures var net := NetOf(nodes, profile, metric);
            (4 * Seconds(net, p)) as real >= 3.0 * Scaled(Distance(net, p), profile) - 6.0 * (|p| - 1) as real
  {
    if |p| >= 2 {
      var q := p[..|p| - 1];
      HubLegsLower(nodes, profile, metric, q);
      LegLower(nodes, profile, metric, p[|p| - 2], p[|p| - 1]);
    }
  }

  lemma {:induction false} FullLegCosts(net: Net, p: seq<nat>)
    requires !NoFullLeg(net, p)
    ensures 4 * Seconds(net, p) >= 3 * U64_MAX - 3
  {
    var q := p[..|p| - 1];
    if !Full(net, p[|p| - 2], p[|p| - 1]) {
      assert !NoFullLeg(net, q) by {
        var i :| 0 <= i < |p| - 1 && Full(net, p[i], p[i + 1]);
        assert q[i] == p[i] && q[i + 1] == p[i + 1];
      }
      FullLegCosts(net, q);
    }
  }

  /** The straight line to any stop of a route can be timed. */
  lemma StraightKnown(net: Net, p: seq<nat>, k: nat)
    requires net.Valid() && AllKnown(net) && Itinerary(net, p) && 1 <= k < |p|
    ensures net.leg(0, p[k]).Some?
  {
    assert p[k] != p[0];
    var straight := if k == |p| - 1 then [0, net.Dest()] else [0, p[k], net.Dest()];
    assert Itinerary(net, straight);
    assert net.leg(straight[0], straight[1]).Some?;
  }

  lemma LegTriangle(nodes: seq<Node>, profile: Profile, metric: Metric, a: nat, b: nat, c: nat)
    requires Triangle(metric)
    requires var net := NetOf(nodes, profile, metric);
             net.leg(a, b).Some? && net.leg(b, c).Some? && net.leg(a, c).Some?
    ensures var net := NetOf(nodes, profile, metric);
            net.LegDistance(a, c) <= net.LegDistance(a, b) + net.LegDistance(b, c)
  {
  }

  /** A route is at least as long as the straight line. */
  lemma {:induction false} Detour(nodes: seq<Node>, profile: Profile, metric: Metric, p: seq<nat>, k: nat)
    requires Triangle(metric)
    requires var net := NetOf(nodes, profile, metric);
             net.Valid() && AllKnown(net) && Itinerary(net, p) && 1 <= k < |p|
    ensures var net := NetOf(nodes, profile, metric);
            net.leg(0, p[k]).Some? && net.LegDistance(0, p[k]) <= Distance(net, p[..k + 1])
  {
    var net := NetOf(nodes, profile, metric);
    StraightKnown(net, p, k);
    assert p[..k + 1][..k] == p[..k];
    if k == 1 {
      assert p[..1] == [0];
    } else {
      Detour(nodes, profile, metric, p, k - 1);
      assert net.leg(p[k - 1], p[k]).Some?;
      LegTriangle(nodes, profile, metric, 0, p[k - 1], p[k]);
    }
  }

  lemma StraightLine(nodes: seq<Node>, profile: Profile, metric: Metric, p: seq<nat>)
    requires Triangle(metric)
    requires var net := NetOf(nodes, profile, metric); net.Valid() && AllKnown(net) && Itinerary(net, p)
    ensures var net := NetOf(nodes, profile, metric);
            && net.leg(0, net.Dest()) == LegBetween(nodes[0], Last(nodes), profile, metric)
            && net.leg(0, net.Dest()).Some?
            && Scaled(net.LegDistance(0, net.Dest()), profile) <= Scaled(Distance(net, p), profile)
  {
    DirectLeg(nodes, profile, metric, p);
    Detour(nodes, profile, metric, p, |p| - 1);
    assert p[..|p| - 1 + 1] == p;
    var net := NetOf(nodes, profile, metric);
    ScaledLinear(net.LegDistance(0, net.Dest()), Distance(net, p), profile);
  }

  lemma DirectLeg(nodes: seq<Node>, profile: Profile, metric: Metric, p: seq<nat>)
    requires var net := NetOf(nodes, profile, metric); net.Valid() && Itinerary(net, p)
    ensures var net := NetOf(nodes, profile, metric);
            && |p| >= 2 && p[|p| - 1] == net.Dest()
            && net.leg(0, net.Dest()) == LegBetween(nodes[0], Last(nodes), profile, metric)
  {
  }

  lemma HubStops(origin: Star, destination: Star, catalogue: seq<Star>, profile: Profile, metric: Metric, p: seq<nat>)
    requires origin.position.Some? && destination.position.Some?
    requires Itinerary(PlannerNet(origin, destination, catalogue, profile, metric), p)
    ensures forall i :: 0 < i < |p| - 1 ==> Nodes(origin, destination, catalogue)[p[i]].hasHub
  {
    forall i | 0 < i < |p| - 1 ensures Nodes(origin, destination, catalogue)[p[i]].hasHub {
      assert p[i] != p[0];
    }
  }

  /** Quarter seconds lost along a whole route: six per hub leg, four or six on the last. */
  lemma RouteLower(nodes: seq<Node>, profile: Profile, metric: Metric, p: seq<nat>)
    requires var net := NetOf(nodes, profile, metric);
             net.Valid() && Itinerary(net, p) && KnownLegs(net, p) && NoFullLeg(net, p)
    requires forall i :: 0 < i < |p| - 1 ==> nodes[p[i]].hasHub
    ensures var net := NetOf(nodes, profile, metric);
            (4 * Seconds(net, p)) as real
            > 3.0 * Scaled(Distance(net, p), profile) - (if Last(nodes).hasHub then 54.0 else 52.0)
  {
    var net := NetOf(nodes, profile, metric);
    var q, u, v := p[..|p| - 1], p[|p| - 2], p[|p| - 1];
    HubLegsLower(nodes, profile, metric, q);
    LastLegLower(nodes, profile, metric, p);
    ScaledLinear(Distance(net, q), net.LegDistance(u, v), profile);
    WeighLegs(Seconds(net, q), net.LegSeconds(u, v), Scaled(Distance(net, q), profile),
              Scaled(net.LegDistance(u, v), profile), |q| - 1, Last(nodes).hasHub);
  }

  lemma LastLegLower(nodes: seq<Node>, profile: Profile, metric: Metric, p: seq<nat>)
    requires var net := NetOf(nodes, profile, metric);
             net.Valid() && Itinerary(net, p) && KnownLegs(net, p) && NoFullLeg(net, p)
    ensures var net := NetOf(nodes, profile, metric);
            (4 * net.LegSeconds(p[|p| - 2], p[|p| - 1])) as real >
              3.0 * Scaled(net.LegDistance(p[|p| - 2], p[|p| - 1]), profile) - (if Last(nodes).hasHub then 6.0 else 4.0)
  {
    assert !Full(NetOf(nodes, profile, metric), p[|p| - 2], p[|p| - 1]);
    LegLower(nodes, profile, metric, p[|p| - 2], p[|p| - 1]);
  }

  lemma WeighLegs(hubSeconds: nat, lastSeconds: nat, hubWay: real, lastWay: real, legs: nat, hub: bool)
    requires legs <= MAX_INTERMEDIATE_HUBS
    requires (4 * hubSeconds) as real >= 3.0 * hubWay - 6.0 * legs as real
    requires (4 * lastSeconds) as real > 3.0 * lastWay - (if hub then 6.0 else 4.0)
    ensures (4 * (hubSeconds + lastSeconds)) as real > 3.0 * (hubWay + lastWay) - (if hub then 54.0 else 52.0)
  {
  }

  /** The direct time is at most the scaled distance, or three quarters of it with a hub. */
  lemma DirectUpper(a: Node, b: Node, profile: Profile, metric: Metric)
    requires LegBetween(a, b, profile, metric).Some?
    ensures var leg := LegBetween(a, b, profile, metric).value;
            if b.hasHub
            then (4 * leg.seconds) as real <= 3.0 * Scaled(leg.distance, profile) && 4 * leg.seconds <= 3 * U64_MAX
            else leg.seconds as real <= Scaled(leg.distance, profile) && leg.seconds <= U64_MAX
  {
    var n := PreSurge(metric(a.position, b.position).value, profile).value;
  }

  /**
   With a metric that obeys the triangle inequality a plan saves less than a quarter of
   the direct time plus thirteen seconds, and at most thirteen seconds when the
   destination has a hub of its own: what a detour wins is the hub discount on the way
   and the rounding of at most nine legs.
   */
  lemma SavingBound(origin: Star, destination: Star, catalogue: seq<Star>, profile: Profile, metric: Metric,
                    plan: SmartTravelPlan)
    requires origin.position.Some? && destination.position.Some? && Triangle(metric)
    requires PlanOf(PlannerNet(origin, destination, catalogue, profile, metric), plan)
    ensures 4 * plan.savedSeconds < plan.directSeconds + 52
    ensures destination.hasHub == Some(true) ==> plan.savedSeconds <= 13
  {
    var net := PlannerNet(origin, destination, catalogue, profile, metric);
    var nodes := Nodes(origin, destination, catalogue);
    var p := PlanSound(net, plan);
    var best, _ := PlanPath(net, plan);
    StraightLine(nodes, profile, metric, p);
    DirectUpper(nodes[0], Last(nodes), profile, metric);
    HubStops(origin, destination, catalogue, profile, metric, p);
    RouteSaving(nodes, profile, metric, p, plan.directSeconds);
  }

  lemma RouteSaving(nodes: seq<Node>, profile: Profile, metric: Metric, p: seq<nat>, direct: nat)
    requires var net := NetOf(nodes, profile, metric);
             && net.Valid() && Itinerary(net, p) && KnownLegs(net, p) && direct == net.LegSeconds(0, net.Dest())
             && Scaled(net.LegDistance(0, net.Dest()), profile) <= Scaled(Distance(net, p), profile)
             && var straight := Scaled(net.LegDistance(0, net.Dest()), profile);
                if Last(nodes).hasHub then (4 * direct) as real <= 3.0 * straight && 4 * direct <= 3 * U64_MAX
                else direct as real <= straight && direct <= U64_MAX
    requires forall i :: 0 < i < |p| - 1 ==> nodes[p[i]].hasHub
    ensures var saved := direct - Seconds(NetOf(nodes, profile, metric), p);
            4 * saved < direct + 52 && (Last(nodes).hasHub ==> saved <= 13)
  {
    var net := NetOf(nodes, profile, metric);
    if !NoFullLeg(net, p) {
      FullLegCosts(net, p);
    } else {
      RouteLower(nodes, profile, metric, p);
      Weigh(direct, Seconds(net, p), Scaled(net.LegDistance(0, net.Dest()), profile),
            Scaled(Distance(net, p), profile), Last(nodes).hasHub);
    }
  }

  lemma Weigh(direct: nat, estimated: nat, straight: real, along: real, hub: bool)
    requires straight <= along
    requires if hub then (4 * direct) as real <= 3.0 * straight else direct as real <= straight
    requires (4 * estimated) as real > 3.0 * along - (if hub then 54.0 else 52.0)
    ensures if hub then 4 * direct - 4 * estimated < 54 else 4 * (direct - estimated) < direct + 52
  {
  }
}
