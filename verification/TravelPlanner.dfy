/** The smart travel planner: hub selection, the search, and the two-second rule. */
module TravelPlanner {
  import opened Orderings
  import opened Domain
  import opened TravelRoutes
  import opened TravelOptimality
  import opened TravelSearch
  import opened TravelTiming

  const MIN_SAVING_SECONDS: nat := 2

  /** Geometric distance of two positions, when it is finite. */
  type Metric = (Position, Position) -> Option<real>

  datatype Node = Node(key: StarKey, position: Position, hasHub: bool)

  datatype SmartTravelPlan = SmartTravelPlan(
    systems: seq<string>,
    intermediateSystems: seq<string>,
    directSeconds: nat,
    estimatedSeconds: nat,
    totalDistance: real,
    savedSeconds: nat,
    isDirect: bool)

  // ----- eligible hubs -------------------------------------------------------------

  predicate Eligible(origin: StarKey, destination: StarKey, star: Star) {
    star.key != origin && star.key != destination && star.hasHub == Some(true) && star.position.Some?
  }

  predicate Sorted(hubs: seq<Star>) {
    forall i, j :: 0 <= i < j < |hubs| ==> KeyCompare(hubs[i].key, hubs[j].key) == Less
  }

  /** Keeps the hubs in key order, and the earlier of two with one key. */
  function Insert(hubs: seq<Star>, star: Star): seq<Star> {
    if hubs == [] then [star]
    else match KeyCompare(star.key, hubs[0].key)
         case Less => [star] + hubs
         case Equal => hubs
         case Greater => [hubs[0]] + Insert(hubs[1..], star)
  }

  /** The eligible stars of the catalogue, sorted by key, the first of each key. */
  function Hubs(origin: StarKey, destination: StarKey, catalogue: seq<Star>): seq<Star> {
    if catalogue == [] then []
    else
      var hubs := Hubs(origin, destination, catalogue[..|catalogue| - 1]);
      if Eligible(origin, destination, Last(catalogue)) then Insert(hubs, Last(catalogue)) else hubs
  }

  lemma KeyEqual(a: StarKey, b: StarKey)
    ensures KeyCompare(a, b) == Equal <==> a == b
    ensures KeyCompare(b, a) == KeyCompare(a, b).Reverse()
  {
    LexReverses(KeyCode(a), KeyCode(b));
    LexEqual(KeyCode(a), KeyCode(b));
    if KeyCode(a) == KeyCode(b) {
      var offset := if a.realm.Live? then 1 else 2;
      assert KeyCode(a)[0] == KeyCode(b)[0];
      assert Codes(a.id) == KeyCode(a)[offset..] == KeyCode(b)[offset..] == Codes(b.id);
      if a.realm.Simulation? { assert KeyCode(a)[1] == KeyCode(b)[1]; }
      assert |a.id| == |b.id| by { assert |Codes(a.id)| == |a.id|; }
      forall i | 0 <= i < |a.id| ensures a.id[i] == b.id[i] {
        assert Codes(a.id)[i] == Codes(b.id)[i];
      }
    }
  }

  ghost predicate HasKey(hubs: seq<Star>, key: StarKey) {
    exists h :: h in hubs && h.key == key
  }

  lemma {:induction false} InsertSorted(hubs: seq<Star>, star: Star)
    requires Sorted(hubs)
    ensures Sorted(Insert(hubs, star))
    ensures forall h :: h in hubs ==> h in Insert(hubs, star)
    ensures forall h :: h in Insert(hubs, star) ==> h in hubs || h == star
    ensures HasKey(Insert(hubs, star), star.key)
  {
    var out := Insert(hubs, star);
    if hubs == [] {
      assert out[0] == star;
    } else {
      KeyEqual(star.key, hubs[0].key);
      match KeyCompare(star.key, hubs[0].key)
      case Less =>
        forall j | 0 <= j < |hubs| ensures KeyCompare(star.key, hubs[j].key) == Less {
          if j > 0 { LexTransitive(KeyCode(star.key), KeyCode(hubs[0].key), KeyCode(hubs[j].key)); }
        }
        assert out[0] == star;
      case Equal =>
        assert hubs[0] in out;
      case Greater =>
        InsertSorted(hubs[1..], star);
        InsertTail(hubs, star);
    }
  }

  lemma InsertTail(hubs: seq<Star>, star: Star)
    requires hubs != [] && Sorted(hubs) && KeyCompare(star.key, hubs[0].key) == Greater
    requires var rest := Insert(hubs[1..], star);
             && Sorted(rest) && HasKey(rest, star.key)
             && (forall h :: h in hubs[1..] ==> h in rest) && (forall h :: h in rest ==> h in hubs[1..] || h == star)
    ensures Sorted(Insert(hubs, star)) && HasKey(Insert(hubs, star), star.key)
    ensures forall h :: h in hubs ==> h in Insert(hubs, star)
    ensures forall h :: h in Insert(hubs, star) ==> h in hubs || h == star
  {
    var rest, out := Insert(hubs[1..], star), Insert(hubs, star);
    KeyEqual(star.key, hubs[0].key);
    assert out == [hubs[0]] + rest;
    forall j | 0 <= j < |rest| ensures KeyCompare(hubs[0].key, rest[j].key) == Less {
      assert rest[j] in rest;
    }
    var h :| h in rest && h.key == star.key;
    assert h in out;
  }

  /** Sorted without repeats, exactly the eligible keys, nothing from outside the catalogue. */
  ghost predicate HubsOf(origin: StarKey, destination: StarKey, catalogue: seq<Star>, hubs: seq<Star>) {
    && Sorted(hubs)
    && (forall h :: h in hubs ==> h in catalogue && Eligible(origin, destination, h))
    && (forall s :: s in catalogue && Eligible(origin, destination, s) ==> HasKey(hubs, s.key))
  }

  lemma {:induction false} HubsCorrect(origin: StarKey, destination: StarKey, catalogue: seq<Star>)
    ensures HubsOf(origin, destination, catalogue, Hubs(origin, destination, catalogue))
  {
    if catalogue != [] {
      var before := catalogue[..|catalogue| - 1];
      HubsCorrect(origin, destination, before);
      HubsNext(origin, destination, before, Last(catalogue), Hubs(origin, destination, before));
      assert catalogue == before + [Last(catalogue)];
    }
  }

  lemma HubsNext(origin: StarKey, destination: StarKey, before: seq<Star>, star: Star, hubs: seq<Star>)
    requires HubsOf(origin, destination, before, hubs)
    ensures HubsOf(origin, destination, before + [star],
                   if Eligible(origin, destination, star) then Insert(hubs, star) else hubs)
  {
    InsertSorted(hubs, star);
    var out := if Eligible(origin, destination, star) then Insert(hubs, star) else hubs;
    forall s | s in before + [star] && Eligible(origin, destination, s) ensures HasKey(out, s.key) {
      if s in before {
        var h :| h in hubs && h.key == s.key;
        assert h in out;
      }
    }
  }

  /** A larger catalogue keeps every hub, with the same star for each key. */
  lemma {:induction false} HubsGrow(origin: StarKey, destination: StarKey, catalogue: seq<Star>, more: seq<Star>)
    ensures forall h :: h in Hubs(origin, destination, catalogue) ==> h in Hubs(origin, destination, catalogue + more)
  {
    if more == [] {
      assert catalogue + more == catalogue;
    } else {
      var all, before := catalogue + more, catalogue + more[..|more| - 1];
      assert all[..|all| - 1] == before && Last(all) == Last(more);
      HubsGrow(origin, destination, catalogue, more[..|more| - 1]);
      HubsCorrect(origin, destination, before);
      InsertSorted(Hubs(origin, destination, before), Last(all));
    }
  }

  // ----- the net -------------------------------------------------------------------

  function NodeOf(star: Star): Node
    requires star.position.Some?
  {
    Node(star.key, star.position.value, star.hasHub == Some(true))
  }

  function Nodes(origin: Star, destination: Star, catalogue: seq<Star>): (nodes: seq<Node>)
    requires origin.position.Some? && destination.position.Some?
    ensures |nodes| == |Hubs(origin.key, destination.key, catalogue)| + 2
    ensures nodes[0] == NodeOf(origin) && Last(nodes) == NodeOf(destination)
    ensures forall i :: 1 <= i < |nodes| - 1 ==>
                          var h := Hubs(origin.key, destination.key, catalogue)[i - 1];
                          Eligible(origin.key, destination.key, h) && nodes[i] == NodeOf(h)
  {
    var hubs := Hubs(origin.key, destination.key, catalogue);
    HubsCorrect(origin.key, destination.key, catalogue);
    assert forall i :: 0 <= i < |hubs| ==> hubs[i] in hubs;
    [NodeOf(origin)] + seq(|hubs|, i requires 0 <= i < |hubs| => NodeOf(hubs[i])) + [NodeOf(destination)]
  }

  function LegBetween(a: Node, b: Node, profile: Profile, metric: Metric): Option<Leg> {
    match metric(a.position, b.position)
    case None => None
    case Some(d) =>
      match SurgeSeconds(d, profile, b.hasHub)
      case None => None
      case Some(s) => Some(Leg(s, d))
  }

  function NetOf(nodes: seq<Node>, profile: Profile, metric: Metric): Net {
    Net(seq(|nodes|, i requires 0 <= i < |nodes| => nodes[i].key),
        (a: nat, b: nat) =>
          if a < |nodes| && b < |nodes| then LegBetween(nodes[a], nodes[b], profile, metric) else None)
  }

  function PlannerNet(origin: Star, destination: Star, catalogue: seq<Star>, profile: Profile,
                      metric: Metric): (net: Net)
    requires origin.position.Some? && destination.position.Some?
    ensures net.Valid()
  {
    HubsCorrect(origin.key, destination.key, catalogue);
    NetOf(Nodes(origin, destination, catalogue), profile, metric)
  }

  // ----- the net, written out ------------------------------------------------------

  /** Whole seconds of a distance before any hub discount: 30, 50 or 30 / 1.35 seconds a light year. */
  ghost function WholeSeconds(d: real, profile: Profile): int {
    match profile
    case Standard => (d * 30.0).Floor
    case Cargo => (d * 50.0).Floor
    case Racing => (d * 30.0 / 1.35).Floor
  }

  ghost predicate Timeable(d: real, profile: Profile) {
    0.0 <= d && WholeSeconds(d, profile) <= 0x1_0000_0000_0000_0000
  }

  /** The time of a leg: a hub at its end takes a quarter off, and the top of the range saturates. */
  ghost function LegTime(d: real, profile: Profile, hubAtEnd: bool): int {
    var n := WholeSeconds(d, profile);
    var seconds := if n == 0x1_0000_0000_0000_0000 then n - 1 else n;
    if hubAtEnd then 3 * seconds / 4 else seconds
  }

  /** The leg between two stars in terms of their positions and of the hub at its end. */
  ghost predicate LegIs(a: Star, b: Star, profile: Profile, metric: Metric, leg: Option<Leg>)
    requires a.position.Some? && b.position.Some?
  {
    var d := metric(a.position.value, b.position.value);
    if d.Some? && Timeable(d.value, profile)
    then && leg.Some? && leg.value.distance == d.value
         && leg.value.seconds == LegTime(d.value, profile, b.hasHub == Some(true))
    else leg.None?
  }

  lemma LegWritten(a: Star, b: Star, profile: Profile, metric: Metric)
    requires a.position.Some? && b.position.Some?
    ensures LegIs(a, b, profile, metric, LegBetween(NodeOf(a), NodeOf(b), profile, metric))
  {
  }

  /** Origin, hubs and destination, each with its key, and between any two of them the leg of their stars. */
  lemma NetWritten(origin: Star, destination: Star, catalogue: seq<Star>, profile: Profile, metric: Metric, i: nat,
                   j: nat)
    requires origin.position.Some? && destination.position.Some?
    requires i < |Hubs(origin.key, destination.key, catalogue)| + 2
             && j < |Hubs(origin.key, destination.key, catalogue)| + 2
    ensures var net := PlannerNet(origin, destination, catalogue, profile, metric);
            var stars := [origin] + Hubs(origin.key, destination.key, catalogue) + [destination];
            && net.Size() == |stars| && net.keys[i] == stars[i].key
            && stars[i].position.Some? && stars[j].position.Some?
            && LegIs(stars[i], stars[j], profile, metric, net.leg(i, j))
  {
    var hubs := Hubs(origin.key, destination.key, catalogue);
    var stars, nodes := [origin] + hubs + [destination], Nodes(origin, destination, catalogue);
    HubsCorrect(origin.key, destination.key, catalogue);
    forall k | 0 <= k < |stars| ensures stars[k].position.Some? && nodes[k] == NodeOf(stars[k]) {
      if 1 <= k <= |hubs| { assert hubs[k - 1] in hubs; }
    }
    LegWritten(stars[i], stars[j], profile, metric);
  }

  /** A star is a stop exactly when it is listed with a hub and a position and is neither end. */
  lemma HubsWritten(origin: StarKey, destination: StarKey, catalogue: seq<Star>, key: StarKey)
    ensures HasKey(Hubs(origin, destination, catalogue), key)
            <==> && key != origin && key != destination
                 && exists s :: s in catalogue && s.key == key && s.hasHub == Some(true) && s.position.Some?
    ensures forall h :: h in Hubs(origin, destination, catalogue) ==> h in catalogue
  {
    HubsCorrect(origin, destination, catalogue);
    var hubs := Hubs(origin, destination, catalogue);
    forall s | && s in catalogue && s.key == key && s.hasHub == Some(true) && s.position.Some?
               && key != origin && key != destination
      ensures HasKey(hubs, key)
    {
      assert Eligible(origin, destination, s);
    }
    if h :| h in hubs && h.key == key {
      assert h in catalogue && Eligible(origin, destination, h);
    }
  }

  // ----- the plan ------------------------------------------------------------------

  function MakePlan(keys: seq<StarKey>, distance: real, direct: nat, estimated: nat): SmartTravelPlan {
    var systems := seq(|keys|, i requires 0 <= i < |keys| => keys[i].id);
    var between := if |keys| >= 2 then systems[1..|keys| - 1] else [];
    SmartTravelPlan(systems, between, direct, estimated, distance,
                    if direct >= estimated then direct - estimated else 0, between == [])
  }

  /** The path the plan follows once the best route is known. */
  function ChosenPath(net: Net, best: Route, direct: nat): seq<nat>
    requires net.Valid()
  {
    if best.hubs > 0 && direct >= best.seconds + MIN_SAVING_SECONDS then best.path else [0, net.Dest()]
  }

  /** `plan` is what the two-second rule makes of the best route. */
  ghost predicate Selects(net: Net, best: Route, plan: SmartTravelPlan)
    requires net.Valid()
  {
    var direct := Seconds(net, [0, net.Dest()]);
    var p := ChosenPath(net, best, direct);
    && IsBest(net, best) && InNet(net, p)
    && plan == MakePlan(KeyPath(net, p), Distance(net, p), direct, Seconds(net, p))
  }

  ghost predicate PlanOf(net: Net, plan: SmartTravelPlan)
    requires net.Valid()
  {
    exists best :: Selects(net, best, plan)
  }

  lemma DirectTotals(net: Net)
    requires net.Valid()
    ensures Seconds(net, [0, net.Dest()]) == net.LegSeconds(0, net.Dest())
    ensures Distance(net, [0, net.Dest()]) == net.LegDistance(0, net.Dest())
    ensures Itinerary(net, [0, net.Dest()])
  {
    assert [0, net.Dest()][..1] == [0];
  }

  // ----- exactly when there is a plan ----------------------------------------------

  /** Every leg a route could take is known, whether or not the best route needs it. */
  ghost predicate LegsComplete(net: Net) {
    forall a, b :: 0 <= a < net.Dest() && 1 <= b < net.Size() && a != b ==> net.leg(a, b).Some?
  }

  /** No route's duration leaves 64 bits. */
  ghost predicate Fits(net: Net) {
    forall r, t :: ValidRoute(net, r) && r.node != net.Dest() && Allowed(net, r, t) && net.leg(r.node, t).Some? ==>
                     Feasible(net, r, t)
  }

  /** A route that takes the leg. */
  lemma RouteThrough(net: Net, a: nat, b: nat) returns (p: seq<nat>, k: nat)
    requires net.Valid() && a < net.Dest() && 1 <= b < net.Size() && a != b
    ensures Itinerary(net, p) && k + 1 < |p| && p[k] == a && p[k + 1] == b
  {
    var d: nat := net.Dest();
    if a == 0 {
      p, k := if b == d then [0, d] else [0, b, d], 0;
    } else {
      p, k := if b == d then [0, a, d] else [0, a, b, d], 1;
    }
  }

  lemma BestKnowsAll(net: Net, best: Route)
    requires net.Valid() && IsBest(net, best)
    ensures LegsComplete(net)
  {
    forall a, b | 0 <= a < net.Dest() && 1 <= b < net.Size() && a != b ensures net.leg(a, b).Some? {
      var p, k := RouteThrough(net, a, b);
      assert KnownLegs(net, p);
    }
  }

  lemma CompleteIsPlannable(net: Net)
    requires net.Valid() && LegsComplete(net) && Fits(net)
    ensures !Unplannable(net)
  {
    forall r, t | ValidRoute(net, r) && r.node != net.Dest() && Allowed(net, r, t) ensures Feasible(net, r, t) {
      assert r.path[|r.path| - 1] == r.node;
      assert net.leg(r.node, t).Some?;
    }
  }

  ghost predicate LegsAtMost(net: Net, most: nat) { forall a, b :: net.LegSeconds(a, b) <= most }

  /** Nine legs of at most a ninth of the range fit. */
  lemma ShortLegsFit(net: Net)
    requires net.Valid() && LegsAtMost(net, U64_MAX / 9)
    ensures Fits(net)
  {
    forall r, t | ValidRoute(net, r) && r.node != net.Dest() && Allowed(net, r, t) && net.leg(r.node, t).Some?
      ensures Feasible(net, r, t)
    {
      SecondsBound(net, r.path, U64_MAX / 9);
      assert net.LegSeconds(r.node, t) <= U64_MAX / 9;
    }
  }

  function Times(n: nat, most: nat): nat { if n == 0 then 0 else Times(n - 1, most) + most }

  lemma {:induction false} SecondsBound(net: Net, p: seq<nat>, most: nat)
    requires 1 <= |p| <= 9 && LegsAtMost(net, most)
    ensures Seconds(net, p) <= 8 * most
    ensures Seconds(net, p) <= Times(|p| - 1, most)
  {
    if |p| > 1 {
      SecondsBound(net, p[..|p| - 1], most);
      assert net.LegSeconds(p[|p| - 2], p[|p| - 1]) <= most;
    }
    TimesBound(|p| - 1, most, 8);
  }

  lemma {:induction false} TimesBound(n: nat, most: nat, m: nat)
    requires n <= m
    ensures Times(n, most) <= m * most
  {
    if n > 0 {
      TimesBound(n - 1, most, m - 1);
      assert m * most == (m - 1) * most + most;
    } else {
      assert 0 <= m * most;
    }
  }

  /** The direct leg can be timed: both positions are known, their distance is finite and in range. */
  ghost predicate DirectTimed(origin: Star, destination: Star, profile: Profile, metric: Metric) {
    && origin.position.Some? && destination.position.Some?
    && metric(origin.position.value, destination.position.value).Some?
    && Timeable(metric(origin.position.value, destination.position.value).value, profile)
  }

  /** The direct time the plan quotes is that of the leg between the two stars. */
  ghost predicate QuotesDirect(origin: Star, destination: Star, profile: Profile, metric: Metric,
                               plan: SmartTravelPlan) {
    && DirectTimed(origin, destination, profile, metric)
    && var d := metric(origin.position.value, destination.position.value).value;
       plan.directSeconds == LegTime(d, profile, destination.hasHub == Some(true))
  }

  /** Origin and destination are one system: nothing to save. */
  ghost predicate Stays(origin: Star, destination: Star, metric: Metric, plan: SmartTravelPlan)
    requires origin.position.Some? && destination.position.Some?
  {
    && plan.systems == [origin.key.id] && plan.intermediateSystems == [] && plan.isDirect
    && plan.estimatedSeconds == plan.directSeconds && plan.savedSeconds == 0
    && metric(origin.position.value, destination.position.value) == Some(plan.totalDistance)
  }

  method Plan(origin: Star, destination: Star, catalogue: seq<Star>, profile: Profile, metric: Metric)
    returns (r: Option<SmartTravelPlan>)
    ensures !DirectTimed(origin, destination, profile, metric) ==> r.None?
    ensures r.Some? ==> QuotesDirect(origin, destination, profile, metric, r.value)
    ensures DirectTimed(origin, destination, profile, metric) ==>
              if origin.key == destination.key then r.Some? && Stays(origin, destination, metric, r.value)
              else
                var net := PlannerNet(origin, destination, catalogue, profile, metric);
                && (if r.Some? then PlanOf(net, r.value) && LegsComplete(net) else Unplannable(net))
                && (Fits(net) ==> (r.Some? <==> LegsComplete(net)))
  {
    if origin.position.None? || destination.position.None? {
      return None;
    }
    var leg := LegBetween(NodeOf(origin), NodeOf(destination), profile, metric);
    LegWritten(origin, destination, profile, metric);
    if leg.None? {
      return None;
    }
    var Leg(directSeconds, directDistance) := leg.value;
    if origin.key == destination.key {
      return Some(MakePlan([origin.key], directDistance, directSeconds, directSeconds));
    }
    var net := PlannerNet(origin, destination, catalogue, profile, metric);
    r := Choose(net, directSeconds, directDistance);
  }

  /** The search, and the two-second rule on what it finds. */
  method Choose(net: Net, directSeconds: nat, directDistance: real) returns (r: Option<SmartTravelPlan>)
    requires net.Valid() && net.leg(0, net.Dest()) == Some(Leg(directSeconds, directDistance))
    ensures if r.Some? then PlanOf(net, r.value) && LegsComplete(net) && r.value.directSeconds == directSeconds
            else Unplannable(net)
    ensures Fits(net) ==> (r.Some? <==> LegsComplete(net))
  {
    var dest := net.Dest();
    DirectTotals(net);
    ghost var pops, expanded;
    var fallback := Route(dest, 0, directSeconds, directDistance, [0, dest]);
    var ok, found;
    ok, found, pops, expanded := Search(net);
    if !ok {
      if LegsComplete(net) && Fits(net) {
        CompleteIsPlannable(net);
      }
      return None;
    }
    var selected := if found.Some? then found.value else fallback;
    BestKnowsAll(net, selected);
    var saving := if directSeconds >= selected.seconds then directSeconds - selected.seconds else 0;
    if selected.hubs > 0 && saving >= MIN_SAVING_SECONDS {
      r := Some(MakePlan(KeyPath(net, selected.path), selected.distance, directSeconds, selected.seconds));
    } else {
      r := Some(MakePlan([net.keys[0], net.keys[dest]], directDistance, directSeconds, directSeconds));
      assert KeyPath(net, [0, dest]) == [net.keys[0], net.keys[dest]];
    }
    assert Selects(net, selected, r.value);
  }
}
