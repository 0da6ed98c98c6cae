/** From location codes to systems, and from a plan back to the waypoints of a travel order. */
module SystemResolution {
  import opened Orderings
  import opened Domain
  import opened TravelRoutes
  import opened TravelOptimality
  import opened TravelSearch
  import opened TravelTiming
  import opened TravelPlanner
  import opened TravelGuarantees

  // ----- the system of a code ------------------------------------------------------

  /** `code` is the system itself or a body in it. */
  predicate Names(id: string, code: string) {
    id <= code && (|id| == |code| || code[|id|] == '-')
  }

  lemma NamesWritten(id: string, code: string)
    ensures Names(id, code) <==> code == id || exists body: string :: code == id + "-" + body
  {
    if Names(id, code) && |id| < |code| {
      assert code == id + "-" + code[|id| + 1..];
    }
    if body: string :| code == id + "-" + body {
      assert code[..|id|] == id && code[|id|] == '-';
    }
  }

  /** The last of the longest designations among the first `n` stars that name `code`. */
  function ResolveAmong(code: string, stars: seq<Star>, n: nat): Option<Star>
    requires n <= |stars|
  {
    if n == 0 then None else
      var best, star := ResolveAmong(code, stars, n - 1), stars[n - 1];
      if Names(star.key.id, code) && (best.None? || |best.value.key.id| <= |star.key.id|) then Some(star) else best
  }

  function Resolve(code: string, stars: seq<Star>): Option<Star> { ResolveAmong(code, stars, |stars|) }

  /** The star names the code, and every other designation that does is a prefix of its own. */
  ghost predicate Longest(code: string, stars: seq<Star>, star: Star) {
    && star in stars && Names(star.key.id, code)
    && forall s :: s in stars && Names(s.key.id, code) ==> s.key.id <= star.key.id
  }

  lemma {:induction false} LastLongest(code: string, stars: seq<Star>, n: nat) returns (at: nat)
    requires n <= |stars|
    ensures ResolveAmong(code, stars, n).None? ==> forall i :: 0 <= i < n ==> !Names(stars[i].key.id, code)
    ensures ResolveAmong(code, stars, n).Some? ==>
              && at < n && ResolveAmong(code, stars, n) == Some(stars[at]) && Names(stars[at].key.id, code)
              && (forall i :: 0 <= i <= at && Names(stars[i].key.id, code) ==> |stars[i].key.id| <= |stars[at].key.id|)
              && (forall i :: at < i < n && Names(stars[i].key.id, code) ==> |stars[i].key.id| < |stars[at].key.id|)
  {
    at := 0;
    if n > 0 {
      at := LastLongest(code, stars, n - 1);
      if ResolveAmong(code, stars, n) == ResolveAmong(code, stars, n - 1) && !Names(stars[n - 1].key.id, code) {
        return;
      }
      var best := ResolveAmong(code, stars, n - 1);
      if best.None? || |best.value.key.id| <= |stars[n - 1].key.id| {
        at := n - 1;
      }
    }
  }

  lemma PrefixesNest(a: string, b: string, code: string)
    requires a <= code && b <= code && |a| <= |b|
    ensures a <= b
  {
    assert a == code[..|a|] && b == code[..|b|];
  }

  /**
   A code has a system exactly when some designation names it, and the system is then the
   longest such designation, in whatever order the catalogue is listed.
   */
  lemma ResolvesLongest(code: string, stars: seq<Star>)
    ensures Resolve(code, stars).None? <==> forall s :: s in stars ==> !Names(s.key.id, code)
    ensures Resolve(code, stars).Some? ==> Longest(code, stars, Resolve(code, stars).value)
  {
    var at := LastLongest(code, stars, |stars|);
    if Resolve(code, stars).Some? {
      var star := stars[at];
      forall s | s in stars && Names(s.key.id, code) ensures s.key.id <= star.key.id {
        var i :| 0 <= i < |stars| && stars[i] == s;
        PrefixesNest(s.key.id, star.key.id, code);
      }
    }
  }

  predicate DistinctDesignations(stars: seq<Star>) {
    forall s, t :: s in stars && t in stars && s.key.id == t.key.id ==> s == t
  }

  lemma OrderIndependent(code: string, a: seq<Star>, b: seq<Star>)
    requires DistinctDesignations(a) && forall s :: s in a <==> s in b
    ensures Resolve(code, a) == Resolve(code, b)
  {
    ResolvesLongest(code, a);
    ResolvesLongest(code, b);
    if Resolve(code, a).Some? {
      var s := Resolve(code, a).value;
      assert s in b && Names(s.key.id, code);
      var t := Resolve(code, b).value;
      assert s.key.id <= t.key.id && t.key.id <= s.key.id;
    }
  }

  /** A listed designation resolves to itself. */
  lemma ExactMatchWins(stars: seq<Star>, star: Star)
    requires star in stars
    ensures Resolve(star.key.id, stars).Some? && Resolve(star.key.id, stars).value.key.id == star.key.id
  {
    ResolvesLongest(star.key.id, stars);
  }

  // ----- the waypoints of a travel order -------------------------------------------

  function Lower(c: char): char { if 'A' <= c <= 'Z' then c + 32 as char else c }

  predicate CaseEqual(a: string, b: string) {
    |a| == |b| && forall i :: 0 <= i < |a| ==> Lower(a[i]) == Lower(b[i])
  }

  /** A text with its ASCII letters in upper case. */
  ghost function InUpperCase(s: string): string {
    seq(|s|, i requires 0 <= i < |s| => if 'a' <= s[i] <= 'z' then (s[i] as int - 32) as char else s[i])
  }

  /** Texts are equal up to letter case exactly when they are the same in upper case. */
  lemma CaseEqualWritten(a: string, b: string)
    ensures CaseEqual(a, b) <==> InUpperCase(a) == InUpperCase(b)
  {
    var x, y := InUpperCase(a), InUpperCase(b);
    assert |x| == |a| && |y| == |b|;
    if CaseEqual(a, b) {
      forall i | 0 <= i < |a| ensures x[i] == y[i] {
        assert Lower(a[i]) == Lower(b[i]);
      }
    }
    if x == y {
      forall i | 0 <= i < |a| ensures Lower(a[i]) == Lower(b[i]) {
        assert x[i] == y[i];
      }
    }
  }

  function ExplicitWaypoints(plan: SmartTravelPlan, destination: string): seq<string> {
    var waypoints := plan.intermediateSystems;
    if plan.systems == [] then waypoints else
      var from, to := plan.systems[0], plan.systems[|plan.systems| - 1];
      if CaseEqual(from, to) || CaseEqual(destination, to) then waypoints
      else if to <= destination && |to| < |destination| && destination[|to|] == '-'
              && !(waypoints != [] && CaseEqual(waypoints[|waypoints| - 1], to))
      then waypoints + [to] else waypoints
  }

  /** What the planner may return between two stars. */
  ghost predicate PlanBetween(origin: Star, destination: Star, stars: seq<Star>, profile: Profile, metric: Metric,
                              plan: SmartTravelPlan) {
    && QuotesDirect(origin, destination, profile, metric, plan)
    && if origin.key == destination.key then Stays(origin, destination, metric, plan)
       else PlanOf(PlannerNet(origin, destination, stars, profile, metric), plan)
  }

  /** Why the planner may return nothing: the direct leg or another leg on the way cannot be timed. */
  ghost predicate NoPlanBetween(origin: Star, destination: Star, stars: seq<Star>, profile: Profile, metric: Metric) {
    || !DirectTimed(origin, destination, profile, metric)
    || (origin.key != destination.key && var net := PlannerNet(origin, destination, stars, profile, metric);
          Unplannable(net) && (Fits(net) ==> !LegsComplete(net)))
  }

  /** Both codes resolved against the catalogue, then planned. */
  method SmartRoute(originCode: string, destinationCode: string, stars: seq<Star>, profile: Profile, metric: Metric)
    returns (r: Option<SmartTravelPlan>)
    ensures var origin, destination := Resolve(originCode, stars), Resolve(destinationCode, stars);
            if origin.None? || destination.None? then r.None?
            else if r.Some? then PlanBetween(origin.value, destination.value, stars, profile, metric, r.value)
            else NoPlanBetween(origin.value, destination.value, stars, profile, metric)
  {
    var origin, destination := Resolve(originCode, stars), Resolve(destinationCode, stars);
    if origin.None? || destination.None? {
      return None;
    }
    r := Plan(origin.value, destination.value, stars, profile, metric);
  }

  ghost predicate Distinct(xs: seq<string>) { forall i, j :: 0 <= i < j < |xs| ==> xs[i] != xs[j] }

  ghost predicate OneRealm(stars: seq<Star>) { forall s, t :: s in stars && t in stars ==> s.key.realm == t.key.realm }

  /** The plan's systems run from origin to destination without a repeat, the hubs in between. */
  ghost predicate Runs(plan: SmartTravelPlan, from: string, to: string) {
    var n := |plan.systems|;
    && n >= 1 && plan.systems[0] == from && plan.systems[n - 1] == to && Distinct(plan.systems)
    && plan.intermediateSystems == (if n == 1 then [] else plan.systems[1..n - 1])
  }

  lemma RouteRuns(net: Net, plan: SmartTravelPlan, p: seq<nat>)
    requires net.Valid() && Itinerary(net, p) && Follows(net, plan, p)
    requires plan.intermediateSystems == plan.systems[1..|p| - 1]
    requires forall i, j :: 0 <= i < j < |p| ==> net.keys[p[i]].id != net.keys[p[j]].id
    ensures Runs(plan, net.keys[0].id, net.keys[net.Dest()].id)
  {
    assert p[0] == 0 && p[|p| - 1] == net.Dest();
  }

  lemma NetEnds(origin: Star, destination: Star, stars: seq<Star>, profile: Profile, metric: Metric)
    requires origin.position.Some? && destination.position.Some?
    ensures var net := PlannerNet(origin, destination, stars, profile, metric);
            net.keys[0] == origin.key && net.keys[net.Dest()] == destination.key
  {
  }

  lemma PlanRuns(origin: Star, destination: Star, stars: seq<Star>, profile: Profile, metric: Metric,
                 plan: SmartTravelPlan)
    requires PlanBetween(origin, destination, stars, profile, metric, plan)
    requires origin in stars && destination in stars && OneRealm(stars)
    ensures Runs(plan, origin.key.id, destination.key.id)
  {
    if origin.key == destination.key {
      assert |plan.systems| == 1;
    } else {
      var net := PlannerNet(origin, destination, stars, profile, metric);
      var p := PlanSound(net, plan);
      SystemsDistinct(origin, destination, stars, profile, metric, p);
      NetEnds(origin, destination, stars, profile, metric);
      RouteRuns(net, plan, p);
    }
  }

  /** The order must name the destination system after the hubs: the goal is a body in another system. */
  ghost predicate EndsInside(origin: Star, destination: Star, code: string) {
    origin.key.id != destination.key.id && code != destination.key.id
  }

  /**
   The destination system differs only by letter case from the system the last leg comes from or
   the order starts in.
   */
  ghost predicate CaseClash(origin: Star, destination: Star, plan: SmartTravelPlan) {
    var between, to := plan.intermediateSystems, destination.key.id;
    CaseEqual(origin.key.id, to) || (between != [] && CaseEqual(between[|between| - 1], to))
  }

  /**
   No system is ordered twice.  The waypoints are the hubs and then, exactly for a body in
   another system, the destination system — unless that system's designation clashes by
   letter case alone, and only then.
   */
  lemma WaypointsReachBody(origin: Star, destination: Star, stars: seq<Star>, profile: Profile, metric: Metric,
                           plan: SmartTravelPlan, code: string)
    requires PlanBetween(origin, destination, stars, profile, metric, plan)
    requires origin in stars && OneRealm(stars) && Resolve(code, stars) == Some(destination)
    ensures Distinct(ExplicitWaypoints(plan, code)) && origin.key.id !in ExplicitWaypoints(plan, code)
    ensures ExplicitWaypoints(plan, code)
            == plan.intermediateSystems + (if EndsInside(origin, destination, code) then [destination.key.id] else [])
            <==> !(EndsInside(origin, destination, code) && CaseClash(origin, destination, plan))
  {
    ResolvesLongest(code, stars);
    PlanRuns(origin, destination, stars, profile, metric, plan);
    WaypointCases(plan, origin.key.id, destination.key.id, code);
  }

  lemma WaypointCases(plan: SmartTravelPlan, from: string, to: string, code: string)
    requires Runs(plan, from, to) && Names(to, code)
    ensures var between := plan.intermediateSystems;
            var clash := CaseEqual(from, to) || (between != [] && CaseEqual(between[|between| - 1], to));
            && ExplicitWaypoints(plan, code) == between + (if from != to && code != to && !clash then [to] else [])
    ensures Distinct(ExplicitWaypoints(plan, code)) && from !in ExplicitWaypoints(plan, code)
  {
    assert code == to[..] ==> CaseEqual(code, to);
    if |code| == |to| {
      assert code == to;
    }
  }

  /** Designations that differ by more than letter case never clash. */
  lemma CaseDistinctCatalogue(origin: Star, destination: Star, stars: seq<Star>, profile: Profile, metric: Metric,
                              plan: SmartTravelPlan, code: string)
    requires PlanBetween(origin, destination, stars, profile, metric, plan)
    requires origin in stars && OneRealm(stars) && Resolve(code, stars) == Some(destination)
    requires CaseDistinct(stars)
    ensures ExplicitWaypoints(plan, code)
            == plan.intermediateSystems + (if EndsInside(origin, destination, code) then [destination.key.id] else [])
  {
    ResolvesLongest(code, stars);
    LastStopDiffers(origin, destination, stars, profile, metric, plan);
    WaypointsReachBody(origin, destination, stars, profile, metric, plan, code);
  }

  lemma LastStopDiffers(origin: Star, destination: Star, stars: seq<Star>, profile: Profile, metric: Metric,
                        plan: SmartTravelPlan)
    requires PlanBetween(origin, destination, stars, profile, metric, plan)
    requires origin in stars && destination in stars && OneRealm(stars) && CaseDistinct(stars)
    ensures origin.key.id != destination.key.id ==> !CaseClash(origin, destination, plan)
  {
    PlanRuns(origin, destination, stars, profile, metric, plan);
    var last := origin;
    if plan.intermediateSystems != [] {
      last := HubListed(origin, destination, stars, profile, metric, plan, |plan.systems| - 2);
    }
    NoClash(plan, stars, origin, destination, last);
  }

  /** No two designations differ by letter case alone. */
  ghost predicate CaseDistinct(stars: seq<Star>) {
    forall s, t :: s in stars && t in stars && CaseEqual(s.key.id, t.key.id) ==> s.key.id == t.key.id
  }

  lemma NoClash(plan: SmartTravelPlan, stars: seq<Star>, origin: Star, destination: Star, last: Star)
    requires Runs(plan, origin.key.id, destination.key.id) && CaseDistinct(stars)
    requires origin in stars && destination in stars && last in stars
    requires plan.intermediateSystems != [] ==> |plan.systems| >= 2 && last.key.id == plan.systems[|plan.systems| - 2]
    ensures origin.key.id != destination.key.id ==> !CaseClash(origin, destination, plan)
  {
  }

  /** Every node of the planner's net is a star of the catalogue. */
  lemma NodeListed(origin: Star, destination: Star, stars: seq<Star>, profile: Profile, metric: Metric, n: nat)
    returns (star: Star)
    requires origin.position.Some? && destination.position.Some? && origin in stars && destination in stars
    requires n < PlannerNet(origin, destination, stars, profile, metric).Size()
    ensures star in stars && star.key == PlannerNet(origin, destination, stars, profile, metric).keys[n]
  {
    var hubs := Hubs(origin.key, destination.key, stars);
    HubsCorrect(origin.key, destination.key, stars);
    star := if n == 0 then origin else if n == |hubs| + 1 then destination else hubs[n - 1];
    assert 1 <= n <= |hubs| ==> star in hubs;
  }

  /** Every stop of a plan is a star of the catalogue. */
  lemma HubListed(origin: Star, destination: Star, stars: seq<Star>, profile: Profile, metric: Metric,
                  plan: SmartTravelPlan, i: nat) returns (hub: Star)
    requires PlanBetween(origin, destination, stars, profile, metric, plan)
    requires origin in stars && destination in stars && i < |plan.systems|
    ensures hub in stars && hub.key.id == plan.systems[i]
  {
    if origin.key == destination.key {
      hub := origin;
    } else {
      var p := PlanSound(PlannerNet(origin, destination, stars, profile, metric), plan);
      hub := NodeListed(origin, destination, stars, profile, metric, p[i]);
    }
  }

  lemma ClashDropsSystem(plan: SmartTravelPlan, from: string, to: string, code: string)
    requires Runs(plan, from, to) && from != to && CaseEqual(from, to)
    ensures ExplicitWaypoints(plan, code) == plan.intermediateSystems && to !in plan.intermediateSystems
  {
  }

  lemma OnlyDirect(net: Net)
    requires net.Valid() && net.Size() == 2 && net.leg(0, 1).Some?
    ensures IsBest(net, RouteOf(net, [0, 1]))
  {
    forall p | Itinerary(net, p) ensures p == [0, 1] {
      assert |p| > 1 ==> p[1] == 1;
    }
    assert Itinerary(net, [0, 1]);
    OrdersAgree(net, RouteOf(net, [0, 1]), RouteOf(net, [0, 1]));
    QueueTotal(RouteOf(net, [0, 1]), RouteOf(net, [0, 1]));
  }

  lemma DirectSelects(net: Net) returns (plan: SmartTravelPlan)
    requires net.Valid() && net.Size() == 2 && net.leg(0, 1).Some?
    ensures PlanOf(net, plan) && plan.directSeconds == net.LegSeconds(0, 1)
    ensures plan.systems == [net.keys[0].id, net.keys[1].id] && plan.intermediateSystems == []
  {
    OnlyDirect(net);
    DirectTotals(net);
    var best := RouteOf(net, [0, 1]);
    assert KeyPath(net, [0, 1]) == [net.keys[0], net.keys[1]];
    plan := MakePlan(KeyPath(net, [0, 1]), best.distance, best.seconds, best.seconds);
    assert Selects(net, best, plan);
  }

  lemma NoHubs(origin: Star, destination: Star)
    ensures Hubs(origin.key, destination.key, [origin, destination]) == []
  {
    var stars := [origin, destination];
    assert stars[..1] == [origin] && stars[..1][..0] == [];
    assert Hubs(origin.key, destination.key, stars[..1]) == [];
  }

  /** In a catalogue of two stars the plan between them is the direct one. */
  lemma DirectPlan(origin: Star, destination: Star, profile: Profile, metric: Metric) returns (plan: SmartTravelPlan)
    requires origin.key != destination.key && DirectTimed(origin, destination, profile, metric)
    ensures PlanBetween(origin, destination, [origin, destination], profile, metric, plan)
    ensures plan.systems == [origin.key.id, destination.key.id] && plan.intermediateSystems == []
  {
    var stars := [origin, destination];
    NoHubs(origin, destination);
    NetWritten(origin, destination, stars, profile, metric, 0, 1);
    NetWritten(origin, destination, stars, profile, metric, 1, 0);
    plan := DirectSelects(PlannerNet(origin, destination, stars, profile, metric));
  }

  /** A star about which only its place and its hub are known. */
  function Listed(id: string, x: real, hub: bool): Star {
    Star(WorldKey(Live, id), None, None, None, Some(Position(x, 0.0, 0.0)), Some(hub), None, false, None, None, None)
  }

  /** Distance along one axis. */
  function Axis(a: Position, b: Position): Option<real> { Some(if a.x <= b.x then b.x - a.x else a.x - b.x) }

  /**
   Two stars one light year apart have a direct plan; a third star, a hub so far away that the
   leg to it cannot be timed, takes every plan away.
   */
  lemma FarHubRemovesPlan(profile: Profile) returns (plan: SmartTravelPlan)
    ensures var a, b, far := Listed("A", 0.0, false), Listed("B", 1.0, false), Listed("FAR", U64_RANGE as real, true);
            && DirectTimed(a, b, profile, Axis)
            && PlanBetween(a, b, [a, b], profile, Axis, plan)
            && forall p :: !PlanBetween(a, b, [a, b] + [far], profile, Axis, p)
  {
    var a, b, far := Listed("A", 0.0, false), Listed("B", 1.0, false), Listed("FAR", U64_RANGE as real, true);
    assert "A" != "B" && "A" != "FAR" && "B" != "FAR" by { assert "A"[0] != "B"[0] && |"FAR"| == 3; }
    NearAndFar(profile);
    plan := DirectPlan(a, b, profile, Axis);
    HubRemovesPlan(a, b, [a, b], far, profile, Axis);
  }

  lemma NearAndFar(profile: Profile)
    ensures SurgeSeconds(1.0, profile, false).Some? && SurgeSeconds(U64_RANGE as real, profile, true).None?
  {
    var near, far := Scaled(1.0, profile), Scaled(U64_RANGE as real, profile);
    assert 0.0 <= near <= 50.0 && near.Floor <= 50;
    assert far >= (U64_RANGE + 1) as real && far.Floor >= U64_RANGE + 1;
  }

  lemma ClashBetween(origin: Star, destination: Star, code: string, profile: Profile, metric: Metric)
    returns (plan: SmartTravelPlan)
    requires origin.key.id != destination.key.id && CaseEqual(origin.key.id, destination.key.id)
    requires !Names(origin.key.id, code) && Names(destination.key.id, code)
    requires DirectTimed(origin, destination, profile, metric)
    ensures PlanBetween(origin, destination, [origin, destination], profile, metric, plan)
    ensures Resolve(code, [origin, destination]) == Some(destination)
    ensures ExplicitWaypoints(plan, code) == []
  {
    plan := DirectPlan(origin, destination, profile, metric);
    ClashDropsSystem(plan, origin.key.id, destination.key.id, code);
    ResolvesSecond(code, origin, destination);
  }

  /** Two systems whose designations differ by letter case: the order for a body loses its system. */
  lemma ClashLosesSystem(origin: Star, destination: Star, profile: Profile, metric: Metric)
    returns (plan: SmartTravelPlan)
    requires origin.key == WorldKey(Live, "a") && destination.key == WorldKey(Live, "A")
    requires DirectTimed(origin, destination, profile, metric)
    ensures PlanBetween(origin, destination, [origin, destination], profile, metric, plan)
    ensures Resolve("A-1", [origin, destination]) == Some(destination)
    ensures ExplicitWaypoints(plan, "A-1") == []
  {
    assert "a"[0] != "A-1"[0] && "A" == "A-1"[..1];
    plan := ClashBetween(origin, destination, "A-1", profile, metric);
  }

  lemma ResolvesSecond(code: string, a: Star, b: Star)
    requires !Names(a.key.id, code) && Names(b.key.id, code)
    ensures Resolve(code, [a, b]) == Some(b)
  {
    assert ResolveAmong(code, [a, b], 1) == None;
  }
}
