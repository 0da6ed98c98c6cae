/**
 Routes over the travel net and their two orders.

 Node 0 is the origin, the last node the destination, and the nodes between them the
 eligible hubs in ascending key order.  A leg is known when its distance is finite and
 its duration representable; its duration and length are otherwise arbitrary.
 */
module TravelRoutes {
  import opened Orderings
  import opened Domain

  const MAX_INTERMEDIATE_HUBS: nat := 8
  const U64_MAX: nat := 0xFFFF_FFFF_FFFF_FFFF

  type StarKey = WorldKey

  /** Characters as code points. */
  function Codes(s: string): seq<int> {
    seq(|s|, i requires 0 <= i < |s| => s[i] as int)
  }

  /** The live realm sorts before every simulation, simulations by number, then designations. */
  function KeyCode(key: StarKey): seq<int> {
    (match key.realm case Live => [0] case Simulation(n) => [1, n]) + Codes(key.id)
  }

  function KeyCompare(a: StarKey, b: StarKey): Ordering {
    Lex(KeyCode(a), KeyCode(b))
  }

  function KeyPathCompare(a: seq<StarKey>, b: seq<StarKey>): Ordering {
    if a == [] then (if b == [] then Equal else Less)
    else if b == [] then Greater
    else KeyCompare(a[0], b[0]).Then(KeyPathCompare(a[1..], b[1..]))
  }

  /** The live realm before every simulation, and simulations by number. */
  predicate RealmBefore(a: Realm, b: Realm) {
    match (a, b)
    case (Live, Simulation(_)) => true
    case (Simulation(m), Simulation(n)) => m < n
    case _ => false
  }

  /** Texts by their first different character; a proper prefix comes first. */
  ghost predicate TextBefore(a: string, b: string) {
    exists k: nat :: k <= |a| && k < |b| && a[..k] == b[..k] && (k == |a| || a[k] < b[k])
  }

  /** Keys compare by realm, then by designation. */
  lemma KeyOrderWritten(a: StarKey, b: StarKey)
    ensures KeyCompare(a, b) == Less
            <==> RealmBefore(a.realm, b.realm) || (a.realm == b.realm && TextBefore(a.id, b.id))
  {
    CodesWritten(a.id, b.id);
    var x, y := Codes(a.id), Codes(b.id);
    match (a.realm, b.realm)
    case (Live, Live) =>
      assert KeyCode(a)[1..] == x && KeyCode(b)[1..] == y;
    case (Simulation(m), Simulation(n)) =>
      assert KeyCode(a)[1..] == [m] + x && KeyCode(b)[1..] == [n] + y;
      assert ([m] + x)[1..] == x && ([n] + y)[1..] == y;
      assert Lex([m] + x, [n] + y) == Compare(m, n).Then(Lex(x, y));
    case _ =>
  }

  lemma CodesWritten(a: string, b: string)
    ensures Lex(Codes(a), Codes(b)) == Less <==> TextBefore(a, b)
  {
    LexWritten(Codes(a), Codes(b));
    if k: nat :| FirstDiffers(Codes(a), Codes(b), k) {
      forall i | 0 <= i < k ensures a[i] == b[i] {
        assert Codes(a)[..k][i] == Codes(b)[..k][i];
      }
      assert a[..k] == b[..k];
    }
    if k: nat :| k <= |a| && k < |b| && a[..k] == b[..k] && (k == |a| || a[k] < b[k]) {
      forall i | 0 <= i < k ensures Codes(a)[i] == Codes(b)[i] {
        assert a[..k][i] == b[..k][i];
      }
      assert Codes(a)[..k] == Codes(b)[..k];
      assert FirstDiffers(Codes(a), Codes(b), k);
    }
  }

  datatype Leg = Leg(seconds: nat, distance: real)

  datatype Net = Net(keys: seq<StarKey>, leg: (nat, nat) -> Option<Leg>)
  {
    function Size(): nat { |keys| }

    function Dest(): int { |keys| - 1 }

    ghost predicate Valid() {
      && |keys| >= 2
      && (forall i, j :: 1 <= i < j < |keys| - 1 ==> KeyCompare(keys[i], keys[j]) == Less)
      && (forall a, b :: leg(a, b).Some? ==> leg(a, b).value.distance >= 0.0)
    }

    function LegSeconds(a: nat, b: nat): nat {
      if leg(a, b).Some? then leg(a, b).value.seconds else 0
    }

    function LegDistance(a: nat, b: nat): real {
      if leg(a, b).Some? then leg(a, b).value.distance else 0.0
    }
  }

  /** `hubs` counts the stops other than the origin and the destination. */
  datatype Route = Route(node: nat, hubs: nat, seconds: nat, distance: real, path: seq<nat>)
  {
    function State(): (nat, nat) { (node, hubs) }
  }

  // ----- the two orders ------------------------------------------------------------

  predicate InNet(net: Net, path: seq<nat>) {
    forall i :: 0 <= i < |path| ==> path[i] < net.Size()
  }

  function KeyPath(net: Net, path: seq<nat>): (keys: seq<StarKey>)
    requires InNet(net, path)
    ensures |keys| == |path|
  {
    seq(|path|, i requires 0 <= i < |path| => net.keys[path[i]])
  }

  /** The order in which routes are preferred: paths compare by key. */
  function QualityCompare(net: Net, a: Route, b: Route): Ordering
    requires InNet(net, a.path)
    requires InNet(net, b.path)
  {
    Compare(a.seconds, b.seconds)
    .Then(Compare(a.hubs, b.hubs))
    .Then(CompareReal(a.distance, b.distance))
    .Then(KeyPathCompare(KeyPath(net, a.path), KeyPath(net, b.path)))
  }

  /** The order in which the queue yields routes: paths compare by node index. */
  function QueueCompare(a: Route, b: Route): Ordering {
    Compare(a.seconds, b.seconds)
    .Then(Compare(a.hubs, b.hubs))
    .Then(CompareReal(a.distance, b.distance))
    .Then(Lex(a.path, b.path))
  }

  predicate Below(a: Route, b: Route) { QueueCompare(a, b) == Less }

  lemma QueueTotal(a: Route, b: Route)
    ensures Below(a, b) ==> !Below(b, a)
    ensures !Below(a, b) && !Below(b, a) ==>
              a.seconds == b.seconds && a.hubs == b.hubs && a.distance == b.distance && a.path == b.path
  {
    LexReverses(a.path, b.path);
    LexEqual(a.path, b.path);
  }

  lemma QueueTransitive(a: Route, b: Route, c: Route)
    requires !Below(b, a) && !Below(c, b)
    ensures !Below(c, a)
    ensures Below(a, b) || Below(b, c) ==> Below(a, c)
  {
    LexReverses(a.path, b.path);
    LexReverses(b.path, c.path);
    LexReverses(a.path, c.path);
    if Lex(a.path, b.path) != Greater && Lex(b.path, c.path) != Greater {
      LexTransitive(a.path, b.path, c.path);
    }
  }

  // ----- paths ---------------------------------------------------------------------

  function Last<T>(s: seq<T>): T
    requires s != []
  {
    s[|s| - 1]
  }

  function Seconds(net: Net, p: seq<nat>): nat {
    if |p| < 2 then 0
    else Seconds(net, p[..|p| - 1]) + net.LegSeconds(p[|p| - 2], p[|p| - 1])
  }

  function Distance(net: Net, p: seq<nat>): real {
    if |p| < 2 then 0.0
    else Distance(net, p[..|p| - 1]) + net.LegDistance(p[|p| - 2], p[|p| - 1])
  }

  /** No node twice. */
  ghost predicate Simple(p: seq<nat>) {
    forall i, j :: 0 <= i < j < |p| ==> p[i] != p[j]
  }

  /** Starts at the origin, repeats nothing, and passes only through hubs. */
  ghost predicate Track(net: Net, p: seq<nat>) {
    && p != [] && p[0] == 0
    && Simple(p)
    && InNet(net, p)
    && (forall i :: 0 <= i < |p| - 1 ==> p[i] != net.Dest())
  }

  ghost predicate KnownLegs(net: Net, p: seq<nat>) {
    forall i :: 0 <= i < |p| - 1 ==> net.leg(p[i], p[i + 1]).Some?
  }

  function HubCount(net: Net, p: seq<nat>): int
    requires p != []
  {
    if Last(p) == net.Dest() then |p| - 2 else |p| - 1
  }

  /** Every route the planner may choose from: origin to destination, at most eight hubs. */
  ghost predicate Itinerary(net: Net, p: seq<nat>) {
    Track(net, p) && Last(p) == net.Dest() && HubCount(net, p) <= MAX_INTERMEDIATE_HUBS
  }

  ghost predicate ValidRoute(net: Net, r: Route) {
    && Track(net, r.path) && KnownLegs(net, r.path)
    && r.node == Last(r.path)
    && r.hubs == HubCount(net, r.path) <= MAX_INTERMEDIATE_HUBS
    && r.seconds == Seconds(net, r.path)
    && r.distance == Distance(net, r.path)
  }

  /** The route along `p`. */
  function RouteOf(net: Net, p: seq<nat>): Route
    requires p != [] && HubCount(net, p) >= 0
  {
    Route(Last(p), HubCount(net, p), Seconds(net, p), Distance(net, p), p)
  }

  /** Both totals split at any node of the path. */
  lemma {:induction false} Split(net: Net, p: seq<nat>, k: nat)
    requires k < |p|
    ensures Seconds(net, p) == Seconds(net, p[..k + 1]) + Seconds(net, p[k..])
    ensures Distance(net, p) == Distance(net, p[..k + 1]) + Distance(net, p[k..])
  {
    if k == |p| - 1 {
      assert p[..k + 1] == p;
    } else {
      var q := p[..|p| - 1];
      Split(net, q, k);
      assert q[..k + 1] == p[..k + 1] && q[k..] == p[k..][..|p| - k - 1];
    }
  }

  // ----- index order and key order agree between routes to one node -----------------

  lemma {:induction false} PathOrdersAgree(net: Net, a: seq<nat>, b: seq<nat>)
    requires net.Valid()
    requires |a| == |b|
    requires InNet(net, a)
    requires InNet(net, b)
    requires forall i :: 0 <= i < |a| ==>
                           a[i] == b[i] || (1 <= a[i] < net.Dest() && 1 <= b[i] < net.Dest())
    ensures KeyPathCompare(KeyPath(net, a), KeyPath(net, b)) == Lex(a, b)
  {
    if a != [] {
      assert KeyPath(net, a)[1..] == KeyPath(net, a[1..]);
      assert KeyPath(net, b)[1..] == KeyPath(net, b[1..]);
      PathOrdersAgree(net, a[1..], b[1..]);
      LexEqual(KeyCode(net.keys[a[0]]), KeyCode(net.keys[b[0]]));
      LexReverses(KeyCode(net.keys[a[0]]), KeyCode(net.keys[b[0]]));
    }
  }

  lemma OrdersAgree(net: Net, a: Route, b: Route)
    requires net.Valid() && ValidRoute(net, a) && ValidRoute(net, b) && a.node == b.node
    ensures QualityCompare(net, a, b) == QueueCompare(a, b)
  {
    if a.hubs == b.hubs {
      assert forall i :: 0 < i < |a.path| - 1 ==> a.path[i] != a.path[0] && b.path[i] != b.path[0];
      PathOrdersAgree(net, a.path, b.path);
    }
  }
}
