/**
 Scan reports reach the client as direct events, one report each, or collated in a survey
 digest.  Both go through one projection.
 */
module ScanProjection {
  import opened Orderings
  import opened Domain
  import opened Json
  import opened LocationMerge
  import opened Selections

  type Entry = map<string, Value>

  datatype ScanEvent = ScanEvent(name: string, realm: Option<Realm>, payload: Entry)

  /** The adapter that turns a checked report into a location, when its shape allows. */
  type Adapter = (string, string, Entry, Realm) -> Option<Location>

  function TextAt(e: Entry, name: string): Option<string> {
    if name in e && e[name].Text? then Some(e[name].s) else None
  }

  function ObjectAt(e: Entry, name: string): Option<Entry> {
    if name in e && e[name].Object? then Some(e[name].members) else None
  }

  /** Planets and moons only, and the body in the report must be the scanned one. */
  function ReportLocation(adapt: Adapter, target: string, kind: string, report: Entry, realm: Realm): Option<Location> {
    if kind != "planet" && kind != "moon" then None
    else match ObjectAt(report, kind)
         case None => None
         case Some(body) =>
           if TextAt(body, "designation") == Some(target) then adapt(target, kind, report, realm) else None
  }

  function EntryLocation(adapt: Adapter, e: Entry, realm: Realm): Option<Location> {
    match (TextAt(e, "scan_target"), TextAt(e, "scan_type"), ObjectAt(e, "report"))
    case (Some(target), Some(kind), Some(report)) => ReportLocation(adapt, target, kind, report, realm)
    case _ => None
  }

  /** The objects of a list, in order; anything else in it is passed over. */
  function Objects(items: seq<Value>): seq<Entry> {
    if items == [] then []
    else Objects(items[..|items| - 1]) + match items[|items| - 1] case Object(m) => [m] case _ => []
  }

  function Entries(event: ScanEvent): seq<Entry> {
    if event.name == "scan.completed" then [event.payload]
    else if event.name == "ami.survey.digest" then
      match ObjectAt(event.payload, "report")
      case Some(report) => if "scans" in report && report["scans"].Array? then Objects(report["scans"].items) else []
      case None => []
    else []
  }

  /** What one entry adds to the projected locations. */
  function LocationOf(adapt: Adapter, e: Entry, realm: Realm): seq<Location> {
    match EntryLocation(adapt, e, realm) case Some(l) => [l] case None => []
  }

  /** What it adds to the fallback targets: its target, when it names one but does not project. */
  function FallbackOf(adapt: Adapter, e: Entry, realm: Realm): set<string> {
    match (EntryLocation(adapt, e, realm), TextAt(e, "scan_target")) case (None, Some(target)) => {target} case _ => {}
  }

  /** The locations of the first `n` entries, in order. */
  ghost function LocationsOf(adapt: Adapter, es: seq<Entry>, realm: Realm, n: nat): seq<Location>
    requires n <= |es|
  {
    if n == 0 then [] else LocationsOf(adapt, es, realm, n - 1) + LocationOf(adapt, es[n - 1], realm)
  }

  ghost function FallbacksOf(adapt: Adapter, es: seq<Entry>, realm: Realm, n: nat): set<string>
    requires n <= |es|
  {
    if n == 0 then {} else FallbacksOf(adapt, es, realm, n - 1) + FallbackOf(adapt, es[n - 1], realm)
  }

  method Project(adapt: Adapter, event: ScanEvent) returns (locations: seq<Location>, fallbacks: set<string>)
    ensures event.realm.None? ==> locations == [] && fallbacks == {}
    ensures event.realm.Some? ==>
              var es := Entries(event);
              && locations == LocationsOf(adapt, es, event.realm.value, |es|)
              && fallbacks == FallbacksOf(adapt, es, event.realm.value, |es|)
  {
    locations, fallbacks := [], {};
    if event.realm.None? {
      return;
    }
    var realm, es := event.realm.value, Entries(event);
    for i := 0 to |es|
      invariant locations == LocationsOf(adapt, es, realm, i) && fallbacks == FallbacksOf(adapt, es, realm, i)
    {
      var target := TextAt(es[i], "scan_target");
      var result := EntryLocation(adapt, es[i], realm);
      match result
      case Some(location) => locations := locations + [location];
      case None =>
        if target.Some? {
          fallbacks := fallbacks + {target.value};
        }
    }
  }

  // ----- what is projected, written out --------------------------------------------

  ghost function AsObject(v: Value): Option<Entry> { if v.Object? then Some(v.members) else None }

  /** The objects of a list are its object items, in order and without omission. */
  lemma {:induction false} ObjectsWritten(items: seq<Value>) returns (at: seq<nat>)
    ensures Picks(items, AsObject, Objects(items), at)
  {
    if items == [] {
      at := [];
    } else {
      var rest, last := items[..|items| - 1], items[|items| - 1];
      var before := ObjectsWritten(rest);
      at := PicksNext(rest, AsObject, Objects(rest), before, last);
      assert rest + [last] == items;
    }
  }

  /** The report of an entry describes the body the entry names, and it is a planet or a moon. */
  ghost predicate Reports(e: Entry, target: string, kind: string, report: Entry) {
    && "scan_target" in e && e["scan_target"] == Value.Text(target)
    && "scan_type" in e && e["scan_type"] == Value.Text(kind) && (kind == "planet" || kind == "moon")
    && "report" in e && e["report"] == Object(report)
    && kind in report && report[kind].Object?
    && "designation" in report[kind].members && report[kind].members["designation"] == Value.Text(target)
  }

  /**
   An entry projects exactly when it reports a body and the adapter takes it; it then gives the
   adapter's location.
   */
  lemma EntryWritten(adapt: Adapter, e: Entry, realm: Realm, l: Location)
    ensures EntryLocation(adapt, e, realm) == Some(l)
            <==> exists target: string, kind: string, report: Entry ::
                   Reports(e, target, kind, report) && adapt(target, kind, report, realm) == Some(l)
  {
    if EntryLocation(adapt, e, realm) == Some(l) {
      var target, kind, report := e["scan_target"].s, e["scan_type"].s, e["report"].members;
      assert Reports(e, target, kind, report) && adapt(target, kind, report, realm) == Some(l);
    }
    if target: string, kind: string, report: Entry :|
      Reports(e, target, kind, report) && adapt(target, kind, report, realm) == Some(l)
    {
      assert ObjectAt(report, kind) == Some(report[kind].members);
    }
  }

  /** The projected locations are those of the entries that project, in order and without omission. */
  lemma {:induction false} LocationsWritten(adapt: Adapter, es: seq<Entry>, realm: Realm, n: nat) returns (at: seq<nat>)
    requires n <= |es|
    ensures Picks(es[..n], (e: Entry) => EntryLocation(adapt, e, realm), LocationsOf(adapt, es, realm, n), at)
  {
    if n == 0 {
      at := [];
    } else {
      var f := (e: Entry) => EntryLocation(adapt, e, realm);
      var before := LocationsWritten(adapt, es, realm, n - 1);
      at := PicksNext(es[..n - 1], f, LocationsOf(adapt, es, realm, n - 1), before, es[n - 1]);
      assert es[..n - 1] + [es[n - 1]] == es[..n];
    }
  }

  /** The fallback targets are those of the entries that name one and do not project. */
  lemma {:induction false} FallbacksWritten(adapt: Adapter, es: seq<Entry>, realm: Realm, n: nat, target: string)
    requires n <= |es|
    ensures target in FallbacksOf(adapt, es, realm, n)
            <==> exists i :: 0 <= i < n && FallsBack(adapt, es[i], realm, target)
  {
    if n > 0 {
      FallbacksWritten(adapt, es, realm, n - 1, target);
      assert target in FallbackOf(adapt, es[n - 1], realm) <==> FallsBack(adapt, es[n - 1], realm, target);
    }
  }

  ghost predicate FallsBack(adapt: Adapter, e: Entry, realm: Realm, target: string) {
    EntryLocation(adapt, e, realm).None? && "scan_target" in e && e["scan_target"] == Value.Text(target)
  }

  /** The payload's report holds these scans. */
  ghost predicate ListsScans(payload: Entry, items: seq<Value>) {
    && "report" in payload && payload["report"].Object?
    && var report := payload["report"].members; "scans" in report && report["scans"] == Array(items)
  }

  /** One entry for a direct scan, the objects of a digest's scan list, nothing for any other event. */
  lemma EntriesWritten(event: ScanEvent)
    ensures event.name == "scan.completed" ==> Entries(event) == [event.payload]
    ensures event.name == "ami.survey.digest" ==>
              && (forall items :: ListsScans(event.payload, items) ==> Entries(event) == Objects(items))
              && ((forall items :: !ListsScans(event.payload, items)) ==> Entries(event) == [])
    ensures event.name != "scan.completed" && event.name != "ami.survey.digest" ==> Entries(event) == []
  {
    var payload := event.payload;
    if "report" in payload && payload["report"].Object? {
      var report := payload["report"].members;
      if "scans" in report && report["scans"].Array? {
        assert ListsScans(payload, report["scans"].items);
      }
    }
  }

  // ----- digest and direct events agree --------------------------------------------

  function Direct(e: Entry, realm: Option<Realm>): ScanEvent { ScanEvent("scan.completed", realm, e) }

  /** A digest whose scan list holds these items; the rest of its payload and report is arbitrary. */
  function Digest(items: seq<Value>, payload: Entry, report: Entry, realm: Option<Realm>): ScanEvent {
    ScanEvent("ami.survey.digest", realm, payload["report" := Object(report["scans" := Array(items)])])
  }

  /** The projection of an event. */
  ghost function LocationsFrom(adapt: Adapter, event: ScanEvent): seq<Location> {
    if event.realm.None? then [] else LocationsOf(adapt, Entries(event), event.realm.value, |Entries(event)|)
  }

  ghost function FallbacksFrom(adapt: Adapter, event: ScanEvent): set<string> {
    if event.realm.None? then {} else FallbacksOf(adapt, Entries(event), event.realm.value, |Entries(event)|)
  }

  /** The projections of the entries as direct events, event by event. */
  ghost function DirectBatches(adapt: Adapter, es: seq<Entry>, realm: Option<Realm>): (batches: seq<seq<Location>>)
    ensures |batches| == |es|
    ensures forall i :: 0 <= i < |es| ==> batches[i] == LocationsFrom(adapt, Direct(es[i], realm))
  {
    seq(|es|, i requires 0 <= i < |es| => LocationsFrom(adapt, Direct(es[i], realm)))
  }

  /** Batches one after the other. */
  ghost function Joined(batches: seq<seq<Location>>, n: nat): seq<Location>
    requires n <= |batches|
  {
    if n == 0 then [] else Joined(batches, n - 1) + batches[n - 1]
  }

  ghost function DirectFallbacks(adapt: Adapter, es: seq<Entry>, realm: Option<Realm>, n: nat): set<string>
    requires n <= |es|
  {
    if n == 0 then {} else DirectFallbacks(adapt, es, realm, n - 1) + FallbacksFrom(adapt, Direct(es[n - 1], realm))
  }

  lemma {:induction false} LocationsOneByOne(adapt: Adapter, es: seq<Entry>, realm: Realm,
                                             batches: seq<seq<Location>>, n: nat)
    requires n <= |es| == |batches| && forall i :: 0 <= i < |es| ==> batches[i] == LocationOf(adapt, es[i], realm)
    ensures LocationsOf(adapt, es, realm, n) == Joined(batches, n)
  {
    if n > 0 {
      LocationsOneByOne(adapt, es, realm, batches, n - 1);
    }
  }

  lemma {:induction false} FallbacksOneByOne(adapt: Adapter, es: seq<Entry>, realm: Realm, n: nat)
    requires n <= |es|
    ensures FallbacksOf(adapt, es, realm, n) == DirectFallbacks(adapt, es, Some(realm), n)
  {
    if n > 0 {
      FallbacksOneByOne(adapt, es, realm, n - 1);
      OneEntry(adapt, es[n - 1], realm);
    }
  }

  lemma OneEntry(adapt: Adapter, e: Entry, realm: Realm)
    ensures LocationsFrom(adapt, Direct(e, Some(realm))) == LocationOf(adapt, e, realm)
    ensures FallbacksFrom(adapt, Direct(e, Some(realm))) == FallbackOf(adapt, e, realm)
  {
    assert Entries(Direct(e, Some(realm))) == [e];
    assert LocationsOf(adapt, [e], realm, 0) == [] && FallbacksOf(adapt, [e], realm, 0) == {};
  }

  /** The held locations after a list of projected ones: each is merged into what its key holds. */
  ghost function Stored(held: map<WorldKey, Location>, ls: seq<Location>, n: nat): map<WorldKey, Location>
    requires n <= |ls|
  {
    if n == 0 then held
    else
      var before := Stored(held, ls, n - 1);
      var l := ls[n - 1];
      before[l.key := if l.key in before then Merged(before[l.key], l) else l]
  }

  /** Batches stored one after the other, as separate events are. */
  ghost function StoredEach(held: map<WorldKey, Location>, batches: seq<seq<Location>>, n: nat): map<WorldKey, Location>
    requires n <= |batches|
  {
    if n == 0 then held else Stored(StoredEach(held, batches, n - 1), batches[n - 1], |batches[n - 1]|)
  }

  lemma {:induction false} StoredPrefix(held: map<WorldKey, Location>, a: seq<Location>, b: seq<Location>, n: nat)
    requires n <= |a|
    ensures Stored(held, a + b, n) == Stored(held, a, n)
  {
    if n > 0 {
      StoredPrefix(held, a, b, n - 1);
    }
  }

  lemma {:induction false} StoredAppend(held: map<WorldKey, Location>, a: seq<Location>, b: seq<Location>, n: nat)
    requires n <= |b|
    ensures Stored(held, a + b, |a| + n) == Stored(Stored(held, a, |a|), b, n)
  {
    if n == 0 {
      StoredPrefix(held, a, b, |a|);
    } else {
      StoredAppend(held, a, b, n - 1);
    }
  }

  lemma {:induction false} StoredOneByOne(held: map<WorldKey, Location>, batches: seq<seq<Location>>, n: nat)
    requires n <= |batches|
    ensures Stored(held, Joined(batches, n), |Joined(batches, n)|) == StoredEach(held, batches, n)
  {
    if n > 0 {
      StoredOneByOne(held, batches, n - 1);
      StoredAppend(held, Joined(batches, n - 1), batches[n - 1], |batches[n - 1]|);
    }
  }

  /**
   For any list of scan items, objects or not, and any held locations: the digest projects
   to the same locations and the same fallback targets as its entries delivered as direct
   events, and leaves the same locations behind.
   */
  lemma DigestEqualsDirect(adapt: Adapter, items: seq<Value>, payload: Entry, report: Entry, realm: Option<Realm>,
                           held: map<WorldKey, Location>)
    ensures var digest := Digest(items, payload, report, realm); var es := Objects(items);
            var ls := LocationsFrom(adapt, digest); var batches := DirectBatches(adapt, es, realm);
            && ls == Joined(batches, |es|)
            && FallbacksFrom(adapt, digest) == DirectFallbacks(adapt, es, realm, |es|)
            && Stored(held, ls, |ls|) == StoredEach(held, batches, |es|)
  {
    var digest, es := Digest(items, payload, report, realm), Objects(items);
    assert Entries(digest) == es;
    if realm.Some? {
      forall i | 0 <= i < |es| ensures DirectBatches(adapt, es, realm)[i] == LocationOf(adapt, es[i], realm.value) {
        OneEntry(adapt, es[i], realm.value);
      }
      LocationsOneByOne(adapt, es, realm.value, DirectBatches(adapt, es, realm), |es|);
      FallbacksOneByOne(adapt, es, realm.value, |es|);
    } else {
      NothingWithoutRealm(adapt, es, |es|);
    }
    StoredOneByOne(held, DirectBatches(adapt, es, realm), |es|);
  }

  lemma {:induction false} NothingWithoutRealm(adapt: Adapter, es: seq<Entry>, n: nat)
    requires n <= |es|
    ensures Joined(DirectBatches(adapt, es, None), n) == [] && DirectFallbacks(adapt, es, None, n) == {}
  {
    if n > 0 {
      NothingWithoutRealm(adapt, es, n - 1);
    }
  }

  // ----- what is stored, key by key ------------------------------------------------

  ghost function WithKey(key: WorldKey): Location -> Option<Location> {
    (l: Location) => if l.key == key then Some(l) else None
  }

  /** The elements among the first `n` that `f` accepts. */
  ghost function Chosen<T>(xs: seq<T>, f: T -> Option<T>, n: nat): seq<T>
    requires n <= |xs|
  {
    if n == 0 then []
    else if f(xs[n - 1]).Some? then Chosen(xs, f, n - 1) + [f(xs[n - 1]).value]
    else Chosen(xs, f, n - 1)
  }

  lemma {:induction false} ChosenWritten<T(!new)>(xs: seq<T>, f: T -> Option<T>, n: nat) returns (at: seq<nat>)
    requires n <= |xs|
    ensures Picks(xs[..n], f, Chosen(xs, f, n), at)
  {
    if n == 0 {
      at := [];
    } else {
      var before := ChosenWritten(xs, f, n - 1);
      at := PicksNext(xs[..n - 1], f, Chosen(xs, f, n - 1), before, xs[n - 1]);
      assert xs[..n - 1] + [xs[n - 1]] == xs[..n];
      assert Chosen(xs, f, n - 1) + [] == Chosen(xs, f, n - 1);
    }
  }

  /** Each value of `h` is the one before it, combined with the next element when that is chosen. */
  ghost predicate Accumulates<T(!new)>(op: (T, T) -> T, f: T -> Option<T>, xs: seq<T>, h: seq<T>) {
    && |h| == |xs| + 1
    && forall i :: 0 < i <= |xs| ==> h[i] == if f(xs[i - 1]).Some? then op(h[i - 1], f(xs[i - 1]).value) else h[i - 1]
  }

  lemma {:induction false} AccumulatesChosen<T(!new)>(op: (T, T) -> T, f: T -> Option<T>, xs: seq<T>, h: seq<T>, n: nat)
    requires Accumulates(op, f, xs, h) && n <= |xs|
    ensures h[n] == Combine(op, h[0], Chosen(xs, f, n), |Chosen(xs, f, n)|)
  {
    if n > 0 {
      AccumulatesChosen(op, f, xs, h, n - 1);
      if f(xs[n - 1]).Some? {
        CombineOneMore(op, h[0], Chosen(xs, f, n - 1), f(xs[n - 1]).value);
      }
    }
  }

  /** What a key held, or nothing known. */
  ghost function HeldAt(held: map<WorldKey, Location>, key: WorldKey): Location {
    if key in held then held[key] else Blank(key)
  }

  lemma StoredStep(held: map<WorldKey, Location>, ls: seq<Location>, n: nat, key: WorldKey)
    requires 0 < n <= |ls|
    ensures var before, after, l := Stored(held, ls, n - 1), Stored(held, ls, n), ls[n - 1];
            HeldAt(after, key) == if l.key == key then Merged(HeldAt(before, key), l) else HeldAt(before, key)
  {
    NeutralAndIdempotent(ls[n - 1], key);
  }

  lemma {:induction false} StoredKeys(held: map<WorldKey, Location>, ls: seq<Location>, n: nat, key: WorldKey)
    requires n <= |ls|
    ensures key in Stored(held, ls, n) <==> key in held || Chosen(ls, WithKey(key), n) != []
  {
    if n > 0 {
      StoredKeys(held, ls, n - 1, key);
    }
  }

  /** What a key holds after each stored location. */
  ghost function HeldRun(held: map<WorldKey, Location>, ls: seq<Location>, key: WorldKey): (h: seq<Location>)
    ensures |h| == |ls| + 1 && forall i :: 0 <= i <= |ls| ==> h[i] == HeldAt(Stored(held, ls, i), key)
  {
    seq(|ls| + 1, i requires 0 <= i <= |ls| => HeldAt(Stored(held, ls, i), key))
  }

  lemma RunStep(held: map<WorldKey, Location>, ls: seq<Location>, key: WorldKey,
                op: (Location, Location) -> Location, i: nat)
    requires op == Merged && 0 < i <= |ls|
    ensures var h, l := HeldRun(held, ls, key), ls[i - 1];
            h[i] == if WithKey(key)(l).Some? then op(h[i - 1], WithKey(key)(l).value) else h[i - 1]
  {
    StoredStep(held, ls, i, key);
  }

  lemma RunAccumulates(held: map<WorldKey, Location>, ls: seq<Location>, key: WorldKey,
                       op: (Location, Location) -> Location)
    requires op == Merged
    ensures Accumulates(op, WithKey(key), ls, HeldRun(held, ls, key))
  {
    forall i | 0 < i <= |ls|
      ensures var h, l := HeldRun(held, ls, key), ls[i - 1];
              h[i] == if WithKey(key)(l).Some? then op(h[i - 1], WithKey(key)(l).value) else h[i - 1]
    {
      RunStep(held, ls, key, op, i);
    }
  }

  /**
   Every key ends with what it held, or nothing known, merged with all projected locations of
   that key in order.
   */
  lemma StoredWritten(held: map<WorldKey, Location>, ls: seq<Location>, key: WorldKey)
    ensures HeldAt(Stored(held, ls, |ls|), key) == MergeAll(HeldAt(held, key), Chosen(ls, WithKey(key), |ls|))
  {
    RunAccumulates(held, ls, key, Merged);
    AccumulatesChosen(Merged, WithKey(key), ls, HeldRun(held, ls, key), |ls|);
  }
}
