/** Devices and replicants: what partial and public observations may not erase. */
module EntityMerge {
  import opened Orderings
  import opened Domain
  import opened Observations
  import opened StarMerge

  // ----- replicants ----------------------------------------------------------------

  datatype Replicant = Replicant(
    key: WorldKey, name: Option<string>, isNpc: Option<bool>, status: Option<string>,
    location: Option<WorldKey>, hostedDevice: Option<WorldKey>,
    travel: Option<string>, private: Option<string>, access: Access)

  function ReplicantRule(existing: Observation<Replicant>, incoming: Observation<Replicant>): Replicant {
    var e, i := existing.value, incoming.value;
    if incoming.metadata.access == Public then i.(travel := e.travel, private := e.private, access := e.access) else i
  }

  /** The last accepted observation that was not public, or the first one. */
  ghost function LastPrivate<T>(obs: seq<Observation<T>>, n: nat): (k: nat)
    requires 1 <= n <= |obs|
    ensures k < n
  {
    if n == 1 || (Accepted(obs, n - 1) && obs[n - 1].metadata.access != Public) then n - 1
    else LastPrivate(obs, n - 1)
  }

  /**
   Over any run, a replicant's travel, private data and access are those of the last
   accepted non-public observation: no number of public ones erases them.
   */
  lemma {:induction false} PublicNeverErasesReplicant(obs: seq<Observation<Replicant>>, n: nat)
    requires 1 <= n <= |obs|
    ensures var r := Fold(ReplicantRule, obs, n).value; var p := obs[LastPrivate(obs, n)].value;
            r.travel == p.travel && r.private == p.private && r.access == p.access
  {
    if n > 1 {
      PublicNeverErasesReplicant(obs, n - 1);
      FoldStep(ReplicantRule, obs, n - 1);
    }
  }

  /** Everything else about a replicant is what the last accepted observation says. */
  lemma {:induction false} ReplicantIsLatest(obs: seq<Observation<Replicant>>, n: nat)
    requires 1 <= n <= |obs|
    ensures var r := Fold(ReplicantRule, obs, n).value; var l := obs[LastAccepted(obs, n)].value;
            r == l.(travel := r.travel, private := r.private, access := r.access)
  {
    if n > 1 {
      ReplicantIsLatest(obs, n - 1);
      FoldStep(ReplicantRule, obs, n - 1);
    }
  }

  // ----- devices -------------------------------------------------------------------

  /** Activity and device-specific status; payloads stay open-shaped. */
  datatype Runtime = Runtime(
    createdAt: Option<string>, shortDescription: Option<string>, description: Option<string>,
    printing: Option<string>, mining: Option<string>, prospect: Option<string>, repair: Option<string>,
    scan: Option<string>, waitingFor: Option<string>, printQueue: seq<string>, queueSize: Option<int>,
    taxiMode: Option<string>, trackingSiteId: Option<int>, beaconOnly: Option<bool>,
    welcomeMessage: Option<string>, repairPaidPct: Option<string>)

  /** What only the account sees of a device. */
  datatype AccountPart = AccountPart(
    assignedReplicant: Option<WorldKey>, hostingReplicant: Option<WorldKey>, linkedDevice: Option<WorldKey>,
    stowedIn: Option<WorldKey>, attachedDevices: seq<WorldKey>, controlledDevices: seq<WorldKey>,
    stowedDevices: seq<WorldKey>, attachCapacity: Option<int>, stowCapacity: Option<int>, stowUsed: Option<int>,
    operationalCapacity: Option<real>, gracePeriodRemaining: Option<int>, upkeepRequirements: seq<string>,
    systemStatus: Option<string>, activeDirective: Option<string>, travel: Option<string>)

  /** What every observation states afresh. */
  datatype OpenPart = OpenPart(
    deviceType: Option<string>, status: Option<string>, location: Option<WorldKey>, features: seq<string>,
    availableCommands: seq<string>, availableDirectives: seq<string>, tags: seq<string>, settings: map<string, string>,
    attachedTo: Option<WorldKey>, controller: Option<WorldKey>, cargo: map<string, int>, cargoCapacity: Option<int>)

  datatype Device = Device(
    key: WorldKey, open: OpenPart, deployedAt: Option<string>, inControlRange: Option<bool>,
    account: AccountPart, runtime: Runtime, access: Access)

  function PreserveMissing(r: Runtime, e: Runtime): Runtime {
    Runtime(Preserve(r.createdAt, e.createdAt), Preserve(r.shortDescription, e.shortDescription),
            Preserve(r.description, e.description), Preserve(r.printing, e.printing), Preserve(r.mining, e.mining),
            Preserve(r.prospect, e.prospect), Preserve(r.repair, e.repair), Preserve(r.scan, e.scan),
            Preserve(r.waitingFor, e.waitingFor), if r.printQueue == [] then e.printQueue else r.printQueue,
            Preserve(r.queueSize, e.queueSize), Preserve(r.taxiMode, e.taxiMode),
            Preserve(r.trackingSiteId, e.trackingSiteId), Preserve(r.beaconOnly, e.beaconOnly),
            Preserve(r.welcomeMessage, e.welcomeMessage), Preserve(r.repairPaidPct, e.repairPaidPct))
  }

  /** The guard looks at the access of the held observation, which is the last accepted one's. */
  predicate Shields(existing: Metadata, incoming: Metadata) { existing.access == Owned && incoming.access == Public }

  function DeviceRule(existing: Observation<Device>, incoming: Observation<Device>): Device {
    var e, i := existing.value, incoming.value;
    var placed := i.(deployedAt := Preserve(i.deployedAt, e.deployedAt),
                     inControlRange := Preserve(i.inControlRange, e.inControlRange));
    if Shields(existing.metadata, incoming.metadata) then placed.(account := e.account, runtime := e.runtime)
    else if incoming.metadata.authority == EntitySnapshot then placed
    else placed.(runtime := PreserveMissing(i.runtime, e.runtime))
  }

  /** Placement facts are the latest known ones, and never become unknown again. */
  lemma PlacementStaysKnown(obs: seq<Observation<Device>>, m: nat, n: nat)
    requires 1 <= m <= n <= |obs|
    ensures var d := Fold(DeviceRule, obs, n).value;
            && d.deployedAt == LatestKnown((x: Device) => x.deployedAt, obs, n)
            && d.inControlRange == LatestKnown((x: Device) => x.inControlRange, obs, n)
            && (Fold(DeviceRule, obs, m).value.deployedAt.Some? ==> d.deployedAt.Some?)
            && (Fold(DeviceRule, obs, m).value.inControlRange.Some? ==> d.inControlRange.Some?)
  {
    PreservedField(DeviceRule, (x: Device) => x.deployedAt, obs, n);
    PreservedField(DeviceRule, (x: Device) => x.inControlRange, obs, n);
    StaysKnown(DeviceRule, (x: Device) => x.deployedAt, obs, m, n);
    StaysKnown(DeviceRule, (x: Device) => x.inControlRange, obs, m, n);
  }

  /** Every activity known in `e` is known in `r`. */
  predicate KnowsAtLeast(r: Runtime, e: Runtime) {
    && (e.createdAt.Some? ==> r.createdAt.Some?) && (e.shortDescription.Some? ==> r.shortDescription.Some?)
    && (e.description.Some? ==> r.description.Some?) && (e.printing.Some? ==> r.printing.Some?)
    && (e.mining.Some? ==> r.mining.Some?) && (e.prospect.Some? ==> r.prospect.Some?)
    && (e.repair.Some? ==> r.repair.Some?) && (e.scan.Some? ==> r.scan.Some?)
    && (e.waitingFor.Some? ==> r.waitingFor.Some?) && (e.printQueue != [] ==> r.printQueue != [])
    && (e.queueSize.Some? ==> r.queueSize.Some?) && (e.taxiMode.Some? ==> r.taxiMode.Some?)
    && (e.trackingSiteId.Some? ==> r.trackingSiteId.Some?) && (e.beaconOnly.Some? ==> r.beaconOnly.Some?)
    && (e.welcomeMessage.Some? ==> r.welcomeMessage.Some?) && (e.repairPaidPct.Some? ==> r.repairPaidPct.Some?)
  }

  predicate KnowsMore(a: Device, b: Device) { KnowsAtLeast(a.runtime, b.runtime) }

  lemma PartialKeeps(existing: Observation<Device>, incoming: Observation<Device>)
    requires incoming.metadata.authority != EntitySnapshot
    ensures KnowsMore(DeviceRule(existing, incoming), existing.value)
  {
  }

  /** An accepted entity snapshot. */
  ghost predicate Snapshot(obs: seq<Observation<Device>>, i: nat)
    requires i < |obs|
  {
    Accepted(obs, i) && obs[i].metadata.authority == EntitySnapshot
  }

  lemma KnowsMoreIsOrder()
    ensures Transitive(KnowsMore) && forall d: Device :: KnowsMore(d, d)
  {
  }

  lemma PartialLinks(obs: seq<Observation<Device>>, n: nat)
    requires 1 <= n < |obs| && !Snapshot(obs, n)
    ensures Linked(DeviceRule, KnowsMore, obs, n)
  {
    if Accepted(obs, n) {
      forall e: Observation<Device> ensures KnowsMore(DeviceRule(e, obs[n]), e.value) {
        PartialKeeps(e, obs[n]);
      }
    }
    KnowsMoreIsOrder();
    KeptOnce(DeviceRule, KnowsMore, obs, n);
  }

  /** Unless an entity snapshot is accepted in between, no activity is cleared. */
  lemma OnlySnapshotsClear(obs: seq<Observation<Device>>, m: nat, n: nat)
    requires 1 <= m < n <= |obs| && forall i :: m <= i < n ==> !Snapshot(obs, i)
    ensures var more: (Device, Device) -> bool := KnowsMore;
            more(Fold(DeviceRule, obs, n).value, Fold(DeviceRule, obs, m).value)
  {
    forall i | m <= i < n ensures Linked(DeviceRule, KnowsMore, obs, i) {
      PartialLinks(obs, i);
    }
    KnowsMoreIsOrder();
    KeptOver(DeviceRule, KnowsMore, obs, m, n);
  }

  // ----- the fields of a device over any run ---------------------------------------

  /** Identity, access and open part are what the last accepted observation says. */
  lemma {:induction false} OpenPartIsLatest(obs: seq<Observation<Device>>, n: nat)
    requires 1 <= n <= |obs|
    ensures var d := Fold(DeviceRule, obs, n).value; var l := obs[LastAccepted(obs, n)].value;
            d.key == l.key && d.open == l.open && d.access == l.access
  {
    if n > 1 {
      OpenPartIsLatest(obs, n - 1);
      FoldStep(DeviceRule, obs, n - 1);
    }
  }

  datatype RuntimeField =
    | CreatedAt | ShortDescription | Description | Printing | Mining | Prospect | Repair | Scan | WaitingFor
    | PrintQueue | QueueSize | TaxiMode | TrackingSiteId | BeaconOnly | WelcomeMessage | RepairPaidPct

  datatype RuntimeFact = Text(text: string) | Count(count: int) | Flag(flag: bool) | Jobs(jobs: seq<string>)

  function TextFact(o: Option<string>): Option<RuntimeFact> { if o.Some? then Some(Text(o.value)) else None }

  function CountFact(o: Option<int>): Option<RuntimeFact> { if o.Some? then Some(Count(o.value)) else None }

  /** What a runtime knows about a field; an empty print queue knows nothing. */
  function RuntimeAt(f: RuntimeField, r: Runtime): Option<RuntimeFact> {
    match f
    case CreatedAt => TextFact(r.createdAt)
    case ShortDescription => TextFact(r.shortDescription)
    case Description => TextFact(r.description)
    case Printing => TextFact(r.printing)
    case Mining => TextFact(r.mining)
    case Prospect => TextFact(r.prospect)
    case Repair => TextFact(r.repair)
    case Scan => TextFact(r.scan)
    case WaitingFor => TextFact(r.waitingFor)
    case PrintQueue => if r.printQueue == [] then None else Some(Jobs(r.printQueue))
    case QueueSize => CountFact(r.queueSize)
    case TaxiMode => TextFact(r.taxiMode)
    case TrackingSiteId => CountFact(r.trackingSiteId)
    case BeaconOnly => if r.beaconOnly.Some? then Some(Flag(r.beaconOnly.value)) else None
    case WelcomeMessage => TextFact(r.welcomeMessage)
    case RepairPaidPct => TextFact(r.repairPaidPct)
  }

  lemma MissingIsPreserved(f: RuntimeField, r: Runtime, e: Runtime)
    ensures RuntimeAt(f, PreserveMissing(r, e)) == if RuntimeAt(f, r).Some? then RuntimeAt(f, r) else RuntimeAt(f, e)
  {
  }

  /** Observation `i` came when the one accepted before it shields the device. */
  ghost predicate Shielded(obs: seq<Observation<Device>>, i: nat)
    requires 0 < i < |obs|
  {
    var before := obs[LastAccepted(obs, i)].metadata.access;
    before == Owned && obs[i].metadata.access == Public
  }

  /** Observation `i` settles a runtime field: it knows it, or is a snapshot and clears it. */
  ghost predicate Settles(f: RuntimeField, obs: seq<Observation<Device>>, i: nat)
    requires i < |obs|
  {
    || i == 0
    || (&& Accepted(obs, i) && !Shielded(obs, i)
        && (obs[i].metadata.authority == EntitySnapshot || RuntimeAt(f, obs[i].value.runtime).Some?))
  }

  /** Of the first `n` observations, `k` is the last to settle the field. */
  ghost predicate LastToSettle(f: RuntimeField, obs: seq<Observation<Device>>, k: nat, n: nat)
    requires n <= |obs|
  {
    k < n && Settles(f, obs, k) && forall i :: k < i < n ==> !Settles(f, obs, i)
  }

  /** What the device held after `n` observations knows about a runtime field. */
  ghost function HeldAt(f: RuntimeField, obs: seq<Observation<Device>>, n: nat): Option<RuntimeFact>
    requires 1 <= n <= |obs|
  {
    RuntimeAt(f, Fold(DeviceRule, obs, n).value.runtime)
  }

  /**
   Over any run every runtime field, known or cleared, is what the last observation that
   settles it says: the last accepted and unshielded one that knows it or is a snapshot.
   */
  lemma {:induction false} RuntimeFieldSettled(f: RuntimeField, obs: seq<Observation<Device>>, k: nat, n: nat)
    requires 1 <= n <= |obs| && LastToSettle(f, obs, k, n)
    ensures HeldAt(f, obs, n) == RuntimeAt(f, obs[k].value.runtime)
  {
    if n > 1 {
      RuntimeStep(f, obs, n - 1);
      if k < n - 1 {
        assert !Settles(f, obs, n - 1);
        RuntimeFieldSettled(f, obs, k, n - 1);
      }
    }
  }

  lemma RuntimeStep(f: RuntimeField, obs: seq<Observation<Device>>, n: nat)
    requires 1 <= n < |obs|
    ensures HeldAt(f, obs, n + 1)
            == if Settles(f, obs, n) then RuntimeAt(f, obs[n].value.runtime) else HeldAt(f, obs, n)
  {
    FoldStep(DeviceRule, obs, n);
    HeldIsMaximum(DeviceRule, obs, n);
    MissingIsPreserved(f, obs[n].value.runtime, Fold(DeviceRule, obs, n).value.runtime);
  }

  /**
   The observation the held account part comes from: the last accepted one, or the one
   accepted just before it when that shields it.  The shield reaches no further back.
   */
  ghost function AccountSource(obs: seq<Observation<Device>>, n: nat): (k: nat)
    requires 1 <= n <= |obs|
    ensures k < n
  {
    var last := LastAccepted(obs, n);
    if last > 0 && Shields(obs[LastAccepted(obs, last)].metadata, obs[last].metadata) then LastAccepted(obs, last)
    else last
  }

  lemma {:induction false} AccountPartFrom(obs: seq<Observation<Device>>, n: nat)
    requires 1 <= n <= |obs|
    ensures Fold(DeviceRule, obs, n).value.account == obs[AccountSource(obs, n)].value.account
  {
    if n > 1 {
      AccountPartFrom(obs, n - 1);
      HeldIsMaximum(DeviceRule, obs, n - 1);
    }
  }

  /** After `o`, at most one of the first `n` observations is accepted, and that one is public. */
  ghost predicate OnePublicSince(obs: seq<Observation<Device>>, o: nat, n: nat)
    requires o < n <= |obs|
  {
    forall i, j :: o < i < n && o < j < n && Accepted(obs, i) && Accepted(obs, j) ==>
                     i == j && obs[i].metadata.access == Public
  }

  /** Exactly one observation, `last`, was accepted after `o`. */
  ghost predicate OnlyAfter(obs: seq<Observation<Device>>, o: nat, last: nat, n: nat)
    requires n <= |obs|
  {
    o < last < n && Accepted(obs, last) && forall i :: o < i < n && Accepted(obs, i) ==> i == last
  }

  lemma OnePublicIs(obs: seq<Observation<Device>>, o: nat, last: nat, n: nat)
    requires o < n <= |obs| && OnlyAfter(obs, o, last, n)
    ensures OnePublicSince(obs, o, n) <==> obs[last].metadata.access == Public
  {
  }

  lemma TwoSince(obs: seq<Observation<Device>>, o: nat, i: nat, j: nat, n: nat)
    requires o < i < j < n <= |obs| && Accepted(obs, i) && Accepted(obs, j)
    ensures !OnePublicSince(obs, o, n)
  {
  }

  /** The last two accepted observations, from an accepted `o` on. */
  lemma LastTwo(obs: seq<Observation<Device>>, o: nat, n: nat)
    requires o < n <= |obs| && Accepted(obs, o)
    ensures var last := LastAccepted(obs, n);
            && o <= last && Accepted(obs, last)
            && (o == last ==> OnePublicSince(obs, o, n))
            && (o < last ==>
                  var before := LastAccepted(obs, last);
                  o <= before && Accepted(obs, before) && (o == before ==> OnlyAfter(obs, o, last, n)))
  {
    LastAcceptedIs(obs, n);
    var last := LastAccepted(obs, n);
    assert o <= last;
    if o < last {
      LastAcceptedIs(obs, last);
      assert o <= LastAccepted(obs, last);
    }
  }

  lemma SourceIs(obs: seq<Observation<Device>>, o: nat, n: nat)
    requires o < n <= |obs| && Accepted(obs, o) && obs[o].metadata.access == Owned
    ensures AccountSource(obs, n) == o <==> OnePublicSince(obs, o, n)
  {
    LastTwo(obs, o, n);
    var last := LastAccepted(obs, n);
    if o < last {
      var before := LastAccepted(obs, last);
      if o == before {
        OnePublicIs(obs, o, last, n);
      } else {
        TwoSince(obs, o, before, last, n);
      }
    }
  }

  /** The same metadata in the same order; the observed devices may differ. */
  ghost predicate SameMetadata(obs: seq<Observation<Device>>, alt: seq<Observation<Device>>) {
    |alt| == |obs| && forall i :: 0 <= i < |obs| ==> alt[i].metadata == obs[i].metadata
  }

  lemma {:induction false} LastAcceptedSame(obs: seq<Observation<Device>>, alt: seq<Observation<Device>>, n: nat)
    requires SameMetadata(obs, alt) && 1 <= n <= |obs|
    ensures LastAccepted(alt, n) == LastAccepted(obs, n)
  {
    assert Accepted(alt, n - 1) <==> Accepted(obs, n - 1);
    if n > 1 {
      LastAcceptedSame(obs, alt, n - 1);
    }
  }

  lemma SourceSame(obs: seq<Observation<Device>>, alt: seq<Observation<Device>>, n: nat)
    requires SameMetadata(obs, alt) && 1 <= n <= |obs|
    ensures AccountSource(alt, n) == AccountSource(obs, n)
  {
    LastAcceptedSame(obs, alt, n);
    var last := LastAccepted(obs, n);
    if last > 0 {
      LastAcceptedSame(obs, alt, last);
    }
  }

  /** The held account part is that of `o`, whatever devices were observed. */
  ghost predicate AlwaysHolds(obs: seq<Observation<Device>>, o: nat, n: nat)
    requires o < n <= |obs|
  {
    forall alt: seq<Observation<Device>> :: SameMetadata(obs, alt) ==>
                                              Fold(DeviceRule, alt, n).value.account == alt[o].value.account
  }

  lemma HoldsFromSource(obs: seq<Observation<Device>>, o: nat, n: nat)
    requires o < n <= |obs|
    ensures AlwaysHolds(obs, o, n) <==> AccountSource(obs, n) == o
  {
    var k := AccountSource(obs, n);
    if k == o {
      forall alt: seq<Observation<Device>> | SameMetadata(obs, alt)
        ensures Fold(DeviceRule, alt, n).value.account == alt[o].value.account
      {
        SourceSame(obs, alt, n);
        AccountPartFrom(alt, n);
      }
    } else {
      var part := obs[o].value.account;
      var other := part.(stowUsed := if part.stowUsed == None then Some(0) else None);
      var alt := obs[k := obs[k].(value := obs[k].value.(account := other))];
      SourceSame(obs, alt, n);
      AccountPartFrom(alt, n);
      assert SameMetadata(obs, alt) && Fold(DeviceRule, alt, n).value.account != alt[o].value.account;
    }
  }

  /**
   One accepted public observation cannot erase the owned account part of a device, but the
   held metadata is then public itself and the next one meets no shield.  For every run, with
   refused, shared and snapshot observations in any order: the account part of an accepted
   owned observation is sure to survive exactly when at most one observation was accepted
   since, and that one public.
   */
  lemma OwnedSurvivesOnePublic(obs: seq<Observation<Device>>, o: nat, n: nat)
    requires o < n <= |obs| && Accepted(obs, o) && obs[o].metadata.access == Owned
    ensures AlwaysHolds(obs, o, n) <==> OnePublicSince(obs, o, n)
  {
    HoldsFromSource(obs, o, n);
    SourceIs(obs, o, n);
  }

  /** Otherwise it is lost, unless an accepted later observation brings the same part again. */
  lemma OwnedLostOtherwise(obs: seq<Observation<Device>>, o: nat, n: nat)
    requires o < n <= |obs| && Accepted(obs, o) && obs[o].metadata.access == Owned
    requires forall i :: o < i < n && Accepted(obs, i) ==> obs[i].value.account != obs[o].value.account
    ensures Fold(DeviceRule, obs, n).value.account == obs[o].value.account <==> OnePublicSince(obs, o, n)
  {
    AccountPartFrom(obs, n);
    SourceIs(obs, o, n);
    SourceSince(obs, o, n);
  }

  lemma SourceSince(obs: seq<Observation<Device>>, o: nat, n: nat)
    requires o < n <= |obs| && Accepted(obs, o) && obs[o].metadata.access == Owned
    ensures o <= AccountSource(obs, n) && Accepted(obs, AccountSource(obs, n))
  {
    var last := LastAccepted(obs, n);
    LastAcceptedIs(obs, n);
    assert o <= last;
    if o < last {
      LastAcceptedIs(obs, last);
      assert o <= LastAccepted(obs, last);
    } else if last > 0 {
      LastAcceptedIs(obs, last);
    }
  }

  /** Two public observations after an owned one: the assigned replicant is gone. */
  lemma OwnedErasedByTwoPublics(device: Device, owned: Metadata, replicant: WorldKey)
    returns (obs: seq<Observation<Device>>)
    requires owned.access == Owned && device.account.assignedReplicant == None
    ensures |obs| == 3 && obs[0].metadata == owned && obs[0].value.account.assignedReplicant == Some(replicant)
    ensures obs[1].metadata.access == Public && obs[2].metadata.access == Public
    ensures Fold(DeviceRule, obs, 2).value.account.assignedReplicant == Some(replicant)
    ensures Fold(DeviceRule, obs, 3).value.account.assignedReplicant == None
  {
    var seen := owned.(access := Public);
    obs := [Observation(device.(account := device.account.(assignedReplicant := Some(replicant))), owned),
            Observation(device, seen), Observation(device, seen)];
  }
}
