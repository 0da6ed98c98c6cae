/** The public status, derived from the readiness components at every update. */
module ClientReadiness {

  datatype StartupPolicy = RestoreOnly | Essential | Full

  datatype Component = Pending | Ready | Degraded

  datatype Readiness = Readiness(
    localRestoration: Component,
    accountBinding: Component,
    essentialRest: Component,
    fullRest: Component,
    eventCatchup: Component,
    sseConnectivity: Component,
    backgroundReconciliation: Component,
    storeHealth: Component)
  {
    predicate LocallyUsable() { localRestoration.Ready? && storeHealth.Ready? }

    predicate PolicySatisfied(policy: StartupPolicy) {
      && LocallyUsable()
      && match policy
         case RestoreOnly => true
         case Essential => accountBinding.Ready? && essentialRest.Ready? && eventCatchup.Ready?
             && sseConnectivity.Ready?
         case Full =>
           && accountBinding.Ready? && essentialRest.Ready? && fullRest.Ready?
           && eventCatchup.Ready? && sseConnectivity.Ready?
    }
  }

  const PENDING := Readiness(Pending, Pending, Pending, Pending, Pending, Pending, Pending, Pending)

  datatype Degradation = StartupIncomplete | EventContinuity

  datatype Status =
    | Starting | Restoring | CatchingUp | Synchronizing | Connecting
    | StatusReady | StatusDegraded(reason: Degradation) | Offline | Closing | Closed

  /** `fallThrough` is what the last arm yields for a policy it cannot meet. */
  function Derived(r: Readiness, policy: StartupPolicy, hadLiveConnection: bool, fallThrough: Status): Status {
    if !r.LocallyUsable() || r.accountBinding.Degraded? || r.essentialRest.Degraded? || r.fullRest.Degraded? then
      StatusDegraded(StartupIncomplete)
    else if r.eventCatchup.Degraded? then StatusDegraded(EventContinuity)
    else if r.sseConnectivity.Degraded? then
      if hadLiveConnection then Offline else StatusDegraded(StartupIncomplete)
    else if r.PolicySatisfied(policy) then StatusReady
    else match policy
         case RestoreOnly => fallThrough
         case Essential => CatchingUp
         case Full =>
           if r.fullRest.Pending? then Synchronizing
           else if r.eventCatchup.Pending? then CatchingUp
           else Connecting
  }

  /** The two watched values of a client. */
  datatype Cell = Cell(status: Status, readiness: Readiness)

  datatype Op = Update(readiness: Readiness) | BeginClose | EndClose

  predicate Live(status: Status) { status.StatusReady? || status.Offline? }

  predicate Open(status: Status) { !status.Closing? && !status.Closed? }

  function Next(policy: StartupPolicy, c: Cell, op: Op): Cell {
    match op
    case Update(r) => Cell(if Open(c.status) then Derived(r, policy, Live(c.status), StatusReady) else c.status, r)
    case BeginClose => c.(status := Closing)
    case EndClose => c.(status := Closed)
  }

  class ClientState {
    const policy: StartupPolicy
    var status: Status
    var readiness: Readiness

    constructor (policy: StartupPolicy)
      ensures this.policy == policy && Value() == Cell(Restoring, PENDING)
    {
      this.policy, status, readiness := policy, Restoring, PENDING;
    }

    function Value(): Cell
      reads this
    {
      Cell(status, readiness)
    }

    method SetReadiness(update: Readiness -> Readiness)
      modifies this
      ensures Value() == Next(policy, old(Value()), Update(update(old(readiness))))
    {
      var hadLiveConnection := Live(status);
      readiness := update(readiness);
      if Open(status) {
        status := Derived(readiness, policy, hadLiveConnection, StatusReady);
      }
    }

    method SetStatus(to: Status)
      requires to.Closing? || to.Closed?
      modifies this`status
      ensures Value() == Next(policy, old(Value()), if to.Closing? then BeginClose else EndClose)
    {
      status := to;
    }
  }

  // ----- every run of updates and closes -------------------------------------------

  ghost predicate Run(policy: StartupPolicy, trace: seq<Cell>, ops: seq<Op>) {
    && |trace| == |ops| + 1 && trace[0] == Cell(Restoring, PENDING)
    && forall i :: 0 <= i < |ops| ==> trace[i + 1] == Next(policy, trace[i], ops[i])
  }

  /** None of the components the status watches is degraded. */
  predicate Sound(r: Readiness) {
    && !r.accountBinding.Degraded? && !r.essentialRest.Degraded? && !r.fullRest.Degraded?
    && !r.eventCatchup.Degraded? && !r.sseConnectivity.Degraded?
  }

  /** Only the stream is degraded, and local state is usable. */
  predicate OnlyStreamLost(r: Readiness) {
    && r.LocallyUsable() && r.sseConnectivity.Degraded?
    && !r.accountBinding.Degraded? && !r.essentialRest.Degraded? && !r.fullRest.Degraded? && !r.eventCatchup.Degraded?
  }

  /** The last arm is never reached under the restore-only policy: its value does not matter. */
  lemma FallThroughUnreachable(r: Readiness, policy: StartupPolicy, live: bool, a: Status, b: Status)
    ensures Derived(r, policy, live, a) == Derived(r, policy, live, b)
  {
  }

  // ----- every status, component by component --------------------------------------

  predicate LocalReady(r: Readiness) { r.localRestoration == Ready && r.storeHealth == Ready }

  predicate RestDegraded(r: Readiness) {
    r.accountBinding == Degraded || r.essentialRest == Degraded || r.fullRest == Degraded
  }

  predicate NoneDegraded(r: Readiness) {
    !RestDegraded(r) && r.eventCatchup != Degraded && r.sseConnectivity != Degraded
  }

  /** What an update makes of an open client: Ready, by policy. */
  lemma ReadyWritten(policy: StartupPolicy, c: Cell, r: Readiness)
    requires c.status != Closing && c.status != Closed
    ensures Next(policy, c, Update(r)).status == StatusReady
            <==> && LocalReady(r) && NoneDegraded(r)
                 && (policy == Essential ==>
                       && r.accountBinding == Ready && r.essentialRest == Ready
                       && r.eventCatchup == Ready && r.sseConnectivity == Ready)
                 && (policy == Full ==>
                       && r.accountBinding == Ready && r.essentialRest == Ready && r.fullRest == Ready
                       && r.eventCatchup == Ready && r.sseConnectivity == Ready)
  {
  }

  /** The degraded statuses and their reasons. */
  lemma DegradedWritten(policy: StartupPolicy, c: Cell, r: Readiness)
    requires c.status != Closing && c.status != Closed
    ensures var status := Next(policy, c, Update(r)).status;
            var live := c.status == StatusReady || c.status == Offline;
            var onlyStream := && LocalReady(r) && !RestDegraded(r)
                              && r.eventCatchup != Degraded && r.sseConnectivity == Degraded;
            && (status == Offline <==> onlyStream && live)
            && (status == StatusDegraded(EventContinuity)
                <==> LocalReady(r) && !RestDegraded(r) && r.eventCatchup == Degraded)
            && (status == StatusDegraded(StartupIncomplete)
                <==> !LocalReady(r) || RestDegraded(r) || (onlyStream && !live))
  {
  }

  /** The statuses on the way: nothing is degraded, something is pending. */
  lemma PendingWritten(policy: StartupPolicy, c: Cell, r: Readiness)
    requires c.status != Closing && c.status != Closed
    ensures var status := Next(policy, c, Update(r)).status;
            var onTheWay := LocalReady(r) && NoneDegraded(r);
            && (status == Synchronizing <==> policy == Full && onTheWay && r.fullRest == Pending)
            && (status == Connecting
                <==> && policy == Full && onTheWay && r.fullRest == Ready && r.eventCatchup == Ready
                     && (r.accountBinding == Pending || r.essentialRest == Pending || r.sseConnectivity == Pending))
            && (status == CatchingUp
                <==> || (policy == Full && onTheWay && r.fullRest == Ready && r.eventCatchup == Pending)
                     || (policy == Essential && onTheWay
                         && (r.accountBinding == Pending || r.essentialRest == Pending
                             || r.eventCatchup == Pending || r.sseConnectivity == Pending)))
            && status != Starting && status != Restoring
  {
  }

  /** An update takes the new components and leaves a closing status alone. */
  lemma UpdateWritten(policy: StartupPolicy, c: Cell, r: Readiness)
    ensures Next(policy, c, Update(r)).readiness == r
    ensures c.status == Closing || c.status == Closed <==> Next(policy, c, Update(r)).status in {Closing, Closed}
    ensures c.status == Closing || c.status == Closed ==> Next(policy, c, Update(r)).status == c.status
    ensures Next(policy, c, BeginClose) == Cell(Closing, c.readiness)
    ensures Next(policy, c, EndClose) == Cell(Closed, c.readiness)
  {
  }

  /**
   In every run: an open status after an update is Ready exactly when the policy is
   satisfied and nothing it watches is degraded; Offline is reported exactly when only
   the stream is lost and the status before the update was Ready or Offline; an Offline
   client was Ready at some earlier moment; and a closing client never opens again.
   */
  lemma {:induction false} StatusHonest(policy: StartupPolicy, trace: seq<Cell>, ops: seq<Op>, k: nat)
    requires Run(policy, trace, ops) && k < |trace|
    ensures Open(trace[k].status) && k > 0 ==>
              && (trace[k].status.StatusReady?
                  <==> trace[k].readiness.PolicySatisfied(policy) && Sound(trace[k].readiness))
              && (trace[k].status.Offline? <==> OnlyStreamLost(trace[k].readiness) && Live(trace[k - 1].status))
    ensures trace[k].status.Offline? ==> exists i :: 0 <= i < k && trace[i].status.StatusReady?
    ensures k > 0 && !Open(trace[k - 1].status) ==> !Open(trace[k].status)
  {
    if k > 0 {
      StatusHonest(policy, trace, ops, k - 1);
      var c, c' := trace[k - 1], trace[k];
      assert c' == Next(policy, c, ops[k - 1]);
      if c'.status.Offline? {
        assert Live(c.status);
        var i := if c.status.StatusReady? then k - 1 else var i :| 0 <= i < k - 1 && trace[i].status.StatusReady?; i;
        assert trace[i].status.StatusReady?;
      }
    }
  }

  /** Ready at `i`, and from then on up to `k` nothing but the stream is lost. */
  ghost predicate LostSince(trace: seq<Cell>, i: nat, k: nat)
    requires i < k < |trace|
  {
    trace[i].status.StatusReady? && forall j :: i < j <= k ==> OnlyStreamLost(trace[j].readiness)
  }

  /**
   Over whole runs: an open client is Offline exactly when it was Ready and since then, without
   interruption, the stream was degraded and nothing else.  Any other component that fails in
   between makes it forget the live connection.
   */
  lemma {:induction false} OfflineExactly(policy: StartupPolicy, trace: seq<Cell>, ops: seq<Op>, k: nat)
    requires Run(policy, trace, ops) && k < |trace| && Open(trace[k].status)
    ensures trace[k].status.Offline? <==> exists i :: 0 <= i < k && LostSince(trace, i, k)
  {
    if k > 0 {
      var c, c' := trace[k - 1], trace[k];
      assert c' == Next(policy, c, ops[k - 1]);
      StatusHonest(policy, trace, ops, k);
      assert Open(c.status);
      OfflineExactly(policy, trace, ops, k - 1);
      if c'.status.Offline? {
        var i := if c.status.StatusReady? then k - 1 else var i :| 0 <= i < k - 1 && LostSince(trace, i, k - 1); i;
        assert LostSince(trace, i, k);
      }
      if i :| 0 <= i < k && LostSince(trace, i, k) {
        assert i < k - 1 ==> LostSince(trace, i, k - 1);
        assert OnlyStreamLost(c'.readiness) && Live(c.status);
      }
    }
  }

  /**
   A connection that was live and is then lost is not always reported as Offline: when a
   continuity failure comes in between, the memory of the live connection is gone.
   */
  lemma LostConnectionForgotten() returns (trace: seq<Cell>, ops: seq<Op>)
    ensures Run(Essential, trace, ops) && |trace| == 5
    ensures trace[1].status.StatusReady? && OnlyStreamLost(trace[4].readiness)
    ensures trace[4].status == StatusDegraded(StartupIncomplete)
  {
    var good := Readiness(Ready, Ready, Ready, Pending, Ready, Ready, Pending, Ready);
    var gap := good.(eventCatchup := Degraded);
    ops := [Update(good), Update(gap), Update(gap.(sseConnectivity := Degraded)),
        Update(good.(sseConnectivity := Degraded))];
    var c0 := Cell(Restoring, PENDING);
    var c1 := Next(Essential, c0, ops[0]);
    var c2 := Next(Essential, c1, ops[1]);
    var c3 := Next(Essential, c2, ops[2]);
    trace := [c0, c1, c2, c3, Next(Essential, c3, ops[3])];
  }
}
