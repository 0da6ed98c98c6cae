/**
 Readiness updates at the grain of their accesses.

 `set_readiness` takes no lock.  It reads the status, modifies the components, tests the
 status again, reads the components and stores the status it derives; `close` stores
 Closing and later Closed.  Each access is one step, and any number of calls interleave.
 */
module ReadinessSteps {
  import opened ClientReadiness
  import opened Orderings
  import opened Traces

  datatype Call =
    | Entered
    | Loaded(live: bool)
    | Modified(live: bool)
    | Tested(live: bool)                         // the status was open
    | Derives(live: bool, seen: Readiness)       // the components are read
    | Returned

  datatype CloseStage = NotClosing | ClosingStored | ClosedStored

  datatype State = State(cell: Cell, close: CloseStage, calls: map<nat, Call>)

  datatype Step =
    | Enter(p: nat)
    | LoadStatus(p: nat)
    | Modify(p: nat, readiness: Readiness)
    | TestStatus(p: nat)
    | ReadComponents(p: nat)
    | StoreStatus(p: nat)
    | StoreClosing
    | StoreClosed

  predicate Enabled(s: State, step: Step) {
    match step
    case Enter(p) => p !in s.calls
    case LoadStatus(p) => p in s.calls && s.calls[p].Entered?
    case Modify(p, _) => p in s.calls && s.calls[p].Loaded?
    case TestStatus(p) => p in s.calls && s.calls[p].Modified?
    case ReadComponents(p) => p in s.calls && s.calls[p].Tested?
    case StoreStatus(p) => p in s.calls && s.calls[p].Derives?
    case StoreClosing => s.close.NotClosing?
    case StoreClosed => s.close.ClosingStored?
  }

  function To(s: State, p: nat, call: Call): State { s.(calls := s.calls[p := call]) }

  function Act(policy: StartupPolicy, s: State, step: Step): State
    requires Enabled(s, step)
  {
    match step
    case Enter(p) => To(s, p, Entered)
    case LoadStatus(p) => To(s, p, Loaded(Live(s.cell.status)))
    case Modify(p, r) => To(s, p, Modified(s.calls[p].live)).(cell := s.cell.(readiness := r))
    case TestStatus(p) => To(s, p, if Open(s.cell.status) then Tested(s.calls[p].live) else Returned)
    case ReadComponents(p) => To(s, p, Derives(s.calls[p].live, s.cell.readiness))
    case StoreStatus(p) =>
      To(s, p, Returned).(cell := s.cell.(status := Derived(s.calls[p].seen, policy, s.calls[p].live, StatusReady)))
    case StoreClosing => s.(close := ClosingStored, cell := s.cell.(status := Closing))
    case StoreClosed => s.(close := ClosedStored, cell := s.cell.(status := Closed))
  }

  const START := State(Cell(Restoring, PENDING), NotClosing, map[])

  ghost function Moves(policy: StartupPolicy): Machine<State, Step> {
    (s: State, step: Step) => if Enabled(s, step) then Some(Act(policy, s, step)) else None
  }

  ghost predicate Run(policy: StartupPolicy, trace: seq<State>, steps: seq<Step>) {
    Trace(Moves(policy), trace, steps) && trace[0] == START
  }

  lemma RunStep(policy: StartupPolicy, trace: seq<State>, steps: seq<Step>, k: nat)
    requires Run(policy, trace, steps) && 0 < k < |trace|
    ensures Enabled(trace[k - 1], steps[k - 1]) && trace[k] == Act(policy, trace[k - 1], steps[k - 1])
  {
    assert Moves(policy)(trace[k - 1], steps[k - 1]) == Some(trace[k - 1 + 1]);
  }

  // ----- one call at a time is one update ------------------------------------------

  /** A call up to its test. */
  function Opening(p: nat, r: Readiness): seq<Step> {
    [Enter(p)] + ([LoadStatus(p)] + ([Modify(p, r)] + [TestStatus(p)]))
  }

  function Ending(p: nat): seq<Step> { [ReadComponents(p)] + [StoreStatus(p)] }

  lemma OpeningLeads(policy: StartupPolicy, s: State, p: nat, r: Readiness) returns (s': State)
    requires p !in s.calls
    ensures Leads(Moves(policy), s, Opening(p, r), s')
    ensures s' == To(s, p, if Open(s.cell.status) then Tested(Live(s.cell.status)) else Returned)
                  .(cell := s.cell.(readiness := r))
  {
    var s1 := Act(policy, s, Enter(p));
    var s2 := Act(policy, s1, LoadStatus(p));
    var s3 := Act(policy, s2, Modify(p, r));
    s' := Act(policy, s3, TestStatus(p));
    assert s'.calls == s.calls[p := s'.calls[p]];
    One(Moves(policy), s3, TestStatus(p), Act(policy, s3, TestStatus(p)));
    One(Moves(policy), s2, Modify(p, r), Act(policy, s2, Modify(p, r)));
    LeadsThen(Moves(policy), s2, [Modify(p, r)], s3, [TestStatus(p)], s');
    One(Moves(policy), s1, LoadStatus(p), Act(policy, s1, LoadStatus(p)));
    LeadsThen(Moves(policy), s1, [LoadStatus(p)], s2, [Modify(p, r)] + [TestStatus(p)], s');
    One(Moves(policy), s, Enter(p), Act(policy, s, Enter(p)));
    LeadsThen(Moves(policy), s, [Enter(p)], s1, [LoadStatus(p)] + ([Modify(p, r)] + [TestStatus(p)]), s');
  }

  lemma EndingLeads(policy: StartupPolicy, s: State, p: nat) returns (s': State)
    requires p in s.calls && s.calls[p].Tested?
    ensures Leads(Moves(policy), s, Ending(p), s')
    ensures s' == To(s, p, Returned)
                  .(cell := s.cell.(status := Derived(s.cell.readiness, policy, s.calls[p].live, StatusReady)))
  {
    var s1 := Act(policy, s, ReadComponents(p));
    s' := Act(policy, s1, StoreStatus(p));
    assert s'.calls == s.calls[p := Returned];
    One(Moves(policy), s, ReadComponents(p), Act(policy, s, ReadComponents(p)));
    One(Moves(policy), s1, StoreStatus(p), Act(policy, s1, StoreStatus(p)));
    LeadsThen(Moves(policy), s, [ReadComponents(p)], s1, [StoreStatus(p)], s');
  }

  /** A call that nothing interleaves does what the atomic update says. */
  lemma AloneIsAtomic(policy: StartupPolicy, s: State, p: nat, r: Readiness) returns (steps: seq<Step>, s': State)
    requires p !in s.calls
    ensures Leads(Moves(policy), s, steps, s') && s'.calls == s.calls[p := Returned] && s'.close == s.close
    ensures s'.cell == Next(policy, s.cell, Update(r))
  {
    s' := OpeningLeads(policy, s, p, r);
    steps := Opening(p, r);
    if Open(s.cell.status) {
      var m := s';
      s' := EndingLeads(policy, m, p);
      LeadsThen(Moves(policy), s, steps, m, Ending(p), s');
      steps := steps + Ending(p);
    }
  }

  /** The two stores of `close` are its two changes of status. */
  lemma CloseIsAtomic(policy: StartupPolicy, s: State)
    requires s.close.NotClosing?
    ensures var closing := Act(policy, s, StoreClosing);
            && closing == s.(cell := Next(policy, s.cell, BeginClose), close := ClosingStored)
            && Enabled(closing, StoreClosed)
            && Act(policy, closing, StoreClosed) == s.(cell := Next(policy, s.cell, EndClose), close := ClosedStored)
  {
  }

  // ----- when closing can be left --------------------------------------------------

  /** The call has found the status open and has not stored its own. */
  predicate InFlight(call: Call) { call.Tested? || call.Derives? }

  ghost predicate SomeInFlight(s: State) { exists p :: p in s.calls && InFlight(s.calls[p]) }

  /** Some continuation of the run reaches an open status. */
  ghost predicate Reopens(policy: StartupPolicy, s: State) {
    exists steps, s' :: Leads(Moves(policy), s, steps, s') && Open(s'.cell.status)
  }

  lemma DerivedIsOpen(policy: StartupPolicy, r: Readiness, live: bool)
    ensures Open(Derived(r, policy, live, StatusReady))
  {
  }

  lemma {:induction false} ShutStaysShut(policy: StartupPolicy, s: State, steps: seq<Step>, s': State)
    requires Leads(Moves(policy), s, steps, s') && !Open(s.cell.status) && !SomeInFlight(s)
    ensures !Open(s'.cell.status)
    decreases |steps|
  {
    if steps != [] {
      ShutStep(policy, s, steps[0]);
      ShutStaysShut(policy, Act(policy, s, steps[0]), steps[1..], s');
    }
  }

  lemma ShutStep(policy: StartupPolicy, s: State, step: Step)
    requires Enabled(s, step) && !Open(s.cell.status) && !SomeInFlight(s)
    ensures !Open(Act(policy, s, step).cell.status) && !SomeInFlight(Act(policy, s, step))
  {
  }

  /**
   From a status that is Closing or Closed, in particular at the moment `close` stores it,
   the client can become open again exactly when some call stands between its test and its
   store.
   */
  lemma ClosingLeftExactly(policy: StartupPolicy, s: State)
    requires !Open(s.cell.status)
    ensures Reopens(policy, s) <==> SomeInFlight(s)
  {
    if Reopens(policy, s) && !SomeInFlight(s) {
      var steps, s' :| Leads(Moves(policy), s, steps, s') && Open(s'.cell.status);
      ShutStaysShut(policy, s, steps, s');
    }
    if SomeInFlight(s) {
      var p :| p in s.calls && InFlight(s.calls[p]);
      InFlightReopens(policy, s, p);
    }
  }

  lemma InFlightReopens(policy: StartupPolicy, s: State, p: nat)
    requires p in s.calls && InFlight(s.calls[p])
    ensures Reopens(policy, s)
  {
    if s.calls[p].Tested? {
      var s' := EndingLeads(policy, s, p);
      DerivedIsOpen(policy, s.cell.readiness, s.calls[p].live);
    } else {
      One(Moves(policy), s, StoreStatus(p), Act(policy, s, StoreStatus(p)));
      DerivedIsOpen(policy, s.calls[p].seen, s.calls[p].live);
    }
  }

  /** In every run, a status stored by `close` while no call is in flight is never left for an open one. */
  lemma ClosingKept(policy: StartupPolicy, trace: seq<State>, steps: seq<Step>, i: nat, k: nat)
    requires Run(policy, trace, steps) && i <= k < |trace|
    requires !Open(trace[i].cell.status) && !SomeInFlight(trace[i])
    ensures !Open(trace[k].cell.status)
  {
    Between(Moves(policy), trace, steps, i, k);
    ShutStaysShut(policy, trace[i], steps[i..k], trace[k]);
  }

  const GOOD := Readiness(Ready, Ready, Ready, Pending, Ready, Ready, Pending, Ready)

  /** A call that has passed its test, then both stores of `close`, then the rest of the call. */
  lemma CloseOvertaken(policy: StartupPolicy, s: State, p: nat) returns (steps: seq<Step>, s': State)
    requires p in s.calls && s.calls[p].Tested? && s.close.NotClosing?
    ensures Leads(Moves(policy), s, steps, s') && s'.close.ClosedStored?
    ensures s'.cell.status == Derived(s.cell.readiness, policy, s.calls[p].live, StatusReady)
  {
    var s2 := Act(policy, s, StoreClosing);
    var s3 := Act(policy, s2, StoreClosed);
    s' := EndingLeads(policy, s3, p);
    One(Moves(policy), s, StoreClosing, Act(policy, s, StoreClosing));
    One(Moves(policy), s2, StoreClosed, Act(policy, s2, StoreClosed));
    LeadsThen(Moves(policy), s, [StoreClosing], s2, [StoreClosed], s3);
    steps := [StoreClosing] + [StoreClosed] + Ending(p);
    LeadsThen(Moves(policy), s, [StoreClosing] + [StoreClosed], s3, Ending(p), s');
  }

  /** A run that ends Ready although Closing and Closed were both stored. */
  lemma ClosedOverwritten() returns (trace: seq<State>, steps: seq<Step>)
    ensures Run(Essential, trace, steps)
    ensures var s := trace[|steps|]; s.close.ClosedStored? && s.cell.status.StatusReady?
  {
    var s1 := OpeningLeads(Essential, START, 0, GOOD);
    var rest, s2 := CloseOvertaken(Essential, s1, 0);
    steps := Opening(0, GOOD) + rest;
    LeadsThen(Moves(Essential), START, Opening(0, GOOD), s1, rest, s2);
    trace := LeadsTrace(Moves(Essential), START, steps, s2);
  }

  // ----- how honest the status is --------------------------------------------------

  /** The components call for Ready: the policy is satisfied and nothing it watches is degraded. */
  predicate Meets(policy: StartupPolicy, r: Readiness) { r.PolicySatisfied(policy) && Sound(r) }

  /** An open status says Ready exactly when the components call for it. */
  predicate Honest(policy: StartupPolicy, s: State) {
    Open(s.cell.status) ==> (s.cell.status.StatusReady? <==> Meets(policy, s.cell.readiness))
  }

  lemma DerivedMeets(policy: StartupPolicy, r: Readiness, live: bool)
    ensures Derived(r, policy, live, StatusReady).StatusReady? <==> Meets(policy, r)
  {
  }

  /** Some call is about to store a status for components it read and that no longer hold. */
  ghost predicate HoldsStale(policy: StartupPolicy, s: State) {
    exists p :: p in s.calls && s.calls[p].Derives? && StaleCall(policy, s, s.calls[p].seen)
  }

  predicate StaleCall(policy: StartupPolicy, s: State, seen: Readiness) {
    Meets(policy, seen) != Meets(policy, s.cell.readiness)
  }

  ghost predicate NoModify(steps: seq<Step>) { forall i :: 0 <= i < |steps| ==> !steps[i].Modify? }

  /** Without any further change of the components, the status can become dishonest. */
  ghost predicate Misleads(policy: StartupPolicy, s: State) {
    exists steps, s' :: Leads(Moves(policy), s, steps, s') && NoModify(steps) && !Honest(policy, s')
  }

  lemma HonestStep(policy: StartupPolicy, s: State, step: Step)
    requires Enabled(s, step) && !step.Modify? && Honest(policy, s) && !HoldsStale(policy, s)
    ensures Honest(policy, Act(policy, s, step)) && !HoldsStale(policy, Act(policy, s, step))
  {
    var s' := Act(policy, s, step);
    if step.StoreStatus? {
      DerivedMeets(policy, s.calls[step.p].seen, s.calls[step.p].live);
    }
    forall p | p in s'.calls && s'.calls[p].Derives? ensures !StaleCall(policy, s', s'.calls[p].seen) {
      if !(step.ReadComponents? && step.p == p) {
        assert p in s.calls && s.calls[p] == s'.calls[p];
      }
    }
  }

  lemma {:induction false} HonestStays(policy: StartupPolicy, s: State, steps: seq<Step>, s': State)
    requires Leads(Moves(policy), s, steps, s') && NoModify(steps) && Honest(policy, s) && !HoldsStale(policy, s)
    ensures Honest(policy, s')
    decreases |steps|
  {
    if steps != [] {
      HonestStep(policy, s, steps[0]);
      assert forall i :: 0 <= i < |steps| - 1 ==> steps[1..][i] == steps[i + 1];
      HonestStays(policy, Act(policy, s, steps[0]), steps[1..], s');
    }
  }

  /**
   From an honest status, with the components left as they are, the client can come to report
   a dishonest one exactly when some call has read components that disagree with the present
   ones about being Ready and has not stored its status.
   */
  lemma StaleExactly(policy: StartupPolicy, s: State)
    requires Honest(policy, s)
    ensures Misleads(policy, s) <==> HoldsStale(policy, s)
  {
    if Misleads(policy, s) && !HoldsStale(policy, s) {
      var steps, s' :| Leads(Moves(policy), s, steps, s') && NoModify(steps) && !Honest(policy, s');
      HonestStays(policy, s, steps, s');
    }
    if HoldsStale(policy, s) {
      var p :| p in s.calls && s.calls[p].Derives? && StaleCall(policy, s, s.calls[p].seen);
      StaleMisleads(policy, s, p);
    }
  }

  lemma StaleMisleads(policy: StartupPolicy, s: State, p: nat)
    requires p in s.calls && s.calls[p].Derives? && StaleCall(policy, s, s.calls[p].seen)
    ensures Misleads(policy, s)
  {
    var s' := Act(policy, s, StoreStatus(p));
    One(Moves(policy), s, StoreStatus(p), s');
    DerivedIsOpen(policy, s.calls[p].seen, s.calls[p].live);
    DerivedMeets(policy, s.calls[p].seen, s.calls[p].live);
    assert NoModify([StoreStatus(p)]) && !Honest(policy, s');
  }

  /** `j` read the components from which the status of state `k` was derived. */
  ghost predicate DerivedAt(policy: StartupPolicy, trace: seq<State>, steps: seq<Step>, j: nat, k: nat)
    requires j < k < |trace| && |trace| == |steps| + 1
  {
    && steps[j].ReadComponents? && steps[j].p in trace[j].calls && trace[j].calls[steps[j].p].Tested?
    && trace[k].cell.status == Derived(trace[j].cell.readiness, policy, trace[j].calls[steps[j].p].live, StatusReady)
  }

  ghost predicate SeenAt(trace: seq<State>, steps: seq<Step>, j: nat, live: bool, seen: Readiness)
    requires |trace| == |steps| + 1
  {
    && j < |steps| && steps[j].ReadComponents? && steps[j].p in trace[j].calls
    && trace[j].calls[steps[j].p] == Tested(live) && trace[j].cell.readiness == seen
  }

  /** What a call holds was read at some moment of the run. */
  lemma {:induction false} SeenWasRead(policy: StartupPolicy, trace: seq<State>, steps: seq<Step>, k: nat, p: nat)
    returns (j: nat)
    requires Run(policy, trace, steps) && k < |trace| && p in trace[k].calls && trace[k].calls[p].Derives?
    ensures j < k && SeenAt(trace, steps, j, trace[k].calls[p].live, trace[k].calls[p].seen)
  {
    assert k > 0;
    RunStep(policy, trace, steps, k);
    if p in trace[k - 1].calls && trace[k - 1].calls[p] == trace[k].calls[p] {
      j := SeenWasRead(policy, trace, steps, k - 1, p);
    } else {
      j := k - 1;
    }
  }

  /**
   In every run, however calls and closes interleave: an open status is the first one, or
   was derived from components that some call read earlier.  It is honest exactly when those
   and the present ones agree about being Ready.
   */
  lemma {:induction false} StatusTraced(policy: StartupPolicy, trace: seq<State>, steps: seq<Step>, k: nat)
    returns (j: nat)
    requires Run(policy, trace, steps) && k < |trace| && Open(trace[k].cell.status)
    requires !trace[k].cell.status.Restoring?
    ensures j < k && DerivedAt(policy, trace, steps, j, k)
    ensures Honest(policy, trace[k])
            <==> (Meets(policy, trace[j].cell.readiness) <==> Meets(policy, trace[k].cell.readiness))
  {
    assert k > 0;
    RunStep(policy, trace, steps, k);
    if trace[k - 1].cell.status == trace[k].cell.status && !steps[k - 1].StoreStatus? {
      j := StatusTraced(policy, trace, steps, k - 1);
    } else {
      j := SeenWasRead(policy, trace, steps, k - 1, steps[k - 1].p);
    }
    DerivedMeets(policy, trace[j].cell.readiness, trace[j].calls[steps[j].p].live);
  }

  /** Offline is reported only by a client that was Ready before, in every interleaving. */
  lemma {:induction false} OfflineWasReady(policy: StartupPolicy, trace: seq<State>, steps: seq<Step>, k: nat)
    requires Run(policy, trace, steps) && k < |trace|
    ensures trace[k].cell.status.Offline? ==> WasReady(trace, k)
    ensures forall p :: p in trace[k].calls && HeldLive(trace[k].calls[p]) ==> WasReady(trace, k)
  {
    if k > 0 {
      OfflineWasReady(policy, trace, steps, k - 1);
      RunStep(policy, trace, steps, k);
      assert WasReady(trace, k - 1) ==> WasReady(trace, k);
      assert trace[k - 1].cell.status.StatusReady? ==> WasReady(trace, k);
    }
  }

  predicate HeldLive(call: Call) { (call.Loaded? || call.Modified? || call.Tested? || call.Derives?) && call.live }

  ghost predicate WasReady(trace: seq<State>, k: nat)
    requires k < |trace|
  {
    exists i :: 0 <= i <= k && trace[i].cell.status.StatusReady?
  }

  /** One call reads the components, a whole other call follows, then the first stores. */
  lemma UpdateOvertaken(policy: StartupPolicy, s: State, p: nat, q: nat, r: Readiness)
    returns (steps: seq<Step>, s': State)
    requires p in s.calls && s.calls[p].Tested? && q !in s.calls
    ensures Leads(Moves(policy), s, steps, s') && s'.cell.readiness == r
    ensures s'.calls == s.calls[p := Returned][q := Returned]
    ensures s'.cell.status == Derived(s.cell.readiness, policy, s.calls[p].live, StatusReady)
  {
    var s2 := Act(policy, s, ReadComponents(p));
    var mid, s3 := AloneIsAtomic(policy, s2, q, r);
    s' := Act(policy, s3, StoreStatus(p));
    assert s'.calls == s.calls[p := Returned][q := Returned];
    One(Moves(policy), s, ReadComponents(p), Act(policy, s, ReadComponents(p)));
    One(Moves(policy), s3, StoreStatus(p), Act(policy, s3, StoreStatus(p)));
    LeadsThen(Moves(policy), s2, mid, s3, [StoreStatus(p)], s');
    steps := [ReadComponents(p)] + (mid + [StoreStatus(p)]);
    LeadsThen(Moves(policy), s, [ReadComponents(p)], s2, mid + [StoreStatus(p)], s');
  }

  /** Two calls, both returned: the status says Ready while the stream is degraded. */
  lemma StaleStatus() returns (trace: seq<State>, steps: seq<Step>)
    ensures Run(Essential, trace, steps)
    ensures var s := trace[|steps|];
            && s.cell.status.StatusReady? && s.cell.readiness.sseConnectivity.Degraded?
            && forall p :: p in s.calls ==> s.calls[p].Returned?
  {
    var s1 := OpeningLeads(Essential, START, 0, GOOD);
    var rest, s2 := UpdateOvertaken(Essential, s1, 0, 1, GOOD.(sseConnectivity := Degraded));
    steps := Opening(0, GOOD) + rest;
    LeadsThen(Moves(Essential), START, Opening(0, GOOD), s1, rest, s2);
    trace := LeadsTrace(Moves(Essential), START, steps, s2);
  }
}
