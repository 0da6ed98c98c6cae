/**
 Concurrent `register` and `close` calls, at the grain of their atomic loads, stores and
 swaps, their sections under the task lock, and the end of each task.

 Each call has a number of its own; a register call brings the task with its number.
 */
module Lifecycle {
  import opened Orderings

  datatype Outcome = Complete | Failed(message: string)

  /** A register call: first load, lock, second load, push. */
  datatype Register = RegEnter | RegWait | RegLocked | RegChecked | Accepted | Refused

  /** A close call: the winner of the swap shuts down, the others await the completion. */
  datatype Close =
    | CloseEnter
    | Swapping
    | Stopping
    | Taking
    | Joining(rest: seq<nat>)
    | ClosingStore
    | Marking(outcome: Outcome)
    | Announcing(outcome: Outcome)
    | Awaiting
    | Returned(outcome: Outcome)

  datatype State = State(
    accepting: bool,
    closing: bool,
    closed: bool,
    lock: Option<nat>,
    tasks: seq<nat>,
    completion: Option<Outcome>,
    registers: map<nat, Register>,
    closes: map<nat, Close>,
    finished: set<nat>,
    owner: Option<nat>,
    taken: Option<seq<nat>>,
    storeCloses: seq<Outcome>,
    announcements: nat)

  const START := State(true, false, false, None, [], None, map[], map[], {}, None, None, [], 0)

  datatype Step =
    | CallRegister(p: nat)
    | LoadFirst(p: nat)
    | Lock(p: nat)
    | LoadSecond(p: nat)
    | Push(p: nat)
    | CallClose(p: nat)
    | LoadClosed(p: nat)
    | Swap(p: nat)
    | StopAccepting(p: nat)
    | TakeTasks(p: nat)
    | JoinNext(p: nat)
    | JoinedAll(p: nat)
    | CloseStore(p: nat, outcome: Outcome)
    | MarkClosed(p: nat)
    | Announce(p: nat)
    | Observe(p: nat)
    | TaskEnds(task: nat)

  predicate IsRegister(s: State, p: nat, at: Register) { p in s.registers && s.registers[p] == at }

  predicate IsClose(s: State, p: nat, at: Close) { p in s.closes && s.closes[p] == at }

  predicate Enabled(s: State, step: Step) {
    match step
    case CallRegister(p) => p !in s.registers
    case LoadFirst(p) => IsRegister(s, p, RegEnter)
    case Lock(p) => IsRegister(s, p, RegWait) && s.lock.None?
    case LoadSecond(p) => IsRegister(s, p, RegLocked)
    case Push(p) => IsRegister(s, p, RegChecked)
    case CallClose(p) => p !in s.closes
    case LoadClosed(p) => IsClose(s, p, CloseEnter)
    case Swap(p) => IsClose(s, p, Swapping)
    case StopAccepting(p) => IsClose(s, p, Stopping)
    case TakeTasks(p) => IsClose(s, p, Taking) && s.lock.None?
    case JoinNext(p) =>
      p in s.closes && s.closes[p].Joining? && s.closes[p].rest != [] && s.closes[p].rest[0] in s.finished
    case JoinedAll(p) => IsClose(s, p, Joining([]))
    case CloseStore(p, _) => IsClose(s, p, ClosingStore)
    case MarkClosed(p) => p in s.closes && s.closes[p].Marking?
    case Announce(p) => p in s.closes && s.closes[p].Announcing?
    case Observe(p) => IsClose(s, p, Awaiting) && s.completion.Some?
    case TaskEnds(_) => true
  }

  function Reg(s: State, p: nat, at: Register): State { s.(registers := s.registers[p := at]) }

  function Cls(s: State, p: nat, at: Close): State { s.(closes := s.closes[p := at]) }

  function Act(s: State, step: Step): State
    requires Enabled(s, step)
  {
    match step
    case CallRegister(p) => Reg(s, p, RegEnter)
    case LoadFirst(p) => Reg(s, p, if s.accepting then RegWait else Refused)
    case Lock(p) => Reg(s, p, RegLocked).(lock := Some(p))
    case LoadSecond(p) =>
      if s.accepting then Reg(s, p, RegChecked) else Reg(s, p, Refused).(lock := None)
    case Push(p) => Reg(s, p, Accepted).(lock := None, tasks := s.tasks + [p])
    case CallClose(p) => Cls(s, p, CloseEnter)
    case LoadClosed(p) => Cls(s, p, if s.closed then Awaiting else Swapping)
    case Swap(p) =>
      if s.closing then Cls(s, p, Awaiting) else Cls(s, p, Stopping).(closing := true, owner := Some(p))
    case StopAccepting(p) => Cls(s, p, Taking).(accepting := false)
    case TakeTasks(p) => Cls(s, p, Joining(s.tasks)).(tasks := [], taken := Some(s.tasks))
    case JoinNext(p) => Cls(s, p, Joining(s.closes[p].rest[1..]))
    case JoinedAll(p) => Cls(s, p, ClosingStore)
    case CloseStore(p, outcome) => Cls(s, p, Marking(outcome)).(storeCloses := s.storeCloses + [outcome])
    case MarkClosed(p) => Cls(s, p, Announcing(s.closes[p].outcome)).(closed := true)
    case Announce(p) =>
      Cls(s, p, Returned(s.closes[p].outcome))
      .(completion := Some(s.closes[p].outcome), announcements := s.announcements + 1)
    case Observe(p) => Cls(s, p, Returned(s.completion.value))
    case TaskEnds(t) => s.(finished := s.finished + {t})
  }

  ghost predicate Run(trace: seq<State>, steps: seq<Step>) {
    && |trace| == |steps| + 1 && trace[0] == START
    && forall i :: 0 <= i < |steps| ==> Enabled(trace[i], steps[i]) && trace[i + 1] == Act(trace[i], steps[i])
  }

  // ----- the invariant -------------------------------------------------------------

  /** How far the shutdown has come. */
  datatype Phase =
    | NotBegun | Begun | Stopped | Collecting(rest: seq<nat>) | Joined
    | Stored(o: Outcome) | Marked(o: Outcome) | Done(o: Outcome)

  /** The phase a close call is responsible for, if it is the winner. */
  function PhaseOf(at: Close): Option<Phase> {
    match at
    case Stopping => Some(Begun)
    case Taking => Some(Stopped)
    case Joining(rest) => Some(Collecting(rest))
    case ClosingStore => Some(Joined)
    case Marking(o) => Some(Stored(o))
    case Announcing(o) => Some(Marked(o))
    case _ => None
  }

  /** The phase of the whole state: the owner's, done once it has announced. */
  function Progress(s: State): Phase {
    if s.owner.None? then NotBegun
    else if s.completion.Some? then Done(s.completion.value)
    else if s.owner.value in s.closes && PhaseOf(s.closes[s.owner.value]).Some?
    then PhaseOf(s.closes[s.owner.value]).value
    else Begun
  }

  predicate Past(phase: Phase) { !phase.NotBegun? && !phase.Begun? }

  predicate Took(phase: Phase) { Past(phase) && !phase.Stopped? }

  predicate Closed(phase: Phase) { phase.Stored? || phase.Marked? || phase.Done? }

  /** Only the owner is in the shutdown; everyone who returned got the announced outcome. */
  ghost predicate CallersOk(s: State) {
    && (s.closing <==> s.owner.Some?) && (s.completion.Some? ==> s.owner.Some?)
    && (forall p <- s.closes.Keys :: s.closes[p].Awaiting? ==> s.owner.Some?)
    && (forall p <- s.closes.Keys :: PhaseOf(s.closes[p]).Some? ==> s.owner == Some(p) && s.completion.None?)
    && (s.owner.Some? && s.completion.None? ==>
          s.owner.value in s.closes && PhaseOf(s.closes[s.owner.value]).Some?)
    && (forall p <- s.closes.Keys :: s.closes[p].Returned? ==> s.completion == Some(s.closes[p].outcome))
  }

  /** The lock is held exactly by the register call between its two loads and its push. */
  ghost predicate LockOk(s: State) {
    && (forall p <- s.registers.Keys :: (s.registers[p].RegLocked? || s.registers[p].RegChecked?) ==> s.lock == Some(p))
    && (s.lock.Some? ==> s.lock.value in s.registers
                         && (s.registers[s.lock.value].RegLocked? || s.registers[s.lock.value].RegChecked?))
  }

  /** Accepted tasks are in the vector, or were in it when it was taken. */
  ghost predicate TasksOk(s: State) {
    var phase := Progress(s);
    && (Past(phase) ==> !s.accepting)
    && (s.taken.Some? <==> Took(phase))
    && (forall p <- s.registers.Keys :: s.registers[p].Accepted? ==>
                                          p in s.tasks || (s.taken.Some? && p in s.taken.value))
    && (forall t <- s.tasks :: IsRegister(s, t, Accepted))
    && (s.taken.Some? ==> forall t <- s.taken.value :: IsRegister(s, t, Accepted))
    && (phase.Collecting? ==> forall t <- phase.rest :: t in s.taken.value)
    && (Took(phase) ==> s.tasks == [] && forall p <- s.registers.Keys :: !s.registers[p].RegChecked?)
    && (phase.Collecting? ==> forall t <- s.taken.value :: t in s.finished || t in phase.rest)
    && (Took(phase) && !phase.Collecting? ==> forall t <- s.taken.value :: t in s.finished)
  }

  /** Store closed once, then marked, then announced once. */
  ghost predicate StoreOk(s: State) {
    var phase := Progress(s);
    && s.storeCloses == (if Closed(phase) then [phase.o] else [])
    && (s.closed <==> phase.Marked? || phase.Done?)
    && s.announcements == (if s.completion.Some? then 1 else 0)
  }

  ghost predicate Inv(s: State) { CallersOk(s) && LockOk(s) && TasksOk(s) && StoreOk(s) }

  /** A step that leaves the close calls and what they set alone. */
  lemma RegisterFrame(s: State, s': State)
    requires CallersOk(s) && StoreOk(s)
    requires s' == s.(accepting := s'.accepting, lock := s'.lock, tasks := s'.tasks, registers := s'.registers,
                      finished := s'.finished)
    ensures Progress(s') == Progress(s) && CallersOk(s') && StoreOk(s')
  {
  }

  /** A step that leaves the register calls, the tasks and the phase alone. */
  lemma CloseFrame(s: State, s': State)
    requires LockOk(s) && TasksOk(s) && StoreOk(s) && Progress(s') == Progress(s)
    requires s' == s.(closes := s'.closes, closing := s'.closing, owner := s'.owner)
    ensures LockOk(s') && TasksOk(s') && StoreOk(s')
  {
  }

  /** Steps of register calls outside the lock, and ends of tasks. */
  lemma OutsideStep(s: State, step: Step)
    requires Inv(s) && Enabled(s, step) && (step.CallRegister? || step.LoadFirst? || step.TaskEnds?)
    ensures Inv(Act(s, step))
  {
    RegisterFrame(s, Act(s, step));
    if !step.TaskEnds? {
      TasksKept(s, Act(s, step), step.p);
    }
  }

  /** A register call that moves without being accepted before or after. */
  lemma TasksKept(s: State, s': State, p: nat)
    requires TasksOk(s) && Progress(s') == Progress(s)
    requires s' == s.(registers := s'.registers, lock := s'.lock)
    requires p in s'.registers && s'.registers == s.registers[p := s'.registers[p]]
    requires (p in s.registers ==> !s.registers[p].Accepted?) && !s'.registers[p].Accepted?
    requires s'.registers[p].RegChecked? ==> s.accepting
    ensures TasksOk(s')
  {
    assert Took(Progress(s)) ==> !s.accepting;
    forall t | IsRegister(s, t, Accepted) ensures IsRegister(s', t, Accepted) {
      assert t != p;
    }
  }

  /** Steps of the register call that takes or holds the lock. */
  lemma LockedStep(s: State, step: Step)
    requires Inv(s) && Enabled(s, step) && (step.Lock? || step.LoadSecond?)
    ensures Inv(Act(s, step))
  {
    RegisterFrame(s, Act(s, step));
    TasksKept(s, Act(s, step), step.p);
  }

  lemma PushStep(s: State, p: nat)
    requires Inv(s) && Enabled(s, Push(p))
    ensures Inv(Act(s, Push(p)))
  {
    RegisterFrame(s, Act(s, Push(p)));
  }

  /** Calls that do not shut down: entering, losing the swap, awaiting, observing. */
  lemma BystanderStep(s: State, step: Step)
    requires Inv(s) && Enabled(s, step)
    requires step.CallClose? || step.LoadClosed? || step.Observe? || (step.Swap? && s.closing)
    ensures Inv(Act(s, step))
  {
    BystanderMoves(s, step);
    BystanderCallers(s, Act(s, step), step.p);
    CloseFrame(s, Act(s, step));
  }

  lemma BystanderMoves(s: State, step: Step)
    requires CallersOk(s) && StoreOk(s) && Enabled(s, step)
    requires step.CallClose? || step.LoadClosed? || step.Observe? || (step.Swap? && s.closing)
    ensures var s', p := Act(s, step), step.p;
            && s' == s.(closes := s'.closes) && p in s'.closes && s'.closes == s.closes[p := s'.closes[p]]
            && PhaseOf(s'.closes[p]).None? && (p in s.closes ==> PhaseOf(s.closes[p]).None?)
            && (s'.closes[p].Awaiting? ==> s.closing || s.closed)
            && (s'.closes[p].Returned? ==> s.completion == Some(s'.closes[p].outcome))
  {
  }

  lemma BystanderCallers(s: State, s': State, p: nat)
    requires CallersOk(s) && StoreOk(s)
    requires s' == s.(closes := s'.closes) && p in s'.closes && s'.closes == s.closes[p := s'.closes[p]]
    requires PhaseOf(s'.closes[p]).None? && (p in s.closes ==> PhaseOf(s.closes[p]).None?)
    requires s'.closes[p].Awaiting? ==> s.closing || s.closed
    requires s'.closes[p].Returned? ==> s.completion == Some(s'.closes[p].outcome)
    ensures CallersOk(s') && Progress(s') == Progress(s)
  {
    assert s.owner.Some? && s.completion.None? ==> s.owner != Some(p);
  }

  lemma WinStep(s: State, p: nat)
    requires Inv(s) && Enabled(s, Swap(p)) && !s.closing
    ensures Inv(Act(s, Swap(p)))
  {
    assert Progress(s) == NotBegun && Progress(Act(s, Swap(p))) == Begun;
  }

  /** The owner moves within the shutdown. */
  lemma OwnerCallers(s: State, s': State, p: nat)
    requires CallersOk(s) && p in s.closes && PhaseOf(s.closes[p]).Some?
    requires s'.closing == s.closing && s'.owner == s.owner && s'.completion == s.completion
    requires p in s'.closes && s'.closes == s.closes[p := s'.closes[p]] && PhaseOf(s'.closes[p]).Some?
    ensures CallersOk(s') && Progress(s) == PhaseOf(s.closes[p]).value && Progress(s') == PhaseOf(s'.closes[p]).value
  {
  }

  /** The owner stops registrations. */
  lemma StopStep(s: State, p: nat)
    requires Inv(s) && Enabled(s, StopAccepting(p))
    ensures Inv(Act(s, StopAccepting(p)))
  {
    OwnerCallers(s, Act(s, StopAccepting(p)), p);
  }

  lemma JoinedStep(s: State, p: nat)
    requires Inv(s) && Enabled(s, JoinedAll(p))
    ensures Inv(Act(s, JoinedAll(p)))
  {
    OwnerCallers(s, Act(s, JoinedAll(p)), p);
  }

  lemma TakeStep(s: State, p: nat)
    requires Inv(s) && Enabled(s, TakeTasks(p))
    ensures Inv(Act(s, TakeTasks(p)))
  {
    OwnerCallers(s, Act(s, TakeTasks(p)), p);
  }

  lemma JoinStep(s: State, p: nat)
    requires Inv(s) && Enabled(s, JoinNext(p))
    ensures Inv(Act(s, JoinNext(p)))
  {
    OwnerCallers(s, Act(s, JoinNext(p)), p);
    JoinTasks(s, Act(s, JoinNext(p)), s.closes[p].rest);
  }

  lemma JoinTasks(s: State, s': State, rest: seq<nat>)
    requires TasksOk(s) && Progress(s) == Collecting(rest) && rest != [] && rest[0] in s.finished
    requires s' == s.(closes := s'.closes) && Progress(s') == Collecting(rest[1..])
    ensures TasksOk(s')
  {
    assert rest == [rest[0]] + rest[1..];
  }

  lemma EndStep(s: State, step: Step)
    requires Inv(s) && Enabled(s, step) && (step.CloseStore? || step.MarkClosed?)
    ensures Inv(Act(s, step))
  {
    OwnerCallers(s, Act(s, step), step.p);
  }

  lemma AnnounceStep(s: State, p: nat)
    requires Inv(s) && Enabled(s, Announce(p))
    ensures Inv(Act(s, Announce(p)))
  {
    assert PhaseOf(s.closes[p]).Some? && s.owner == Some(p);
    assert Progress(s) == PhaseOf(s.closes[p]).value && Progress(Act(s, Announce(p))) == Done(s.closes[p].outcome);
  }

  lemma InvStep(s: State, step: Step)
    requires Inv(s) && Enabled(s, step)
    ensures Inv(Act(s, step))
  {
    if step.CallRegister? || step.LoadFirst? || step.TaskEnds? {
      OutsideStep(s, step);
    } else if step.Lock? || step.LoadSecond? {
      LockedStep(s, step);
    } else if step.Push? {
      PushStep(s, step.p);
    } else if step.CallClose? || step.LoadClosed? || step.Observe? || (step.Swap? && s.closing) {
      BystanderStep(s, step);
    } else if step.Swap? {
      WinStep(s, step.p);
    } else if step.CloseStore? || step.MarkClosed? {
      EndStep(s, step);
    } else if step.Announce? {
      AnnounceStep(s, step.p);
    } else if step.TakeTasks? {
      TakeStep(s, step.p);
    } else if step.JoinNext? {
      JoinStep(s, step.p);
    } else if step.StopAccepting? {
      StopStep(s, step.p);
    } else {
      JoinedStep(s, step.p);
    }
  }

  lemma {:induction false} InvAlways(trace: seq<State>, steps: seq<Step>, k: nat)
    requires Run(trace, steps) && k < |trace|
    ensures Inv(trace[k])
  {
    if k > 0 {
      InvAlways(trace, steps, k - 1);
      InvStep(trace[k - 1], steps[k - 1]);
    }
  }

  // ----- what the callers may rely on ----------------------------------------------

  /** A caller inside the shutdown, past the swap it won. */
  predicate ShutsDown(at: Close) { PhaseOf(at).Some? }

  /**
   In every state of every interleaving: at most one caller does the shutdown; the store is
   closed at most once, and by then every task whose registration succeeded has finished;
   the completion is set at most once; and every close call that returned did so after the
   store was closed, with the outcome of that closing.
   */
  lemma ShutdownSafe(trace: seq<State>, steps: seq<Step>, k: nat)
    requires Run(trace, steps) && k < |trace|
    ensures var s := trace[k];
            && (forall p, q :: p in s.closes && q in s.closes && ShutsDown(s.closes[p]) && ShutsDown(s.closes[q]) ==>
                p == q)
            && |s.storeCloses| <= 1 && s.announcements <= 1
            && (s.storeCloses != [] ==> forall p <- s.registers.Keys :: s.registers[p].Accepted? ==> p in s.finished)
            && (s.completion.Some? ==> s.storeCloses == [s.completion.value])
            && (forall p <- s.closes.Keys :: s.closes[p].Returned? ==> s.storeCloses == [s.closes[p].outcome])
  {
    InvAlways(trace, steps, k);
  }

  /** A step after the tasks are taken takes no others and accepts no registration. */
  lemma TakenStep(s: State, step: Step, p: nat)
    requires CallersOk(s) && TasksOk(s) && Enabled(s, step) && s.taken.Some?
    ensures Act(s, step).taken == s.taken
    ensures IsRegister(Act(s, step), p, Accepted) ==> IsRegister(s, p, Accepted)
  {
    if step.TakeTasks? {
      NobodyTakes(s, step.p);
      assert false;
    }
  }

  lemma NobodyTakes(s: State, p: nat)
    requires CallersOk(s) && TasksOk(s) && s.taken.Some? && p in s.closes
    ensures !s.closes[p].Taking?
  {
    assert s.closes[p].Taking? ==> Progress(s) == Stopped;
  }

  /** Once the tasks are taken no registration succeeds any more. */
  lemma {:induction false} NoLateRegistration(trace: seq<State>, steps: seq<Step>, i: nat, k: nat, p: nat)
    requires Run(trace, steps) && i <= k < |trace| && trace[i].taken.Some?
    ensures trace[k].taken == trace[i].taken
    ensures IsRegister(trace[k], p, Accepted) ==> IsRegister(trace[i], p, Accepted)
    decreases k
  {
    if i < k {
      NoLateRegistration(trace, steps, i, k - 1, p);
      InvAlways(trace, steps, k - 1);
      TakenStep(trace[k - 1], steps[k - 1], p);
    }
  }

  // ----- who is accepted -----------------------------------------------------------

  /** A load of the accepting flag by a register call. */
  predicate Loads(step: Step, p: nat) { step == LoadFirst(p) || step == LoadSecond(p) }

  ghost predicate FoundShut(trace: seq<State>, steps: seq<Step>, p: nat, k: nat)
    requires k <= |steps| < |trace|
  {
    exists i :: 0 <= i < k && Loads(steps[i], p) && !trace[i].accepting
  }

  /** A registration is refused exactly when one of its two loads found the client no longer accepting. */
  lemma {:induction false} RefusedExactly(trace: seq<State>, steps: seq<Step>, p: nat, k: nat)
    requires Run(trace, steps) && k < |trace|
    ensures IsRegister(trace[k], p, Refused) <==> FoundShut(trace, steps, p, k)
    ensures p !in trace[k].registers ==> !FoundShut(trace, steps, p, k)
  {
    if k > 0 {
      RefusedExactly(trace, steps, p, k - 1);
      var s, step := trace[k - 1], steps[k - 1];
      assert Enabled(s, step) && trace[k] == Act(s, step);
      assert FoundShut(trace, steps, p, k) <==> FoundShut(trace, steps, p, k - 1) || (Loads(step, p) && !s.accepting);
    }
  }

  /** The client accepts until a close call stops it. */
  lemma {:induction false} AcceptsUntilStopped(trace: seq<State>, steps: seq<Step>, k: nat)
    requires Run(trace, steps) && k < |trace|
    ensures trace[k].accepting <==> forall i :: 0 <= i < k ==> !steps[i].StopAccepting?
  {
    if k > 0 {
      AcceptsUntilStopped(trace, steps, k - 1);
      assert Enabled(trace[k - 1], steps[k - 1]) && trace[k] == Act(trace[k - 1], steps[k - 1]);
    }
  }

  /** The call up to the lock. */
  lemma RegisterWaits(s: State, p: nat) returns (m: State)
    requires s.accepting && p !in s.registers
    ensures Enabled(s, CallRegister(p)) && Enabled(Act(s, CallRegister(p)), LoadFirst(p))
    ensures m == Act(Act(s, CallRegister(p)), LoadFirst(p)) == s.(registers := s.registers[p := RegWait])
  {
    m := Act(Act(s, CallRegister(p)), LoadFirst(p));
    assert m.registers == s.registers[p := RegWait];
  }

  /** The call under the lock. */
  lemma RegisterPushes(s: State, p: nat) returns (m: State)
    requires s.accepting && s.lock.None? && IsRegister(s, p, RegWait)
    ensures Enabled(s, Lock(p)) && Enabled(Act(s, Lock(p)), LoadSecond(p))
    ensures m == Act(Act(s, Lock(p)), LoadSecond(p)) && Enabled(m, Push(p))
    ensures Act(m, Push(p)) == s.(registers := s.registers[p := Accepted], tasks := s.tasks + [p])
  {
    m := Act(Act(s, Lock(p)), LoadSecond(p));
    assert Act(m, Push(p)).registers == s.registers[p := Accepted];
  }

  /**
   A call that meets an accepting client and a free lock is accepted, and its task is listed
   last; nothing else changes.
   */
  lemma RegisterAccepted(s: State, p: nat) returns (waits: State, pushes: State)
    requires s.accepting && s.lock.None? && p !in s.registers
    ensures Enabled(s, CallRegister(p)) && Enabled(Act(s, CallRegister(p)), LoadFirst(p))
    ensures waits == Act(Act(s, CallRegister(p)), LoadFirst(p))
    ensures Enabled(waits, Lock(p)) && Enabled(Act(waits, Lock(p)), LoadSecond(p))
    ensures pushes == Act(Act(waits, Lock(p)), LoadSecond(p)) && Enabled(pushes, Push(p))
    ensures Act(pushes, Push(p)) == s.(registers := s.registers[p := Accepted], tasks := s.tasks + [p])
  {
    waits := RegisterWaits(s, p);
    pushes := RegisterPushes(waits, p);
    assert waits.registers[p := Accepted] == s.registers[p := Accepted];
  }
}
