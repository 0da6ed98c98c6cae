/** Shutdown ends: helping steps run out, and then every close call has returned. */
module LifecycleProgress {
  import opened Orderings
  import opened Lifecycle

  /** A step of a close call under way or of the register call that holds the lock, or the end of an accepted task. */
  predicate Helps(s: State, step: Step) {
    if step.CallRegister? || step.CallClose? then false
    else if step.TaskEnds? then IsRegister(s, step.task, Accepted) && step.task !in s.finished
    else if step.LoadFirst? || step.Lock? || step.LoadSecond? || step.Push? then s.lock == Some(step.p)
    else step.p in s.closes
  }

  ghost predicate AllReturned(s: State) { forall c <- s.closes.Keys :: s.closes[c].Returned? }

  ghost predicate TasksEnded(s: State) { forall p <- s.registers.Keys :: s.registers[p].Accepted? ==> p in s.finished }

  /** Nobody waits in vain: while a close call has not returned, some helping step is enabled. */
  lemma NoDeadlock(s: State, c: nat) returns (step: Step)
    requires Inv(s) && c in s.closes && !s.closes[c].Returned?
    ensures Enabled(s, step) && Helps(s, step)
    ensures TasksEnded(s) ==> !step.TaskEnds?
  {
    match s.closes[c]
    case CloseEnter => step := LoadClosed(c);
    case Swapping => step := Swap(c);
    case Awaiting =>
      if s.completion.Some? {
        step := Observe(c);
      } else {
        step := OwnerMoves(s, s.owner.value);
      }
    case _ => step := OwnerMoves(s, c);
  }

  /** The owner can move, or the holder of the lock or the task it waits for can. */
  lemma OwnerMoves(s: State, p: nat) returns (step: Step)
    requires Inv(s) && p in s.closes && ShutsDown(s.closes[p])
    ensures Enabled(s, step) && Helps(s, step)
    ensures TasksEnded(s) ==> !step.TaskEnds?
  {
    match s.closes[p]
    case Stopping => step := StopAccepting(p);
    case Taking =>
      step := if s.lock.None? then TakeTasks(p)
              else if s.registers[s.lock.value].RegLocked? then LoadSecond(s.lock.value) else Push(s.lock.value);
    case Joining(rest) =>
      assert Progress(s) == Collecting(rest);
      if rest != [] {
        assert IsRegister(s, rest[0], Accepted);
      }
      step := if rest == [] then JoinedAll(p) else if rest[0] in s.finished then JoinNext(p) else TaskEnds(rest[0]);
    case ClosingStore => step := CloseStore(p, Complete);
    case Marking(_) => step := MarkClosed(p);
    case Announcing(_) => step := Announce(p);
  }

  /** How far a close call is from its return, joins aside. */
  function Level(at: Close): nat {
    match at
    case CloseEnter => 8
    case Swapping => 7
    case Stopping => 6
    case Taking => 5
    case Joining(_) => 4
    case ClosingStore => 3
    case Marking(_) => 2
    case Announcing(_) => 1
    case Awaiting => 1
    case Returned(_) => 0
  }

  ghost function AtLevel(closes: map<nat, Close>, n: nat): set<nat> { set p | p in closes && Level(closes[p]) >= n }

  /** The sum of the levels, counted level by level. */
  ghost function Height(closes: map<nat, Close>, n: nat): nat {
    if n == 0 then 0 else Height(closes, n - 1) + |AtLevel(closes, n)|
  }

  lemma Shrinks(a: set<nat>, b: set<nat>)
    requires a <= b
    ensures |a| <= |b| && (a != b ==> |a| < |b|)
    decreases b
  {
    if p :| p in a {
      Shrinks(a - {p}, b - {p});
      assert a == (a - {p}) + {p} && b == (b - {p}) + {p};
    } else {
      assert a == {};
    }
  }

  lemma {:induction false} HeightDrops(closes: map<nat, Close>, p: nat, to: Close, n: nat)
    requires p in closes && Level(to) <= Level(closes[p])
    ensures Height(closes[p := to], n) <= Height(closes, n)
    ensures Level(to) < Level(closes[p]) <= n ==> Height(closes[p := to], n) < Height(closes, n)
  {
    if n > 0 {
      HeightDrops(closes, p, to, n - 1);
      var a, b := AtLevel(closes[p := to], n), AtLevel(closes, n);
      if Level(to) < n == Level(closes[p]) {
        assert p in b && p !in a;
      }
      Shrinks(a, b);
    }
  }

  function Joins(s: State): nat { if Progress(s).Collecting? then |Progress(s).rest| else 0 }

  function LockWork(s: State): nat {
    if s.lock.Some? && s.lock.value in s.registers then
      if s.registers[s.lock.value].RegLocked? then 4 else if s.registers[s.lock.value].RegChecked? then 3 else 0
    else 0
  }

  ghost function Unfinished(s: State): set<nat> {
    set p | p in s.registers && s.registers[p].Accepted? && p !in s.finished
  }

  /** Work left: close calls, joins, tasks to hand over, the register call under the lock, tasks to end. */
  ghost function Work(s: State): nat {
    Height(s.closes, 8) + Joins(s) + |s.tasks| + LockWork(s) + |Unfinished(s)|
  }

  /** A step of a close call under way. */
  predicate OfClose(step: Step) {
    || step.LoadClosed? || step.Swap? || step.StopAccepting? || step.TakeTasks? || step.JoinNext? || step.JoinedAll?
    || step.CloseStore? || step.MarkClosed? || step.Announce? || step.Observe?
  }

  /** A close call moves down a level, or joins one task. */
  lemma CloseActs(s: State, step: Step)
    requires Enabled(s, step) && OfClose(step)
    ensures var s', p := Act(s, step), step.p;
            && s'.closes == s.closes[p := s'.closes[p]] && p in s.closes
            && Level(s'.closes[p]) <= Level(s.closes[p])
            && (!step.JoinNext? ==> Level(s'.closes[p]) < Level(s.closes[p]))
            && s'.registers == s.registers && s'.lock == s.lock && s'.finished == s.finished
  {
    assert Act(s, step).closes == s.closes[step.p := Act(s, step).closes[step.p]];
  }

  lemma LessWork(s: State, s': State, p: nat, to: Close)
    requires p in s.closes && s'.closes == s.closes[p := to] && Level(to) <= Level(s.closes[p])
    requires s'.registers == s.registers && s'.lock == s.lock && s'.finished == s.finished
    requires Joins(s') + |s'.tasks| <= Joins(s) + |s.tasks|
    requires Level(to) < Level(s.closes[p]) || Joins(s') + |s'.tasks| < Joins(s) + |s.tasks|
    ensures Work(s') < Work(s)
  {
    HeightDrops(s.closes, p, to, 8);
  }

  lemma CloseWork(s: State, step: Step)
    requires CallersOk(s) && StoreOk(s) && Enabled(s, step) && OfClose(step)
    ensures Work(Act(s, step)) < Work(s)
  {
    CloseActs(s, step);
    if ShutsDown(s.closes[step.p]) {
      OwnerJoins(s, step);
    } else {
      OtherJoins(s, step);
    }
    LessWork(s, Act(s, step), step.p, Act(s, step).closes[step.p]);
  }

  /** Handing over the tasks turns them into joins; the owner's other steps make neither. */
  lemma OwnerJoins(s: State, step: Step)
    requires CallersOk(s) && Enabled(s, step) && OfClose(step) && ShutsDown(s.closes[step.p])
    ensures Joins(Act(s, step)) + |Act(s, step).tasks| <= Joins(s) + |s.tasks|
    ensures step.JoinNext? ==> Joins(Act(s, step)) + |Act(s, step).tasks| < Joins(s) + |s.tasks|
  {
    assert s.owner == Some(step.p) && Progress(s) == PhaseOf(s.closes[step.p]).value;
  }

  lemma OtherJoins(s: State, step: Step)
    requires CallersOk(s) && StoreOk(s) && Enabled(s, step) && OfClose(step) && !ShutsDown(s.closes[step.p])
    ensures !step.JoinNext? && Joins(Act(s, step)) == Joins(s) && Act(s, step).tasks == s.tasks
  {
    if !(step.Swap? && !s.closing) {
      BystanderCallers(s, Act(s, step), step.p);
    }
  }

  lemma RegisterWork(s: State, step: Step)
    requires CallersOk(s) && StoreOk(s) && LockOk(s) && Enabled(s, step) && (step.LoadSecond? || step.Push?)
    ensures Work(Act(s, step)) < Work(s)
  {
    var s', p := Act(s, step), step.p;
    RegisterFrame(s, s');
    if step.Push? {
      assert Unfinished(s') <= Unfinished(s) + {p};
      Shrinks(Unfinished(s'), Unfinished(s) + {p});
    } else {
      assert Unfinished(s') == Unfinished(s);
    }
  }

  /** Every helping step leaves less work. */
  lemma HelpDecreases(s: State, step: Step)
    requires Inv(s) && Enabled(s, step) && Helps(s, step)
    ensures Work(Act(s, step)) < Work(s)
  {
    if step.TaskEnds? {
      RegisterFrame(s, Act(s, step));
      assert Unfinished(Act(s, step)) == Unfinished(s) - {step.task};
    } else if step.LoadSecond? || step.Push? {
      RegisterWork(s, step);
    } else {
      assert OfClose(step);
      CloseWork(s, step);
    }
  }

  /** The steps lead from `s` to `s'`, each of them helping. */
  ghost predicate HelpsAlong(s: State, steps: seq<Step>, s': State)
    decreases |steps|
  {
    if steps == [] then s == s'
    else Enabled(s, steps[0]) && Helps(s, steps[0]) && HelpsAlong(Act(s, steps[0]), steps[1..], s')
  }

  /**
   Helping steps alone, in whatever order they are taken, run out within the work left, and
   when none is enabled any more every close call has returned.
   */
  lemma {:induction false} ClosesReturn(s: State, steps: seq<Step>, s': State)
    requires Inv(s) && HelpsAlong(s, steps, s')
    ensures |steps| + Work(s') <= Work(s) && Inv(s')
    ensures (forall step :: Enabled(s', step) ==> !Helps(s', step)) ==> AllReturned(s')
    decreases |steps|
  {
    if steps == [] {
      if c :| c in s'.closes && !s'.closes[c].Returned? {
        var step := NoDeadlock(s', c);
      }
    } else {
      HelpDecreases(s, steps[0]);
      InvStep(s, steps[0]);
      ClosesReturn(Act(s, steps[0]), steps[1..], s');
    }
  }
}
