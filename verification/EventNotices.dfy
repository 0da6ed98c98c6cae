/** Exactly which events are notified, which history rows exist, and which of them are visible. */
module EventNotices {
  import opened Orderings
  import opened EventPipeline
  import opened EventJournal

  /** Identities are ordered by milliseconds, then by sequence; malformed ones not at all. */
  lemma BeforeWritten(a: EventId, b: EventId)
    ensures Before(a, b) <==> && a.Stream? && b.Stream?
                              && (a.millis < b.millis || (a.millis == b.millis && a.sequence < b.sequence))
  {
  }

  // ----- notifications -------------------------------------------------------------

  /** The step ends the application of `x` with its evidence resolved. */
  ghost predicate Notifies<P(!new)>(s: State<P>, step: Step, x: EventId) {
    step.Finish? && step.resolved && s.core.stage.Committed? && s.core.stage.request.event.id == x
  }

  ghost predicate NotifiedBy<P(!new)>(trace: seq<State<P>>, steps: seq<Step>, x: EventId, k: nat)
    requires k <= |steps| < |trace|
  {
    exists i :: 0 <= i < k && Notifies(trace[i], steps[i], x)
  }

  lemma NoticeStep<P(!new)>(w: World<P>, s: State<P>, step: Step, x: EventId)
    requires Enabled(w, s, step)
    ensures x in CoreAct(w, s, step).notified <==> x in s.core.notified || Notifies(s, step, x)
  {
  }

  /** In every run an identity is notified exactly when some application of it ended resolved. */
  lemma {:induction false} NotifiedExactly<P(!new)>(w: World<P>, trace: seq<State<P>>, steps: seq<Step>, x: EventId,
                                                    k: nat)
    requires Run(w, trace, steps) && k < |trace|
    ensures x in trace[k].core.notified <==> NotifiedBy(trace, steps, x, k)
  {
    if k > 0 {
      NotifiedExactly(w, trace, steps, x, k - 1);
      assert Enabled(w, trace[k - 1], steps[k - 1]) && trace[k].core == CoreAct(w, trace[k - 1], steps[k - 1]);
      NoticeStep(w, trace[k - 1], steps[k - 1], x);
      assert NotifiedBy(trace, steps, x, k)
        <==> NotifiedBy(trace, steps, x, k - 1) || Notifies(trace[k - 1], steps[k - 1], x);
    }
  }

  /** Every commit was notified, except one whose application has not ended. */
  ghost predicate AllNotified<P(!new)>(c: Core<P>) {
    c.notified == if c.stage.Committed? && c.committed != [] then Ids(c.committed[..|c.committed| - 1])
                  else Ids(c.committed)
  }

  lemma CommitPends<P(!new)>(w: World<P>, c: Core<P>)
    requires c.stage.Staged? && AllNotified(c)
    ensures AllNotified(AfterCommit(w, c))
  {
    var c' := AfterCommit(w, c);
    assert c'.committed[..|c'.committed| - 1] == c.committed;
  }

  lemma FinishNotifies<P(!new)>(c: Core<P>, marked: bool)
    requires NoticesOk(c) && c.stage.Committed? && AllNotified(c)
    ensures AllNotified(AfterFinish(c, marked, true))
  {
    var n := |c.committed|;
    assert c.committed == c.committed[..n - 1] + [c.committed[n - 1]];
    assert Ids(c.committed) == Ids(c.committed[..n - 1]) + [c.committed[n - 1].id];
  }

  lemma NotifyAll<P(!new)>(w: World<P>, s: State<P>, step: Step)
    requires JournalOk(w, s.core) && Enabled(w, s, step) && AllNotified(s.core)
    requires !step.Restart? && (step.Finish? ==> step.resolved)
    ensures AllNotified(CoreAct(w, s, step))
  {
    if step.Commit? {
      CommitPends(w, s.core);
    } else if step.Finish? {
      FinishNotifies(s.core, step.marked);
    }
  }

  /**
   As long as no application ends unresolved and the client does not restart, an idle applier
   has notified every commit, in commit order.
   */
  lemma {:induction false} EveryCommitNotified<P(!new)>(w: World<P>, trace: seq<State<P>>, steps: seq<Step>, k: nat)
    requires Run(w, trace, steps) && k < |trace|
    requires forall i :: 0 <= i < k ==> !steps[i].Restart? && (steps[i].Finish? ==> steps[i].resolved)
    ensures AllNotified(trace[k].core)
    ensures trace[k].core.stage.Idle? ==> trace[k].core.notified == Ids(trace[k].core.committed)
  {
    if k > 0 {
      EveryCommitNotified(w, trace, steps, k - 1);
      JournalAlways(w, trace, steps, k - 1);
      assert Enabled(w, trace[k - 1], steps[k - 1]) && trace[k].core == CoreAct(w, trace[k - 1], steps[k - 1]);
      NotifyAll(w, trace[k - 1], steps[k - 1]);
    }
  }

  // ----- history rows --------------------------------------------------------------

  ghost predicate Stages<P(!new)>(s: State<P>, step: Step, x: EventId) {
    step.StageRow? && s.queue != [] && s.queue[0].event.id == x
  }

  ghost predicate StagedBy<P(!new)>(trace: seq<State<P>>, steps: seq<Step>, x: EventId, k: nat)
    requires k <= |steps| < |trace|
  {
    exists i :: 0 <= i < k && Stages(trace[i], steps[i], x)
  }

  lemma RowStep<P(!new)>(w: World<P>, s: State<P>, step: Step, x: EventId)
    requires Enabled(w, s, step)
    ensures HasRow(CoreAct(w, s, step).history, x) <==> HasRow(s.core.history, x) || Stages(s, step, x)
  {
    var h, h' := s.core.history, CoreAct(w, s, step).history;
    assert |h| <= |h'| && forall i :: 0 <= i < |h| ==> h'[i].event == h[i].event;
    if HasRow(h, x) {
      var i :| 0 <= i < |h| && h[i].event.id == x;
      assert h'[i].event.id == x;
    }
    if step.StageRow? && !HasRow(h, s.queue[0].event.id) {
      assert h'[|h|].event == s.queue[0].event;
    }
  }

  /** In every run the history has a row for exactly what it had at the start and what was staged. */
  lemma {:induction false} RowsExactly<P(!new)>(w: World<P>, trace: seq<State<P>>, steps: seq<Step>, x: EventId, k: nat)
    requires Run(w, trace, steps) && k < |trace|
    ensures HasRow(trace[k].core.history, x) <==> HasRow(trace[0].core.history, x) || StagedBy(trace, steps, x, k)
  {
    if k > 0 {
      RowsExactly(w, trace, steps, x, k - 1);
      assert Enabled(w, trace[k - 1], steps[k - 1]) && trace[k].core == CoreAct(w, trace[k - 1], steps[k - 1]);
      RowStep(w, trace[k - 1], steps[k - 1], x);
      assert StagedBy(trace, steps, x, k)
        <==> StagedBy(trace, steps, x, k - 1) || Stages(trace[k - 1], steps[k - 1], x);
    }
  }

  ghost predicate Shows(history: seq<Row>, x: EventId) {
    exists i :: 0 <= i < |history| && history[i].event.id == x && history[i].applied
  }

  /** The step marks the row of `x`: as applied, as a duplicate, or as covered on reopening. */
  ghost predicate Marks<P(!new)>(s: State<P>, step: Step, x: EventId) {
    && HasRow(s.core.history, x)
    && match step
       case Finish(marked, _) => marked && s.core.stage.Committed? && s.core.stage.request.event.id == x
       case Duplicate(marked) => marked && s.queue != [] && s.queue[0].event.id == x
       case Restart(_) => Upto(x, s.core.cursor)
       case _ => false
  }

  ghost predicate MarkedBy<P(!new)>(trace: seq<State<P>>, steps: seq<Step>, x: EventId, k: nat)
    requires k <= |steps| < |trace|
  {
    exists i :: 0 <= i < k && Marks(trace[i], steps[i], x)
  }

  /** Rows that keep their events, and are visible exactly if they were or `x` is marked. */
  lemma ShownNext(h: seq<Row>, h': seq<Row>, x: EventId, marks: bool)
    requires |h| <= |h'| && forall i :: 0 <= i < |h| ==> h'[i].event == h[i].event
    requires forall i :: 0 <= i < |h| && h[i].event.id == x ==> (h'[i].applied <==> h[i].applied || marks)
    requires forall i :: |h| <= i < |h'| ==> !h'[i].applied
    requires marks ==> HasRow(h, x)
    ensures Shows(h', x) <==> Shows(h, x) || marks
  {
    if Shows(h, x) {
      var i :| 0 <= i < |h| && h[i].event.id == x && h[i].applied;
      assert h'[i].applied;
    }
    if marks {
      var i :| 0 <= i < |h| && h[i].event.id == x;
      assert h'[i].applied;
    }
  }

  lemma ShowStep<P(!new)>(w: World<P>, s: State<P>, step: Step, x: EventId)
    requires Enabled(w, s, step)
    ensures Shows(CoreAct(w, s, step).history, x) <==> Shows(s.core.history, x) || Marks(s, step, x)
  {
    ShownNext(s.core.history, CoreAct(w, s, step).history, x, Marks(s, step, x));
  }

  /** In every run a row is visible exactly when it was at the start or some step marked it. */
  lemma {:induction false} VisibleExactly<P(!new)>(w: World<P>, trace: seq<State<P>>, steps: seq<Step>, x: EventId,
                                                   k: nat)
    requires Run(w, trace, steps) && k < |trace|
    ensures Shows(trace[k].core.history, x) <==> Shows(trace[0].core.history, x) || MarkedBy(trace, steps, x, k)
  {
    if k > 0 {
      VisibleExactly(w, trace, steps, x, k - 1);
      assert Enabled(w, trace[k - 1], steps[k - 1]) && trace[k].core == CoreAct(w, trace[k - 1], steps[k - 1]);
      ShowStep(w, trace[k - 1], steps[k - 1], x);
      assert MarkedBy(trace, steps, x, k) <==> MarkedBy(trace, steps, x, k - 1) || Marks(trace[k - 1], steps[k - 1], x);
    }
  }
}
