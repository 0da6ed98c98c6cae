/** What the pipeline keeps in every run, whatever the feeds deliver. */
module EventJournal {
  import opened Orderings
  import opened EventPipeline

  ghost function Fold<P>(reduce: (P, Event) -> P, initial: P, events: seq<Event>): P {
    if events == [] then initial
    else reduce(Fold(reduce, initial, events[..|events| - 1]), events[|events| - 1])
  }

  ghost predicate Increasing(ids: seq<EventId>) {
    forall i, j :: 0 <= i < j < |ids| ==> Before(ids[i], ids[j])
  }

  ghost function Ids(events: seq<Event>): (ids: seq<EventId>)
    ensures |ids| == |events| && forall i :: 0 <= i < |ids| ==> ids[i] == events[i].id
  {
    seq(|events|, i requires 0 <= i < |events| => events[i].id)
  }

  lemma BeforeTransitive(a: EventId, b: EventId, c: EventId)
    ensures Before(a, b) && Before(b, c) ==> Before(a, c)
    ensures Before(a, b) ==> !Before(b, a) && a != b && a.Stream? && b.Stream?
  {
  }

  /** Commits, cursor, projection. */
  ghost predicate CommitsOk<P(!new)>(w: World<P>, c: Core<P>) {
    && Increasing(Ids(c.committed))
    && c.cursor == (if c.committed == [] then w.start else Some(c.committed[|c.committed| - 1].id))
    && (forall i :: 0 <= i < |c.committed| ==> After(w.start, c.committed[i].id))
    && c.projection == Fold(w.reduce, w.initial, c.committed)
  }

  /** Notifications: in commit order, each once, only of committed events. */
  ghost predicate NoticesOk<P(!new)>(c: Core<P>) {
    && Increasing(c.notified)
    && (forall i :: 0 <= i < |c.notified| ==> c.notified[i] in Ids(c.committed))
    && (c.stage.Committed? ==>
          && c.committed != [] && c.committed[|c.committed| - 1] == c.stage.request.event
          && c.stage.request.event.id !in c.notified)
  }

  /** History rows: one per identity, visible only up to the cursor, present for every commit. */
  ghost predicate HistoryOk<P(!new)>(c: Core<P>) {
    && (forall i, j :: 0 <= i < j < |c.history| ==> c.history[i].event.id != c.history[j].event.id)
    && (forall i :: 0 <= i < |c.history| && c.history[i].applied ==> Upto(c.history[i].event.id, c.cursor))
    && (forall i :: 0 <= i < |c.committed| ==> HasRow(c.history, c.committed[i].id))
    && (c.stage.Staged? ==> && HasRow(c.history, c.stage.request.event.id)
                            && HasEvent(c.cursor, c.stage.request.event.id) == Some(false))
  }

  ghost predicate JournalOk<P(!new)>(w: World<P>, c: Core<P>) {
    CommitsOk(w, c) && NoticesOk(c) && HistoryOk(c)
  }

  /** Every earlier commit lies below an event the cursor does not cover. */
  lemma CommitsBelow<P(!new)>(w: World<P>, c: Core<P>, e: EventId)
    requires CommitsOk(w, c) && After(c.cursor, e)
    ensures forall i :: 0 <= i < |c.committed| ==> Before(c.committed[i].id, e)
    ensures After(w.start, e)
  {
    var n := |c.committed|;
    forall i | 0 <= i < n ensures Before(c.committed[i].id, e) {
      if i < n - 1 {
        assert Before(Ids(c.committed)[i], Ids(c.committed)[n - 1]);
        BeforeTransitive(c.committed[i].id, c.committed[n - 1].id, e);
      }
    }
    if n > 0 && w.start.Some? {
      BeforeTransitive(w.start.value, c.committed[n - 1].id, e);
    }
  }

  lemma CommitKeepsCommits<P(!new)>(w: World<P>, c: Core<P>)
    requires JournalOk(w, c) && c.stage.Staged?
    ensures CommitsOk(w, AfterCommit(w, c)) && After(c.cursor, c.stage.request.event.id)
  {
    var c', e := AfterCommit(w, c), c.stage.request.event;
    CommitsBelow(w, c, e.id);
    assert c'.committed[..|c.committed|] == c.committed;
  }

  lemma CommitKeepsNotices<P(!new)>(w: World<P>, c: Core<P>)
    requires JournalOk(w, c) && c.stage.Staged?
    ensures NoticesOk(AfterCommit(w, c))
  {
    var c', e := AfterCommit(w, c), c.stage.request.event;
    CommitsBelow(w, c, e.id);
    forall j | 0 <= j < |c.notified| ensures c.notified[j] in Ids(c'.committed) && c.notified[j] != e.id {
      assert c.notified[j] in Ids(c.committed);
      var i :| 0 <= i < |c.committed| && Ids(c.committed)[i] == c.notified[j];
      assert Ids(c'.committed)[i] == c.notified[j];
      BeforeTransitive(c.notified[j], e.id, e.id);
    }
  }

  lemma CommitKeepsHistory<P(!new)>(w: World<P>, c: Core<P>)
    requires JournalOk(w, c) && c.stage.Staged?
    ensures HistoryOk(AfterCommit(w, c))
  {
    var c', e := AfterCommit(w, c), c.stage.request.event;
    forall i | 0 <= i < |c.history| && c.history[i].applied ensures Upto(c.history[i].event.id, c'.cursor) {
      BeforeTransitive(c.history[i].event.id, c.cursor.value, e.id);
    }
  }

  lemma FinishKeepsNotices<P(!new)>(w: World<P>, c: Core<P>, marked: bool, resolved: bool)
    requires JournalOk(w, c) && c.stage.Committed?
    ensures NoticesOk(AfterFinish(c, marked, resolved))
  {
    var id, n := c.stage.request.event.id, |c.committed|;
    forall i | 0 <= i < |c.notified| ensures Before(c.notified[i], id) {
      assert c.notified[i] in Ids(c.committed);
      var k :| 0 <= k < n && Ids(c.committed)[k] == c.notified[i];
      assert Ids(c.committed)[n - 1] == id && k != n - 1;
    }
    assert Ids(c.committed)[n - 1] == id;
  }

  /** Marking rows whose identity the cursor covers keeps the history. */
  lemma MarksKeep<P(!new)>(c: Core<P>, history: seq<Row>)
    requires HistoryOk(c) && |history| == |c.history|
    requires forall i :: 0 <= i < |history| ==> history[i].event == c.history[i].event
    requires forall i :: 0 <= i < |history| && history[i].applied ==>
                           c.history[i].applied || Upto(history[i].event.id, c.cursor)
    ensures HistoryOk(c.(history := history, stage := Idle))
    ensures c.stage.Idle? ==> HistoryOk(c.(history := history))
  {
    forall k | 0 <= k < |c.committed| ensures HasRow(history, c.committed[k].id) {
      assert HasRow(c.history, c.committed[k].id);
      var i :| 0 <= i < |c.history| && c.history[i].event.id == c.committed[k].id;
      assert history[i].event.id == c.committed[k].id;
    }
  }

  lemma StageKeeps<P(!new)>(c: Core<P>, r: Request)
    requires HistoryOk(c) && HasEvent(c.cursor, r.event.id) == Some(false)
    ensures HistoryOk(AfterStage(c, r))
  {
    var c' := AfterStage(c, r);
    forall k | 0 <= k < |c.committed| ensures HasRow(c'.history, c.committed[k].id) {
      assert HasRow(c.history, c.committed[k].id);
      var i :| 0 <= i < |c.history| && c.history[i].event.id == c.committed[k].id;
      assert c'.history[i].event.id == c.committed[k].id;
    }
    if !HasRow(c.history, r.event.id) {
      assert c'.history[|c.history|].event == r.event;
    }
  }

  lemma JournalStep<P(!new)>(w: World<P>, s: State<P>, step: Step)
    requires JournalOk(w, s.core) && Enabled(w, s, step)
    ensures JournalOk(w, CoreAct(w, s, step))
  {
    var c := s.core;
    match step
    case Duplicate(marked) =>
      assert AtMost(s.queue[0].event.id, c.cursor.value);
      MarksKeep(c, CoreAct(w, s, step).history);
    case StageRow =>
      StageKeeps(c, s.queue[0]);
    case Commit =>
      CommitKeepsCommits(w, c);
      CommitKeepsNotices(w, c);
      CommitKeepsHistory(w, c);
    case Finish(marked, resolved) =>
      FinishKeepsNotices(w, c, marked, resolved);
      MarksKeep(c, AfterFinish(c, marked, resolved).history);
    case Restart(_) =>
      MarksKeep(c, AfterRestart(c).history);
    case _ =>
  }

  /**
   In every state of every run: the commits are strictly increasing in identity, the
   cursor is the last of them, the projection is their fold, each identity is notified at
   most once and only after its commit, and no history row is visible beyond the cursor.
   */
  lemma {:induction false} JournalAlways<P(!new)>(w: World<P>, trace: seq<State<P>>, steps: seq<Step>, k: nat)
    requires Run(w, trace, steps) && k < |trace|
    ensures JournalOk(w, trace[k].core)
  {
    if k > 0 {
      JournalAlways(w, trace, steps, k - 1);
      JournalStep(w, trace[k - 1], steps[k - 1]);
    }
  }

  /** One step forward: commits and notices only grow, the cursor only advances. */
  lemma StepForward<P(!new)>(w: World<P>, s: State<P>, step: Step)
    requires JournalOk(w, s.core) && Enabled(w, s, step)
    ensures var c, c' := s.core, CoreAct(w, s, step);
            && c.committed <= c'.committed && c.notified <= c'.notified
            && (c.cursor.Some? ==> Upto(c.cursor.value, c'.cursor))
            && (c'.committed != c.committed ==>
                  exists e: Event :: c'.committed == c.committed + [e] && c'.cursor == Some(e.id)
                      && After(c.cursor, e.id))
            && (c'.committed == c.committed ==> c'.cursor == c.cursor && c'.projection == c.projection)
            && (step.CommitFails? || step.Reject? || step.Duplicate? ==>
                  c'.committed == c.committed && c'.cursor == c.cursor && c'.projection == c.projection
                      && c'.notified == c.notified)
  {
    if step.Commit? {
      CommitKeepsCommits(w, s.core);
      var e := s.core.stage.request.event;
      assert AfterCommit(w, s.core).committed == s.core.committed + [e];
    }
  }

  /** Nothing committed or notified is undone, and the cursor does not move back. */
  ghost predicate Ahead<P(!new)>(c: Core<P>, c': Core<P>) {
    && c.committed <= c'.committed && c.notified <= c'.notified
    && (c.cursor.Some? ==> Upto(c.cursor.value, c'.cursor))
  }

  lemma AheadNext<P(!new)>(w: World<P>, trace: seq<State<P>>, steps: seq<Step>, k: nat)
    requires Run(w, trace, steps) && 0 < k < |trace|
    ensures Ahead(trace[k - 1].core, trace[k].core)
  {
    JournalAlways(w, trace, steps, k - 1);
    StepForward(w, trace[k - 1], steps[k - 1]);
  }

  lemma AheadTransitive<P(!new)>(a: Core<P>, b: Core<P>, c: Core<P>)
    requires Ahead(a, b) && Ahead(b, c)
    ensures Ahead(a, c)
  {
    if a.cursor.Some? {
      BeforeTransitive(a.cursor.value, b.cursor.value, c.cursor.value);
    }
  }

  /** Between any two states of a run. */
  lemma {:induction false} NeverBack<P(!new)>(w: World<P>, trace: seq<State<P>>, steps: seq<Step>, i: nat, k: nat)
    requires Run(w, trace, steps) && i <= k < |trace|
    ensures Ahead(trace[i].core, trace[k].core)
    decreases k
  {
    if i < k {
      NeverBack(w, trace, steps, i, k - 1);
      AheadNext(w, trace, steps, k);
      AheadTransitive(trace[i].core, trace[k - 1].core, trace[k].core);
    }
  }

  // ----- exactly which events are lost ---------------------------------------------

  /** The step commits an event beyond `x` while the cursor is still before `x`. */
  ghost predicate Jumps<P(!new)>(s: State<P>, step: Step, x: EventId) {
    step.Commit? && s.core.stage.Staged? && After(s.core.cursor, x) && Before(x, s.core.stage.request.event.id)
  }

  ghost predicate JumpedBy<P(!new)>(trace: seq<State<P>>, steps: seq<Step>, x: EventId, k: nat)
    requires k <= |steps| < |trace|
  {
    exists i :: 0 <= i < k && Jumps(trace[i], steps[i], x)
  }

  /** The cursor covers `x`, which was never committed: the store takes it for a duplicate. */
  ghost predicate Lost<P(!new)>(c: Core<P>, x: EventId) {
    HasEvent(c.cursor, x) == Some(true) && x !in Ids(c.committed)
  }

  lemma LostIsPassed<P(!new)>(c: Core<P>, x: EventId)
    ensures Lost(c, x) <==> Upto(x, c.cursor) && x !in Ids(c.committed)
  {
  }

  lemma SidesOf(pos: Option<EventId>, x: EventId)
    requires x.Stream? && (pos.Some? ==> pos.value.Stream?)
    ensures Upto(x, pos) <==> !After(pos, x)
  {
  }

  lemma CommittedBelow<P(!new)>(w: World<P>, c: Core<P>, x: EventId)
    requires CommitsOk(w, c) && After(c.cursor, x)
    ensures x !in Ids(c.committed)
  {
    CommitsBelow(w, c, x);
    BeforeTransitive(x, x, x);
  }

  /** A commit loses what was lost before, and what it jumps. */
  lemma CommitLoses<P(!new)>(w: World<P>, s: State<P>, x: EventId)
    requires JournalOk(w, s.core) && s.core.stage.Staged? && x.Stream?
    ensures Lost(AfterCommit(w, s.core), x) <==> Lost(s.core, x) || Jumps(s, Commit, x)
  {
    var c, c', e := s.core, AfterCommit(w, s.core), s.core.stage.request.event;
    CommitKeepsCommits(w, c);
    LostIsPassed(c, x);
    LostIsPassed(c', x);
    assert Ids(c'.committed) == Ids(c.committed) + [e.id];
    BeforeTransitive(x, e.id, e.id);
    if After(c.cursor, x) {
      CommittedBelow(w, c, x);
    } else {
      SidesOf(c.cursor, x);
      BeforeTransitive(x, c.cursor.value, e.id);
    }
  }

  lemma NothingLostYet<P(!new)>(w: World<P>, c: Core<P>, x: EventId)
    requires CommitsOk(w, c) && After(w.start, x) && (c.committed == [] || !x.Stream?)
    ensures !Lost(c, x)
  {
    if w.start.Some? {
      BeforeTransitive(w.start.value, x, x);
    }
    if c.committed != [] {
      assert c.cursor == Some(Ids(c.committed)[|c.committed| - 1]);
    }
  }

  /**
   In every run, whatever the feeds deliver or omit: an identity after the start is taken
   for a duplicate without ever having been committed exactly when some commit jumped it.
   This is where the cursor test and journal membership differ.
   */
  lemma {:induction false} LostExactly<P(!new)>(w: World<P>, trace: seq<State<P>>, steps: seq<Step>, x: EventId, k: nat)
    requires Run(w, trace, steps) && k < |trace| && After(w.start, x)
    ensures Lost(trace[k].core, x) <==> JumpedBy(trace, steps, x, k)
  {
    JournalAlways(w, trace, steps, k);
    if k == 0 || !x.Stream? {
      NothingLostYet(w, trace[k].core, x);
    } else {
      LostExactly(w, trace, steps, x, k - 1);
      LostStep(w, trace, steps, x, k);
      JumpedNext(trace, steps, x, k);
    }
  }

  lemma LostStep<P(!new)>(w: World<P>, trace: seq<State<P>>, steps: seq<Step>, x: EventId, k: nat)
    requires Run(w, trace, steps) && 0 < k < |trace| && x.Stream?
    ensures Lost(trace[k].core, x) <==> Lost(trace[k - 1].core, x) || Jumps(trace[k - 1], steps[k - 1], x)
  {
    var s, step := trace[k - 1], steps[k - 1];
    assert Enabled(w, s, step) && trace[k].core == CoreAct(w, s, step);
    if step.Commit? {
      JournalAlways(w, trace, steps, k - 1);
      CommitLoses(w, s, x);
    } else {
      KeepsLost(w, s, step, x);
    }
  }

  lemma KeepsLost<P(!new)>(w: World<P>, s: State<P>, step: Step, x: EventId)
    requires Enabled(w, s, step) && !step.Commit?
    ensures Lost(CoreAct(w, s, step), x) <==> Lost(s.core, x)
  {
  }

  lemma JumpedNext<P(!new)>(trace: seq<State<P>>, steps: seq<Step>, x: EventId, k: nat)
    requires 0 < k <= |steps| < |trace|
    ensures JumpedBy(trace, steps, x, k) <==> JumpedBy(trace, steps, x, k - 1) || Jumps(trace[k - 1], steps[k - 1], x)
  {
  }

  /** What is lost stays lost: no continuation commits it, whichever lane delivers it again. */
  lemma {:induction false} PassedIsLost<P(!new)>(w: World<P>, trace: seq<State<P>>, steps: seq<Step>, x: EventId,
                                                 i: nat, k: nat)
    requires Run(w, trace, steps) && i <= k < |trace|
    requires Lost(trace[i].core, x)
    ensures Lost(trace[k].core, x)
    decreases k
  {
    if i < k {
      PassedIsLost(w, trace, steps, x, i, k - 1);
      StaysLost(w, trace, steps, x, k);
    }
  }

  lemma StaysLost<P(!new)>(w: World<P>, trace: seq<State<P>>, steps: seq<Step>, x: EventId, k: nat)
    requires Run(w, trace, steps) && 0 < k < |trace| && Lost(trace[k - 1].core, x)
    ensures Lost(trace[k].core, x)
  {
    if x.Stream? {
      LostStep(w, trace, steps, x, k);
    } else {
      JournalAlways(w, trace, steps, k - 1);
      OddStaysLost(w, trace[k - 1], steps[k - 1], x);
    }
  }

  /** A cursor that does not parse blocks every commit. */
  lemma OddStaysLost<P(!new)>(w: World<P>, s: State<P>, step: Step, x: EventId)
    requires JournalOk(w, s.core) && Enabled(w, s, step) && !x.Stream? && Lost(s.core, x)
    ensures Lost(CoreAct(w, s, step), x)
  {
    if step.Commit? {
      CommitKeepsCommits(w, s.core);
      assert false;
    }
  }
}
