/**
 What the pipeline does when a feed leaves events out.

 The stream is filtered on the server, so it may skip log events.  Nothing is assumed here
 about order or completeness: the feeds deliver log events, and that is all.
 */
module EventLoss {
  import opened Orderings
  import opened EventPipeline
  import opened EventJournal
  import opened EventContinuity
  import opened EventTheorems
  import opened Traces

  /** Both feeds deliver nothing but log events. */
  ghost predicate Genuine<P(!new)>(s: State<P>, step: Step) {
    match step
    case PageArrives(page, _) => forall i :: 0 <= i < |page| ==> page[i] in s.log
    case Deliver(e) => e in s.log
    case _ => true
  }

  ghost predicate GenuineRun<P(!new)>(w: World<P>, trace: seq<State<P>>, steps: seq<Step>) {
    Run(w, trace, steps) && forall i :: 0 <= i < |steps| ==> Genuine(trace[i], steps[i])
  }

  ghost predicate AllIn(events: seq<Event>, log: seq<Event>) { forall i :: 0 <= i < |events| ==> events[i] in log }

  /** Everything the client holds came from the log. */
  ghost predicate FromLog<P(!new)>(s: State<P>) {
    && LogSorted(s.log) && AllIn(s.core.committed, s.log)
    && (forall i :: 0 <= i < |s.queue| ==> s.queue[i].event in s.log)
    && (!s.core.stage.Idle? ==> s.core.stage.request.event in s.log)
    && (s.logLane.Working? ==> AllIn(s.logLane.page, s.log))
  }

  lemma ApplyFromLog<P(!new)>(w: World<P>, s: State<P>, step: Step)
    requires FromLog(s) && Enabled(w, s, step) && Applies(step)
    ensures FromLog(Act(w, s, step))
  {
  }

  lemma FeedFromLog<P(!new)>(w: World<P>, s: State<P>, step: Step)
    requires FromLog(s) && Enabled(w, s, step) && Genuine(s, step) && !Applies(step)
    ensures FromLog(Act(w, s, step))
  {
  }

  lemma {:induction false} FromLogAlways<P(!new)>(w: World<P>, trace: seq<State<P>>, steps: seq<Step>, k: nat)
    requires GenuineRun(w, trace, steps) && k < |trace|
    ensures FromLog(trace[k])
  {
    if k > 0 {
      FromLogAlways(w, trace, steps, k - 1);
      if Applies(steps[k - 1]) {
        ApplyFromLog(w, trace[k - 1], steps[k - 1]);
      } else {
        FeedFromLog(w, trace[k - 1], steps[k - 1]);
      }
    }
  }

  /** In a sorted log an event is committed exactly when its identity is. */
  lemma ById(log: seq<Event>, committed: seq<Event>, e: Event)
    requires LogSorted(log) && AllIn(committed, log) && e in log
    ensures e in committed <==> e.id in Ids(committed)
  {
    if e in committed {
      var i :| 0 <= i < |committed| && committed[i] == e;
      assert Ids(committed)[i] == e.id;
    }
    if e.id in Ids(committed) {
      var i :| 0 <= i < |committed| && Ids(committed)[i] == e.id;
      assert committed[i] in log;
      var k :| 0 <= k < |log| && log[k] == committed[i];
      SameId(log, k, e);
    }
  }

  /** Some log event after the start was jumped. */
  ghost predicate Skips<P(!new)>(w: World<P>, trace: seq<State<P>>, steps: seq<Step>, k: nat)
    requires k <= |steps| < |trace|
  {
    exists e :: e in trace[k].log && After(w.start, e.id) && JumpedBy(trace, steps, e.id, k)
  }

  /**
   For every run of every filtered stream: the committed events are the slice of the log
   from the start to the cursor, and the projection their fold, exactly when no commit
   jumped a log event.  Until that happens the interleaving leaves no trace; from then on
   the slice is never restored.
   */
  lemma JournalIsSlice<P(!new)>(w: World<P>, trace: seq<State<P>>, steps: seq<Step>, k: nat)
    requires GenuineRun(w, trace, steps) && k < |trace|
    ensures var s := trace[k]; var slice := Slice(s.log, w.start, s.core.cursor);
            && (s.core.committed == slice <==> !Skips(w, trace, steps, k))
            && (!Skips(w, trace, steps, k) ==> s.core.projection == Fold(w.reduce, w.initial, slice))
  {
    var s := trace[k];
    var slice := Slice(s.log, w.start, s.core.cursor);
    FromLogAlways(w, trace, steps, k);
    JournalAlways(w, trace, steps, k);
    SliceContents(s.log, w.start, s.core.cursor);
    CommitsUpto(w, s.core);
    forall e | e in s.log && After(w.start, e.id)
      ensures JumpedBy(trace, steps, e.id, k) <==> e in slice && e !in s.core.committed
    {
      LostExactly(w, trace, steps, e.id, k);
      LostIsPassed(s.core, e.id);
      ById(s.log, s.core.committed, e);
    }
    if !Skips(w, trace, steps, k) {
      SameMembers(s.core.committed, slice);
    }
  }

  // ----- a muted event is not recovered --------------------------------------------

  const EARLIER := Event(Stream(1, 0), "earlier")
  const LATER := Event(Stream(2, 0), "later")

  ghost function Moves<P(!new)>(w: World<P>): Machine<State<P>, Step> {
    (s: State<P>, step: Step) => if Enabled(w, s, step) then Some(Act(w, s, step)) else None
  }

  /** The log lane receives a page while the stream connects. */
  lemma BothOpen<P(!new)>(w: World<P>, s: State<P>, page: seq<Event>) returns (s': State<P>)
    requires s.logLane == LogOff && s.sseLane == SseOff && s.core.cursor == None
    ensures Leads(Moves(w), s, [StartCatchUp(None), PageArrives(page, None), Connect(None)], s')
    ensures s' == s.(logLane := Working(None, 0, page, 0, None, |s.log|, None), sseLane := Streaming(None))
  {
    var a := Act(w, s, StartCatchUp(None));
    var b := Act(w, a, PageArrives(page, None));
    s' := Act(w, b, Connect(None));
    assert Leads(Moves(w), b, [Connect(None)], s');
    assert [PageArrives(page, None), Connect(None)][1..] == [Connect(None)];
    assert Leads(Moves(w), a, [PageArrives(page, None), Connect(None)], s');
    assert [StartCatchUp(None), PageArrives(page, None), Connect(None)][1..]
           == [PageArrives(page, None), Connect(None)];
  }

  /** The stream delivers an event and the applier stages it. */
  lemma StreamStages<P(!new)>(w: World<P>, s: State<P>, e: Event) returns (s': State<P>)
    requires s.queue == [] && s.core.stage.Idle? && s.sseLane == Streaming(None) && s.core.cursor == None
    ensures Leads(Moves(w), s, [Deliver(e), StageRow], s')
    ensures s'.queue == [] && s'.core.stage == Staged(Request(e, Sse, s.tickets)) && s'.core.cursor == None
    ensures s'.core.committed == s.core.committed && s'.logLane == s.logLane && s'.tickets == s.tickets + 1
    ensures s'.log == s.log
  {
    var a := Act(w, s, Deliver(e));
    assert a.queue == [Request(e, Sse, s.tickets)];
    s' := Act(w, a, StageRow);
    assert Leads(Moves(w), a, [StageRow], s');
    assert [Deliver(e), StageRow][1..] == [StageRow];
  }

  /** The applier commits what it staged. */
  lemma StagedCommits<P(!new)>(w: World<P>, s: State<P>) returns (s': State<P>)
    requires s.queue == [] && s.core.stage.Staged? && s.core.stage.request.lane == Sse && s.core.cursor == None
    ensures Leads(Moves(w), s, [Commit, Finish(true, true)], s')
    ensures s'.queue == [] && s'.core.stage.Idle? && s'.core.cursor == Some(s.core.stage.request.event.id)
    ensures s'.core.committed == s.core.committed + [s.core.stage.request.event] && s'.logLane == s.logLane
    ensures s'.tickets == s.tickets && s'.log == s.log
  {
    var c := Act(w, s, Commit);
    s' := Act(w, c, Finish(true, true));
    assert Leads(Moves(w), c, [Finish(true, true)], s');
    assert [Commit, Finish(true, true)][1..] == [Finish(true, true)];
  }

  /** An event the cursor has passed is answered as a duplicate. */
  lemma LogDropped<P(!new)>(w: World<P>, s: State<P>) returns (s': State<P>)
    requires s.queue == [] && s.core.stage.Idle? && s.logLane.Working? && s.logLane.ticket == None
    requires s.logLane.done < |s.logLane.page| && Upto(s.logLane.page[s.logLane.done].id, s.core.cursor)
    ensures Leads(Moves(w), s, [EnqueueNext, Duplicate(true)], s')
    ensures s'.core.committed == s.core.committed && s'.core.cursor == s.core.cursor
    ensures s'.queue == [] && s'.core.stage.Idle? && s'.log == s.log
    ensures s'.logLane == s.logLane.(done := s.logLane.done + 1)
  {
    var a := Act(w, s, EnqueueNext);
    var r := Request(s.logLane.page[s.logLane.done], Log, s.tickets);
    assert a.queue == [r];
    BeforeTransitive(r.event.id, s.core.cursor.value, s.core.cursor.value);
    s' := Act(w, a, Duplicate(true));
    assert Leads(Moves(w), a, [Duplicate(true)], s');
    assert [EnqueueNext, Duplicate(true)][1..] == [Duplicate(true)];
  }

  /** The traversal ends and counts as complete. */
  lemma LogEnds<P(!new)>(w: World<P>, s: State<P>) returns (s': State<P>)
    requires s.logLane.Working? && s.logLane.done == |s.logLane.page| && s.logLane.next == None
    ensures Leads(Moves(w), s, [FinishPage], s') && s'.core == s.core && s'.log == s.log
    ensures s'.caughtUp == s.logLane.covered
  {
    s' := Act(w, s, FinishPage);
    assert Leads(Moves(w), s', [], s');
  }

  const OPENING := [StartCatchUp(None), PageArrives([EARLIER, LATER], None), Connect(None)]
  const STREAMED := [Deliver(LATER), StageRow] + [Commit, Finish(true, true)]
  const DROPPED := [EnqueueNext, Duplicate(true)]

  lemma FaithfulPage()
    ensures PageFaithful(None, [EARLIER, LATER], None, [EARLIER, LATER], None, 2)
  {
    assert [EARLIER, LATER][..1] == [EARLIER];
  }

  /** The stream commits the later event while the log lane holds a page with both. */
  lemma LaterCommits<P(!new)>(w: World<P>, s0: State<P>) returns (s: State<P>)
    requires s0.logLane == LogOff && s0.sseLane == SseOff && s0.queue == [] && s0.log == [EARLIER, LATER]
    requires s0.core.stage.Idle? && s0.core.cursor == None && s0.core.committed == []
    ensures Leads(Moves(w), s0, OPENING + STREAMED, s)
    ensures s.queue == [] && s.core.stage.Idle? && s.log == s0.log
    ensures s.core.committed == [LATER] && s.core.cursor == Some(LATER.id)
    ensures s.logLane == Working(None, 0, [EARLIER, LATER], 0, None, 2, None)
  {
    var s3 := BothOpen(w, s0, [EARLIER, LATER]);
    var s5 := StreamStages(w, s3, LATER);
    s := StagedCommits(w, s5);
    LeadsThen(Moves(w), s3, [Deliver(LATER), StageRow], s5, [Commit, Finish(true, true)], s);
    LeadsThen(Moves(w), s0, OPENING, s3, STREAMED, s);
  }

  /** The log lane works through its page and drops both. */
  lemma PageDropped<P(!new)>(w: World<P>, s: State<P>) returns (s': State<P>)
    requires s.queue == [] && s.core.stage.Idle? && s.core.cursor == Some(LATER.id)
    requires s.logLane == Working(None, 0, [EARLIER, LATER], 0, None, 2, None)
    ensures Leads(Moves(w), s, DROPPED + (DROPPED + [FinishPage]), s')
    ensures s'.core.committed == s.core.committed && s'.core.cursor == s.core.cursor && s'.log == s.log
            && s'.caughtUp == 2
  {
    var s2 := LogDropped(w, s);
    var s4 := LogDropped(w, s2);
    s' := LogEnds(w, s4);
    LeadsThen(Moves(w), s2, DROPPED, s4, [FinishPage], s');
    LeadsThen(Moves(w), s, DROPPED, s2, DROPPED + [FinishPage], s');
  }

  ghost function MutedPath(): seq<Step> { OPENING + STREAMED + (DROPPED + (DROPPED + [FinishPage])) }

  lemma MutedPathLeads<P(!new)>(w: World<P>, s0: State<P>) returns (s: State<P>)
    requires s0.logLane == LogOff && s0.sseLane == SseOff && s0.queue == [] && s0.log == [EARLIER, LATER]
    requires s0.core.stage.Idle? && s0.core.cursor == None && s0.core.committed == []
    ensures Leads(Moves(w), s0, MutedPath(), s)
    ensures s.log == s0.log && s.caughtUp == 2 && s.core.committed == [LATER] && s.core.cursor == Some(LATER.id)
  {
    var s7 := LaterCommits(w, s0);
    s := PageDropped(w, s7);
    LeadsThen(Moves(w), s0, OPENING + STREAMED, s7, DROPPED + (DROPPED + [FinishPage]), s);
  }

  lemma LeadsRun<P(!new)>(w: World<P>, s0: State<P>, steps: seq<Step>, s: State<P>) returns (trace: seq<State<P>>)
    requires Init(w, s0) && Leads(Moves(w), s0, steps, s)
    ensures Run(w, trace, steps) && trace[0] == s0 && trace[|steps|] == s
  {
    trace := LeadsTrace(Moves(w), s0, steps, s);
    forall i | 0 <= i < |steps| ensures Enabled(w, trace[i], steps[i]) && trace[i + 1] == Act(w, trace[i], steps[i]) {
      assert Moves(w)(trace[i], steps[i]) == Some(trace[i + 1]);
    }
  }

  /**
   The periodic log traversal is meant to bring muted events into durable state.  In this
   run it receives a faithful page with both events of the log, but the stream commits the
   later one first.  The store takes the earlier one for a duplicate, the traversal ends as
   complete, and by `PassedIsLost` no continuation ever applies it.
   */
  lemma MutedEventLost<P(!new)>(w: World<P>, s0: State<P>) returns (trace: seq<State<P>>)
    requires Init(w, s0) && w.start == None && s0.baseline == None && s0.log == [EARLIER, LATER]
    ensures Run(w, trace, MutedPath()) && trace[0] == s0
    ensures PageFaithful(s0.baseline, s0.log, None, [EARLIER, LATER], None, |s0.log|)
    ensures var s := trace[|MutedPath()|];
            s.log == s0.log && s.caughtUp == |s.log| && s.core.committed == [LATER] && Lost(s.core, EARLIER.id)
  {
    FaithfulPage();
    var s := MutedPathLeads(w, s0);
    trace := LeadsRun(w, s0, MutedPath(), s);
    LostIsPassed(s.core, EARLIER.id);
    assert Ids([LATER]) == [LATER.id];
  }

  // ----- history rows that were never committed ------------------------------------

  /** A row visible to queries and replays whose event was never committed. */
  ghost predicate Unfounded<P(!new)>(c: Core<P>, row: Row) {
    row in c.history && row.applied && row.event.id !in Ids(c.committed)
  }

  /**
   In every run: a visible history row after the start is unfounded exactly when some commit
   jumped its identity.  After a restart, which marks all rows the cursor covers, the unfounded
   ones are all staged rows that were jumped.
   */
  lemma UnfoundedExactly<P(!new)>(w: World<P>, trace: seq<State<P>>, steps: seq<Step>, k: nat, row: Row)
    requires Run(w, trace, steps) && k < |trace| && row in trace[k].core.history && After(w.start, row.event.id)
    ensures Unfounded(trace[k].core, row) <==> row.applied && JumpedBy(trace, steps, row.event.id, k)
    ensures k > 0 && steps[k - 1].Restart? ==>
              (Unfounded(trace[k].core, row) <==> JumpedBy(trace, steps, row.event.id, k))
  {
    var c := trace[k].core;
    JournalAlways(w, trace, steps, k);
    LostExactly(w, trace, steps, row.event.id, k);
    LostIsPassed(c, row.event.id);
    assert row.applied ==> Upto(row.event.id, c.cursor);
    if k > 0 && steps[k - 1].Restart? {
      assert c == AfterRestart(trace[k - 1].core);
      assert Upto(row.event.id, c.cursor) ==> row.applied;
    }
  }

  const FAILED := [Connect(None), Deliver(EARLIER)] + [StageRow, CommitFails]
  const PASSED := [Connect(None), Deliver(LATER)] + [StageRow, Commit]

  /** The stream connects and delivers one event. */
  lemma Delivered<P(!new)>(w: World<P>, s: State<P>, e: Event) returns (s': State<P>)
    requires s.sseLane == SseOff && s.queue == []
    ensures Leads(Moves(w), s, [Connect(None), Deliver(e)], s')
    ensures s' == s.(queue := [Request(e, Sse, s.tickets)], sseLane := Waiting(e, s.tickets), tickets := s.tickets + 1)
  {
    var a := Act(w, s, Connect(None));
    s' := Act(w, a, Deliver(e));
    assert s'.queue == [Request(e, Sse, s.tickets)];
    One(Moves(w), s, Connect(None), a);
    One(Moves(w), a, Deliver(e), s');
    LeadsThen(Moves(w), s, [Connect(None)], a, [Deliver(e)], s');
    assert [Connect(None)] + [Deliver(e)] == [Connect(None), Deliver(e)];
  }

  /** The applier stages the event and its commit fails or succeeds. */
  lemma Attempted<P(!new)>(w: World<P>, s: State<P>, e: Event, ok: bool) returns (s': State<P>)
    requires s.tickets > 0 && s.queue == [Request(e, Sse, s.tickets - 1)]
    requires s.core.stage.Idle? && s.core.cursor == None
    requires s.sseLane == Waiting(e, s.tickets - 1) && !HasRow(s.core.history, e.id)
    ensures Leads(Moves(w), s, [StageRow, if ok then Commit else CommitFails], s')
    ensures s'.core.history == s.core.history + [Row(e, false)] && s'.log == s.log && s'.baseline == s.baseline
    ensures ok ==> s'.core.committed == s.core.committed + [e] && s'.core.cursor == Some(e.id)
    ensures !ok ==> && s'.core == s.core.(history := s'.core.history) && s'.queue == [] && s'.sseLane == SseOff
                    && s'.tickets == s.tickets
  {
    var a := Act(w, s, StageRow);
    var step := if ok then Commit else CommitFails;
    s' := Act(w, a, step);
    One(Moves(w), s, StageRow, a);
    One(Moves(w), a, step, s');
    LeadsThen(Moves(w), s, [StageRow], a, [step], s');
    assert [StageRow] + [step] == [StageRow, step];
  }

  /** One event fails to commit, the next one commits. */
  lemma FailedThenPassed<P(!new)>(w: World<P>, s0: State<P>) returns (s: State<P>)
    requires s0.sseLane == SseOff && s0.queue == [] && s0.core.stage.Idle? && s0.core.cursor == None
    requires s0.core.committed == [] && s0.core.history == []
    ensures Leads(Moves(w), s0, FAILED + PASSED, s)
    ensures s.core.history == [Row(EARLIER, false), Row(LATER, false)] && s.baseline == s0.baseline
    ensures s.core.committed == [LATER] && s.core.cursor == Some(LATER.id)
  {
    var s2 := Delivered(w, s0, EARLIER);
    var s4 := Attempted(w, s2, EARLIER, false);
    var s6 := Delivered(w, s4, LATER);
    s := Attempted(w, s6, LATER, true);
    LeadsThen(Moves(w), s0, [Connect(None), Deliver(EARLIER)], s2, [StageRow, CommitFails], s4);
    LeadsThen(Moves(w), s4, [Connect(None), Deliver(LATER)], s6, [StageRow, Commit], s);
    LeadsThen(Moves(w), s0, FAILED, s4, PASSED, s);
  }

  lemma Reopened<P(!new)>(w: World<P>, s: State<P>) returns (s': State<P>)
    requires s.core.history == [Row(EARLIER, false), Row(LATER, false)] && s.core.cursor == Some(LATER.id)
    ensures Leads(Moves(w), s, [Restart(s.baseline)], s')
    ensures s'.core.committed == s.core.committed && s'.core.history == [Row(EARLIER, true), Row(LATER, true)]
  {
    s' := Act(w, s, Restart(s.baseline));
    One(Moves(w), s, Restart(s.baseline), s');
  }

  /** A run whose history shows an event as applied that no commit ever applied. */
  lemma FailedRowBecomesVisible<P(!new)>(w: World<P>, s0: State<P>) returns (trace: seq<State<P>>, steps: seq<Step>)
    requires Init(w, s0) && w.start == None && s0.core.history == [] && s0.log == [EARLIER, LATER]
    ensures Run(w, trace, steps) && trace[0] == s0
    ensures Unfounded(trace[|steps|].core, Row(EARLIER, true))
  {
    var s8 := FailedThenPassed(w, s0);
    var s := Reopened(w, s8);
    steps := FAILED + PASSED + [Restart(s8.baseline)];
    LeadsThen(Moves(w), s0, FAILED + PASSED, s8, [Restart(s8.baseline)], s);
    trace := LeadsRun(w, s0, steps, s);
    assert s.core.history[0] == Row(EARLIER, true) && Ids([LATER]) == [LATER.id];
  }
}
