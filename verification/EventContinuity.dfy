/**
 Runs whose feeds skip nothing: the journal has no gap.

 The hypothesis `Gapless` is about the server alone.  A log page lists what follows its
 cursor without omission, its next cursor passes nothing unlisted and does not run ahead
 of the log, a page that ends a traversal reaches the end of the log, and a stream session
 yields what follows its cursor in order.  A watermark is an identity that parses.
 */
module EventContinuity {
  import opened Orderings
  import opened EventPipeline
  import opened EventJournal

  ghost predicate LogSorted(log: seq<Event>) {
    forall i, j :: 0 <= i < j < |log| ==> Before(log[i].id, log[j].id)
  }

  /** A position that no later log event can fall behind. */
  ghost predicate Anchored(b: Option<EventId>, log: seq<Event>, pos: Option<EventId>) {
    && (b.Some? ==> b.value.Stream?) && (pos.Some? ==> pos.value.Stream?)
    && (pos.None? || pos == b || exists i :: 0 <= i < |log| && AtMost(pos.value, log[i].id))
  }

  /** Every log event after the baseline up to `pos` is committed. */
  ghost predicate Covered(b: Option<EventId>, log: seq<Event>, committed: seq<Event>, pos: Option<EventId>) {
    && Anchored(b, log, pos)
    && forall i :: 0 <= i < |log| && After(b, log[i].id) && Upto(log[i].id, pos) ==> log[i] in committed
  }

  /** Every log event after the baseline and before `e` is committed. */
  ghost predicate Sound(b: Option<EventId>, log: seq<Event>, committed: seq<Event>, e: Event) {
    && e in log && e.id.Stream?
    && forall i :: 0 <= i < |log| && After(b, log[i].id) && Before(log[i].id, e.id) ==> log[i] in committed
  }

  // ----- the hypothesis about the server -------------------------------------------

  /** The page omits nothing that follows `cursor`. */
  ghost predicate PageInOrder(b: Option<EventId>, log: seq<Event>, cursor: Option<EventId>, page: seq<Event>) {
    forall i :: 0 <= i < |page| ==>
                  page[i] in log && page[i].id.Stream? && NothingBetween(b, log, cursor, page[i], page[..i])
  }

  /** Whatever the log has between `cursor` and `e` is in `listed`. */
  ghost predicate NothingBetween(b: Option<EventId>, log: seq<Event>, cursor: Option<EventId>, e: Event,
                                 listed: seq<Event>) {
    forall k :: 0 <= k < |log| && After(b, log[k].id) && !Upto(log[k].id, cursor) && Before(log[k].id, e.id) ==>
                  log[k] in listed
  }

  ghost predicate NextInOrder(b: Option<EventId>, log: seq<Event>, cursor: Option<EventId>, page: seq<Event>,
                              next: Option<EventId>) {
    && Anchored(b, log, next)
    && forall k :: 0 <= k < |log| && After(b, log[k].id) && Upto(log[k].id, next) ==>
                     Upto(log[k].id, cursor) || log[k] in page
  }

  ghost predicate ReachesEnd(b: Option<EventId>, log: seq<Event>, cursor: Option<EventId>, page: seq<Event>,
                             covered: nat) {
    && covered <= |log|
    && forall k :: 0 <= k < covered && After(b, log[k].id) ==> Upto(log[k].id, cursor) || log[k] in page
  }

  ghost predicate PageFaithful(b: Option<EventId>, log: seq<Event>, cursor: Option<EventId>,
                               page: seq<Event>, next: Option<EventId>, covered: nat) {
    && PageInOrder(b, log, cursor, page)
    && if Terminal(cursor, page, next) then ReachesEnd(b, log, cursor, page, covered)
       else NextInOrder(b, log, cursor, page, next)
  }

  ghost predicate StreamFaithful(b: Option<EventId>, log: seq<Event>, pos: Option<EventId>, e: Event) {
    && e in log && e.id.Stream?
    && forall k :: 0 <= k < |log| && After(b, log[k].id) && !Upto(log[k].id, pos) ==> !Before(log[k].id, e.id)
  }

  ghost predicate Gapless<P(!new)>(w: World<P>, s: State<P>, step: Step)
    requires Enabled(w, s, step)
  {
    match step
    case PageArrives(page, next) => PageFaithful(s.baseline, s.log, s.logLane.cursor, page, next, |s.log|)
    case Deliver(e) => StreamFaithful(s.baseline, s.log, s.sseLane.position, e)
    case Restart(b) => b.Some? ==> b.value.Stream?
    case _ => true
  }

  ghost predicate GaplessRun<P(!new)>(w: World<P>, trace: seq<State<P>>, steps: seq<Step>) {
    && Run(w, trace, steps)
    && (trace[0].baseline.Some? ==> trace[0].baseline.value.Stream?)
    && forall i :: 0 <= i < |steps| ==> Gapless(w, trace[i], steps[i])
  }

  // ----- what such a run keeps -----------------------------------------------------

  ghost predicate LogLaneOk(b: Option<EventId>, log: seq<Event>, committed: seq<Event>, lane: LogLane) {
    match lane
    case LogOff => true
    case Fetching(cursor, _) => Covered(b, log, committed, cursor)
    case Working(cursor, _, page, done, next, covered, _) =>
      && Covered(b, log, committed, cursor)
      && PageFaithful(b, log, cursor, page, next, covered)
      && done <= |page|
      && forall i :: 0 <= i < done && After(b, page[i].id) ==> page[i] in committed
  }

  ghost predicate SseLaneOk(b: Option<EventId>, log: seq<Event>, committed: seq<Event>, lane: SseLane) {
    match lane
    case SseOff => true
    case Streaming(position) => Covered(b, log, committed, position)
    case Waiting(e, _) => Sound(b, log, committed, e)
  }

  /** The lane that holds this request's ticket waits for this request's event. */
  predicate Matches(r: Request, tickets: nat, logLane: LogLane, sseLane: SseLane) {
    && r.ticket < tickets
    && (r.lane == Log && logLane.Working? && logLane.ticket == Some(r.ticket) ==>
          logLane.done < |logLane.page| && logLane.page[logLane.done] == r.event)
    && (r.lane == Sse && sseLane.Waiting? && sseLane.ticket == r.ticket ==> sseLane.event == r.event)
  }

  ghost predicate RequestOk<P(!new)>(s: State<P>, r: Request) {
    Sound(s.baseline, s.log, s.core.committed, r.event) && Matches(r, s.tickets, s.logLane, s.sseLane)
  }

  /** The first `n` log events are committed, as far as they come after the baseline. */
  ghost predicate CaughtUp(b: Option<EventId>, log: seq<Event>, committed: seq<Event>, n: nat) {
    n <= |log| && forall i :: 0 <= i < n && After(b, log[i].id) ==> log[i] in committed
  }

  ghost predicate Continuous<P(!new)>(s: State<P>) {
    var b, log, committed := s.baseline, s.log, s.core.committed;
    && LogSorted(log)
    && Covered(b, log, committed, s.core.cursor)
    && (forall i :: 0 <= i < |committed| ==> committed[i] in log)
    && (forall i :: 0 <= i < |s.queue| ==> RequestOk(s, s.queue[i]))
    && (!s.core.stage.Idle? ==> RequestOk(s, s.core.stage.request))
    && LogLaneOk(b, log, committed, s.logLane)
    && SseLaneOk(b, log, committed, s.sseLane)
    && Covered(b, log, committed, None)
    && CaughtUp(b, log, committed, s.caughtUp)
  }

  /** A log that only grows at its end, and commits that only grow. */
  ghost predicate Grows(log: seq<Event>, log': seq<Event>, committed: seq<Event>, committed': seq<Event>) {
    && LogSorted(log') && |log| <= |log'| && (forall i :: 0 <= i < |log| ==> log'[i] == log[i])
    && (forall e :: e in committed ==> e in committed')
  }

  lemma AnchorHolds(b: Option<EventId>, log: seq<Event>, log': seq<Event>, pos: Option<EventId>, i: nat)
    requires Anchored(b, log, pos) && LogSorted(log') && |log| <= i < |log'|
    requires forall k :: 0 <= k < |log| ==> log'[k] == log[k]
    ensures After(b, log'[i].id) ==> !Upto(log'[i].id, pos)
  {
    if pos.Some? && pos != b {
      var k :| 0 <= k < |log| && AtMost(pos.value, log[k].id);
      assert Before(log'[k].id, log'[i].id);
      BeforeTransitive(pos.value, log[k].id, log'[i].id);
    }
    if pos.Some? {
      BeforeTransitive(log'[i].id, pos.value, pos.value);
      BeforeTransitive(pos.value, log'[i].id, log'[i].id);
    }
  }

  lemma CoveredGrows(b: Option<EventId>, log: seq<Event>, log': seq<Event>, committed: seq<Event>,
                     committed': seq<Event>, pos: Option<EventId>)
    requires Covered(b, log, committed, pos) && Grows(log, log', committed, committed')
    ensures Covered(b, log', committed', pos)
  {
    forall i | 0 <= i < |log'| && After(b, log'[i].id) && Upto(log'[i].id, pos) ensures log'[i] in committed' {
      if i >= |log| {
        AnchorHolds(b, log, log', pos, i);
      }
    }
    if pos.Some? && pos != b {
      var k :| 0 <= k < |log| && AtMost(pos.value, log[k].id);
      assert AtMost(pos.value, log'[k].id);
    }
  }

  /** A log event knows its place: nothing appended later comes before it. */
  lemma LaterIsAfter(log: seq<Event>, log': seq<Event>, e: Event, i: nat)
    requires e in log && LogSorted(log') && |log| <= i < |log'|
    requires forall k :: 0 <= k < |log| ==> log'[k] == log[k]
    ensures e in log' && !Before(log'[i].id, e.id)
  {
    var k :| 0 <= k < |log| && log[k] == e;
    assert log'[k] == e;
    BeforeTransitive(e.id, log'[i].id, log'[i].id);
  }

  lemma SoundGrows(b: Option<EventId>, log: seq<Event>, log': seq<Event>, committed: seq<Event>,
                   committed': seq<Event>, e: Event)
    requires Sound(b, log, committed, e) && Grows(log, log', committed, committed')
    ensures Sound(b, log', committed', e)
  {
    var k :| 0 <= k < |log| && log[k] == e;
    assert log'[k] == e;
    forall i | 0 <= i < |log'| && After(b, log'[i].id) && Before(log'[i].id, e.id) ensures log'[i] in committed' {
      if i >= |log| { LaterIsAfter(log, log', e, i); }
    }
  }

  lemma PageGrows(b: Option<EventId>, log: seq<Event>, log': seq<Event>, cursor: Option<EventId>, page: seq<Event>,
                  next: Option<EventId>, covered: nat)
    requires PageFaithful(b, log, cursor, page, next, covered) && Grows(log, log', [], [])
    ensures PageFaithful(b, log', cursor, page, next, covered)
  {
    forall i | 0 <= i < |page| ensures page[i] in log' && NothingBetween(b, log', cursor, page[i], page[..i]) {
      assert page[i] in log && NothingBetween(b, log, cursor, page[i], page[..i]);
      BetweenGrows(b, log, log', cursor, page[i], page[..i]);
    }
    if !Terminal(cursor, page, next) {
      CoverNext(b, log, log', cursor, page, next);
    }
  }

  lemma BetweenGrows(b: Option<EventId>, log: seq<Event>, log': seq<Event>, cursor: Option<EventId>,
                     e: Event, listed: seq<Event>)
    requires e in log && NothingBetween(b, log, cursor, e, listed) && Grows(log, log', [], [])
    ensures e in log' && NothingBetween(b, log', cursor, e, listed)
  {
    var m :| 0 <= m < |log| && log[m] == e;
    assert log'[m] == e;
    forall k | 0 <= k < |log'| && After(b, log'[k].id) && !Upto(log'[k].id, cursor) && Before(log'[k].id, e.id)
      ensures log'[k] in listed
    {
      if k >= |log| { LaterIsAfter(log, log', e, k); }
    }
  }

  lemma CoverNext(b: Option<EventId>, log: seq<Event>, log': seq<Event>, cursor: Option<EventId>, page: seq<Event>,
                  next: Option<EventId>)
    requires NextInOrder(b, log, cursor, page, next) && Grows(log, log', [], [])
    ensures NextInOrder(b, log', cursor, page, next)
  {
    if next.Some? && next != b {
      var k :| 0 <= k < |log| && AtMost(next.value, log[k].id);
      assert AtMost(next.value, log'[k].id);
    }
    forall k | 0 <= k < |log'| && After(b, log'[k].id) && Upto(log'[k].id, next)
      ensures Upto(log'[k].id, cursor) || log'[k] in page
    {
      if k >= |log| { AnchorHolds(b, log, log', next, k); }
    }
  }

  lemma LogLaneGrows(b: Option<EventId>, log: seq<Event>, log': seq<Event>,
                     committed: seq<Event>, committed': seq<Event>, lane: LogLane)
    requires LogLaneOk(b, log, committed, lane) && Grows(log, log', committed, committed')
    ensures LogLaneOk(b, log', committed', lane)
  {
    match lane
    case LogOff =>
    case Fetching(cursor, _) => CoveredGrows(b, log, log', committed, committed', cursor);
    case Working(cursor, _, page, _, next, covered, _) =>
      CoveredGrows(b, log, log', committed, committed', cursor);
      PageGrows(b, log, log', cursor, page, next, covered);
  }

  lemma SseLaneGrows(b: Option<EventId>, log: seq<Event>, log': seq<Event>,
                     committed: seq<Event>, committed': seq<Event>, lane: SseLane)
    requires SseLaneOk(b, log, committed, lane) && Grows(log, log', committed, committed')
    ensures SseLaneOk(b, log', committed', lane)
  {
    match lane
    case SseOff =>
    case Streaming(position) => CoveredGrows(b, log, log', committed, committed', position);
    case Waiting(e, _) => SoundGrows(b, log, log', committed, committed', e);
  }

  lemma CaughtUpGrows(b: Option<EventId>, log: seq<Event>, log': seq<Event>,
                      committed: seq<Event>, committed': seq<Event>, n: nat)
    requires CaughtUp(b, log, committed, n) && Grows(log, log', committed, committed')
    ensures CaughtUp(b, log', committed', n)
  {
  }

  // ----- step by step --------------------------------------------------------------

  /** Continuity speaks of these parts of the state only. */
  lemma Assemble<P(!new)>(s: State<P>, s': State<P>)
    requires Continuous(s)
    requires s'.log == s.log && s'.baseline == s.baseline
    requires s'.core.cursor == s.core.cursor && s'.core.committed == s.core.committed
    requires CaughtUp(s'.baseline, s'.log, s'.core.committed, s'.caughtUp)
    requires LogLaneOk(s.baseline, s'.log, s'.core.committed, s'.logLane)
    requires SseLaneOk(s.baseline, s'.log, s'.core.committed, s'.sseLane)
    requires forall i :: 0 <= i < |s'.queue| ==> RequestOk(s', s'.queue[i])
    requires !s'.core.stage.Idle? ==> RequestOk(s', s'.core.stage.request)
    ensures Continuous(s')
  {
  }

  lemma AppendStep<P(!new)>(w: World<P>, s: State<P>, e: Event)
    requires Continuous(s) && Enabled(w, s, Append(e))
    ensures Continuous(Act(w, s, Append(e)))
  {
    var s' := Act(w, s, Append(e));
    var b, committed := s.baseline, s.core.committed;
    assert Grows(s.log, s'.log, committed, committed);
    CoveredGrows(b, s.log, s'.log, committed, committed, s.core.cursor);
    CoveredGrows(b, s.log, s'.log, committed, committed, None);
    LogLaneGrows(b, s.log, s'.log, committed, committed, s.logLane);
    SseLaneGrows(b, s.log, s'.log, committed, committed, s.sseLane);
    CaughtUpGrows(b, s.log, s'.log, committed, committed, s.caughtUp);
    RequestsGrow(s, s');
  }

  lemma RequestsGrow<P(!new)>(s: State<P>, s': State<P>)
    requires Continuous(s) && Grows(s.log, s'.log, s.core.committed, s'.core.committed)
    requires s'.baseline == s.baseline && s'.queue == s.queue && s'.tickets == s.tickets
    requires s'.logLane == s.logLane && s'.sseLane == s.sseLane
    ensures forall i :: 0 <= i < |s'.queue| ==> RequestOk(s', s'.queue[i])
    ensures !s.core.stage.Idle? ==> RequestOk(s', s.core.stage.request)
  {
    forall i | 0 <= i < |s'.queue| ensures RequestOk(s', s'.queue[i]) {
      SoundGrows(s.baseline, s.log, s'.log, s.core.committed, s'.core.committed, s.queue[i].event);
    }
    if !s.core.stage.Idle? {
      SoundGrows(s.baseline, s.log, s'.log, s.core.committed, s'.core.committed, s.core.stage.request.event);
    }
  }

  /** Starting, stopping, fetching and ending a page. */
  lemma LaneStep<P(!new)>(w: World<P>, s: State<P>, step: Step)
    requires Continuous(s) && Enabled(w, s, step) && Gapless(w, s, step)
    requires step.StartCatchUp? || step.PageArrives? || step.PageFails? || step.Connect? || step.Disconnect?
             || step.Abort?
    ensures Continuous(Act(w, s, step))
  {
    var s' := Act(w, s, step);
    assert Covered(s.baseline, s.log, s.core.committed, s.baseline) by {
      forall i | 0 <= i < |s.log| && After(s.baseline, s.log[i].id) ensures !Upto(s.log[i].id, s.baseline) {
        if s.baseline.Some? { BeforeTransitive(s.baseline.value, s.log[i].id, s.log[i].id); }
      }
    }
    RequestsStay(s, s');
    Assemble(s, s');
  }

  /** A finished page is committed as far as it comes after the baseline. */
  ghost predicate PageDone(b: Option<EventId>, committed: seq<Event>, page: seq<Event>) {
    forall e :: e in page && After(b, e.id) ==> e in committed
  }

  lemma LastPageCovers(b: Option<EventId>, log: seq<Event>, committed: seq<Event>,
                       cursor: Option<EventId>, page: seq<Event>, covered: nat)
    requires Covered(b, log, committed, cursor) && ReachesEnd(b, log, cursor, page, covered)
             && PageDone(b, committed, page)
    ensures CaughtUp(b, log, committed, covered)
  {
  }

  lemma NextPageCovers(b: Option<EventId>, log: seq<Event>, committed: seq<Event>,
                       cursor: Option<EventId>, page: seq<Event>, next: Option<EventId>)
    requires Covered(b, log, committed, cursor) && NextInOrder(b, log, cursor, page, next)
             && PageDone(b, committed, page)
    ensures Covered(b, log, committed, next)
  {
  }

  lemma FinishPageStep<P(!new)>(w: World<P>, s: State<P>)
    requires Continuous(s) && Enabled(w, s, FinishPage)
    ensures Continuous(Act(w, s, FinishPage))
  {
    var b, log, committed, l := s.baseline, s.log, s.core.committed, s.logLane;
    assert PageDone(b, committed, l.page);
    if Terminal(l.cursor, l.page, l.next) {
      LastPageCovers(b, log, committed, l.cursor, l.page, l.covered);
    } else {
      NextPageCovers(b, log, committed, l.cursor, l.page, l.next);
    }
    RequestsStay(s, Act(w, s, FinishPage));
    Assemble(s, Act(w, s, FinishPage));
  }

  /** Requests whose lanes no longer wait for them. */
  lemma RequestsStay<P(!new)>(s: State<P>, s': State<P>)
    requires Continuous(s) && s'.log == s.log && s'.baseline == s.baseline && s'.core == s.core
    requires s'.queue == s.queue && s'.tickets == s.tickets
    requires s'.logLane == s.logLane || !s'.logLane.Working? || s'.logLane.ticket == None
    requires s'.sseLane == s.sseLane || !s'.sseLane.Waiting?
    ensures forall i :: 0 <= i < |s'.queue| ==> RequestOk(s', s'.queue[i])
    ensures !s'.core.stage.Idle? ==> RequestOk(s', s'.core.stage.request)
  {
    forall i | 0 <= i < |s'.queue| ensures RequestOk(s', s'.queue[i]) {
      assert RequestOk(s, s.queue[i]);
    }
  }

  lemma Enqueued<P(!new)>(s: State<P>, s': State<P>, r: Request)
    requires Continuous(s) && s'.core == s.core && s'.log == s.log
    requires s'.baseline == s.baseline && s'.caughtUp == s.caughtUp
    requires s'.queue == s.queue + [r] && s'.tickets == s.tickets + 1 && r.ticket == s.tickets
    requires Sound(s.baseline, s.log, s.core.committed, r.event)
    requires if r.lane == Log then s.logLane.Working? && s.logLane.ticket == None && s'.sseLane == s.sseLane
                                   && s.logLane.done < |s.logLane.page| && s.logLane.page[s.logLane.done] == r.event
                                   && s'.logLane == s.logLane.(ticket := Some(r.ticket))
             else s.sseLane.Streaming? && s'.logLane == s.logLane && s'.sseLane == Waiting(r.event, r.ticket)
    ensures Continuous(s')
  {
    forall i | 0 <= i < |s'.queue| ensures RequestOk(s', s'.queue[i]) {
      if i < |s.queue| {
        assert RequestOk(s, s.queue[i]);
      }
    }
    Assemble(s, s');
  }

  lemma EnqueueNextStep<P(!new)>(w: World<P>, s: State<P>)
    requires Continuous(s) && Enabled(w, s, EnqueueNext)
    ensures Continuous(Act(w, s, EnqueueNext))
  {
    var b, log, committed, l := s.baseline, s.log, s.core.committed, s.logLane;
    var e := l.page[l.done];
    forall k | 0 <= k < |log| && After(b, log[k].id) && Before(log[k].id, e.id) ensures log[k] in committed {
      if !Upto(log[k].id, l.cursor) {
        assert NothingBetween(b, log, l.cursor, e, l.page[..l.done]);
        assert log[k] in l.page[..l.done];
      }
    }
    Enqueued(s, Act(w, s, EnqueueNext), Request(e, Log, s.tickets));
  }

  lemma DeliverStep<P(!new)>(w: World<P>, s: State<P>, e: Event)
    requires Continuous(s) && Enabled(w, s, Deliver(e)) && Gapless(w, s, Deliver(e))
    ensures Continuous(Act(w, s, Deliver(e)))
  {
    var b, log, committed := s.baseline, s.log, s.core.committed;
    forall k | 0 <= k < |log| && After(b, log[k].id) && Before(log[k].id, e.id) ensures log[k] in committed {
      assert Upto(log[k].id, s.sseLane.position);
    }
    Enqueued(s, Act(w, s, Deliver(e)), Request(e, Sse, s.tickets));
  }

  /** An answered event extends the covered range to itself. */
  lemma CoveredTo(b: Option<EventId>, log: seq<Event>, committed: seq<Event>, cursor: Option<EventId>, e: Event)
    requires LogSorted(log) && Covered(b, log, committed, cursor) && Sound(b, log, committed, e) && Upto(e.id, cursor)
    ensures Covered(b, log, committed, Some(e.id)) && (After(b, e.id) ==> e in committed)
  {
    forall i | 0 <= i < |log| && After(b, log[i].id) && Upto(log[i].id, Some(e.id)) ensures log[i] in committed {
      if log[i].id == e.id {
        SameId(log, i, e);
      }
    }
    var k :| 0 <= k < |log| && log[k] == e;
    assert AtMost(e.id, log[k].id);
  }

  lemma ReplyMatches<P(!new)>(s: State<P>, r: Request, ok: bool, q: Request)
    requires Matches(q, s.tickets, s.logLane, s.sseLane)
    ensures Matches(q, s.tickets, LogHears(s.logLane, r, ok), SseHears(s.sseLane, r, ok))
  {
  }

  /** The lanes after an answer; a positive one is given only for an event the cursor covers. */
  lemma ReplyLanes(b: Option<EventId>, log: seq<Event>, committed: seq<Event>, tickets: nat,
                   logLane: LogLane, sseLane: SseLane, r: Request, ok: bool)
    requires LogLaneOk(b, log, committed, logLane) && SseLaneOk(b, log, committed, sseLane)
    requires Matches(r, tickets, logLane, sseLane)
    requires ok ==> Covered(b, log, committed, Some(r.event.id)) && (After(b, r.event.id) ==> r.event in committed)
    ensures LogLaneOk(b, log, committed, LogHears(logLane, r, ok))
    ensures SseLaneOk(b, log, committed, SseHears(sseLane, r, ok))
  {
  }

  lemma SameId(log: seq<Event>, i: nat, e: Event)
    requires LogSorted(log) && i < |log| && e in log && log[i].id == e.id
    ensures log[i] == e
  {
    var k :| 0 <= k < |log| && log[k] == e;
    BeforeTransitive(e.id, e.id, e.id);
  }

  /** A request answered, and every other request kept. */
  lemma Answered<P(!new)>(s: State<P>, s': State<P>, r: Request, ok: bool)
    requires Continuous(s) && RequestOk(s, r)
    requires ok ==> Upto(r.event.id, s.core.cursor)
    requires s'.log == s.log && s'.baseline == s.baseline && s'.caughtUp == s.caughtUp && s'.tickets == s.tickets
    requires s'.core.cursor == s.core.cursor && s'.core.committed == s.core.committed && s'.core.stage == Idle
    requires s'.logLane == LogHears(s.logLane, r, ok) && s'.sseLane == SseHears(s.sseLane, r, ok)
    requires s'.queue == s.queue || (s.queue != [] && s'.queue == s.queue[1..])
    ensures Continuous(s')
  {
    if ok {
      CoveredTo(s.baseline, s.log, s.core.committed, s.core.cursor, r.event);
    }
    ReplyLanes(s.baseline, s.log, s.core.committed, s.tickets, s.logLane, s.sseLane, r, ok);
    forall i | 0 <= i < |s'.queue| ensures RequestOk(s', s'.queue[i]) {
      var q := s'.queue[i];
      assert q == s.queue[if s'.queue == s.queue then i else i + 1];
      assert RequestOk(s, q);
      ReplyMatches(s, r, ok, q);
    }
    Assemble(s, s');
  }

  /** Duplicates, rejections, failed commits and the end of an application. */
  lemma AnswerStep<P(!new)>(w: World<P>, s: State<P>, step: Step)
    requires JournalOk(w, s.core) && Continuous(s) && Enabled(w, s, step)
    requires step.Duplicate? || step.Reject? || step.CommitFails? || step.Finish?
    ensures Continuous(Act(w, s, step))
  {
    var r := if step.Duplicate? || step.Reject? then s.queue[0] else s.core.stage.request;
    var ok := step.Duplicate? || (step.Finish? && step.resolved);
    if step.Duplicate? {
      assert AtMost(r.event.id, s.core.cursor.value);
    }
    assert RequestOk(s, r);
    Answered(s, Act(w, s, step), r, ok);
  }

  lemma StageStep<P(!new)>(w: World<P>, s: State<P>)
    requires Continuous(s) && Enabled(w, s, StageRow)
    ensures Continuous(Act(w, s, StageRow))
  {
    var s' := Act(w, s, StageRow);
    assert RequestOk(s, s.queue[0]);
    forall i | 0 <= i < |s'.queue| ensures RequestOk(s', s'.queue[i]) {
      assert s'.queue[i] == s.queue[i + 1];
    }
    Assemble(s, s');
  }

  /** Committing an event everything before which is committed leaves no gap. */
  lemma CommitStep<P(!new)>(w: World<P>, s: State<P>)
    requires JournalOk(w, s.core) && Continuous(s) && Enabled(w, s, Commit)
    ensures Continuous(Act(w, s, Commit))
  {
    CommitKeepsCommits(w, s.core);
    var s', e := Act(w, s, Commit), s.core.stage.request.event;
    var b, log, committed, committed' := s.baseline, s.log, s.core.committed, s'.core.committed;
    assert Grows(log, log, committed, committed');
    assert s'.core.cursor == Some(e.id);
    forall i | 0 <= i < |log| && After(b, log[i].id) && Upto(log[i].id, Some(e.id)) ensures log[i] in committed' {
      if log[i].id == e.id { SameId(log, i, e); }
    }
    assert Covered(b, log, committed', s'.core.cursor) by {
      var k :| 0 <= k < |log| && log[k] == e;
      assert AtMost(e.id, log[k].id);
    }
    LogLaneGrows(b, log, log, committed, committed', s.logLane);
    SseLaneGrows(b, log, log, committed, committed', s.sseLane);
    CaughtUpGrows(b, log, log, committed, committed', s.caughtUp);
    RequestsGrow(s, s');
  }

  /** A restart forgets lanes and requests; without a cursor nothing is committed and any watermark will do. */
  lemma RestartStep<P(!new)>(w: World<P>, s: State<P>, step: Step)
    requires JournalOk(w, s.core) && Continuous(s) && step.Restart? && Enabled(w, s, step) && Gapless(w, s, step)
    ensures Continuous(Act(w, s, step))
  {
    if step.baseline == s.baseline {
      Assemble(s, Act(w, s, step));
    }
  }

  /** The steps of the applier. */
  predicate Applies(step: Step) {
    || step.Duplicate? || step.Reject? || step.StageRow? || step.CommitFails? || step.Commit? || step.Finish?
    || step.Restart?
  }

  lemma ApplierStep<P(!new)>(w: World<P>, s: State<P>, step: Step)
    requires JournalOk(w, s.core) && Continuous(s) && Enabled(w, s, step) && Gapless(w, s, step) && Applies(step)
    ensures Continuous(Act(w, s, step))
  {
    if step.StageRow? {
      StageStep(w, s);
    } else if step.Commit? {
      CommitStep(w, s);
    } else if step.Restart? {
      RestartStep(w, s, step);
    } else {
      AnswerStep(w, s, step);
    }
  }

  lemma FeedStep<P(!new)>(w: World<P>, s: State<P>, step: Step)
    requires Continuous(s) && Enabled(w, s, step) && Gapless(w, s, step) && !Applies(step)
    ensures Continuous(Act(w, s, step))
  {
    if step.Append? {
      AppendStep(w, s, step.event);
    } else if step.EnqueueNext? {
      EnqueueNextStep(w, s);
    } else if step.FinishPage? {
      FinishPageStep(w, s);
    } else if step.Deliver? {
      DeliverStep(w, s, step.event);
    } else {
      LaneStep(w, s, step);
    }
  }

  lemma ContinuousStep<P(!new)>(w: World<P>, s: State<P>, step: Step)
    requires JournalOk(w, s.core) && Continuous(s) && Enabled(w, s, step) && Gapless(w, s, step)
    ensures Continuous(Act(w, s, step))
  {
    if Applies(step) {
      ApplierStep(w, s, step);
    } else {
      FeedStep(w, s, step);
    }
  }

  lemma {:induction false} ContinuousAlways<P(!new)>(w: World<P>, trace: seq<State<P>>, steps: seq<Step>, k: nat)
    requires GaplessRun(w, trace, steps) && k < |trace|
    ensures Continuous(trace[k])
  {
    if k == 0 {
      InitContinuous(w, trace[0]);
    } else {
      ContinuousAlways(w, trace, steps, k - 1);
      ContinuousNext(w, trace, steps, k);
    }
  }

  lemma ContinuousNext<P(!new)>(w: World<P>, trace: seq<State<P>>, steps: seq<Step>, k: nat)
    requires GaplessRun(w, trace, steps) && 0 < k < |trace| && Continuous(trace[k - 1])
    ensures Continuous(trace[k])
  {
    JournalAlways(w, trace, steps, k - 1);
    assert Gapless(w, trace[k - 1], steps[k - 1]);
    ContinuousStep(w, trace[k - 1], steps[k - 1]);
  }

  lemma InitContinuous<P(!new)>(w: World<P>, s: State<P>)
    requires Init(w, s) && (s.baseline.Some? ==> s.baseline.value.Stream?)
    ensures Continuous(s)
  {
    forall i | 0 <= i < |s.log| && After(s.baseline, s.log[i].id) ensures !Upto(s.log[i].id, s.core.cursor) {
      if s.baseline.Some? { BeforeTransitive(s.baseline.value, s.log[i].id, s.log[i].id); }
    }
  }
}
