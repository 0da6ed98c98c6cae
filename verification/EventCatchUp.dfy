/** One catch-up traversal from its first request to its end. */
module EventCatchUp {
  import opened Orderings
  import opened EventPipeline
  import opened EventJournal
  import opened EventContinuity
  import opened EventLoss
  import opened Traces

  // ----- the end of a page ---------------------------------------------------------

  /**
   After the last event of a page the traversal is complete when there is no next cursor, or
   it repeats the page's last event or the cursor of the page; it stops incomplete at the page
   bound, of which zero counts as one; otherwise it asks for the page after the next cursor.
   */
  lemma PageEndWritten<P(!new)>(w: World<P>, s: State<P>)
    requires s.logLane.Working? && s.logLane.done == |s.logLane.page|
    ensures Enabled(w, s, FinishPage)
    ensures var l, s' := s.logLane, Act(w, s, FinishPage);
            var over := || l.next == None || l.next == l.cursor
                        || (l.page != [] && l.next == Some(l.page[|l.page| - 1].id));
            var spare := l.pages + 1 < w.maxPages;
            && s' == s.(logLane := s'.logLane, caughtUp := s'.caughtUp)
            && s'.logLane == (if !over && spare then Fetching(l.next, l.pages + 1) else LogOff)
            && s'.caughtUp == (if over then l.covered else s.caughtUp)
  {
  }

  // ----- steps that open a lane ----------------------------------------------------

  /**
   A closed log lane starts from the applied cursor, from the baseline or from nothing, and a
   closed stream from the cursor or from nothing; no other start is possible.
   */
  lemma OpeningWritten<P(!new)>(w: World<P>, s: State<P>, from: Option<EventId>)
    ensures Enabled(w, s, StartCatchUp(from)) <==> s.logLane == LogOff && from in {s.core.cursor, s.baseline, None}
    ensures Enabled(w, s, StartCatchUp(from)) ==> Act(w, s, StartCatchUp(from)) == s.(logLane := Fetching(from, 0))
    ensures Enabled(w, s, Connect(from)) <==> s.sseLane == SseOff && from in {s.core.cursor, None}
    ensures Enabled(w, s, Connect(from)) ==> Act(w, s, Connect(from)) == s.(sseLane := Streaming(from))
  {
  }

  /** An open stream takes any event, hands it over under a new ticket behind what is queued, and waits. */
  lemma DeliveryWritten<P(!new)>(w: World<P>, s: State<P>, e: Event)
    ensures Enabled(w, s, Deliver(e)) <==> s.sseLane.Streaming?
    ensures Enabled(w, s, Deliver(e)) ==>
              Act(w, s, Deliver(e)) == s.(queue := s.queue + [Request(e, Sse, s.tickets)], tickets := s.tickets + 1,
                                          sseLane := Waiting(e, s.tickets))
  {
  }

  /**
   The applier takes the oldest request: dropped if the cursor covers it, staged if it lies
   beyond, and stuck on neither.
   */
  lemma TurnWritten<P(!new)>(w: World<P>, s: State<P>, marked: bool)
    ensures Enabled(w, s, Reject) <==> s.core.stage == Idle && s.queue != []
    ensures Enabled(w, s, Duplicate(marked))
            <==> s.core.stage == Idle && s.queue != [] && Upto(s.queue[0].event.id, s.core.cursor)
    ensures Enabled(w, s, StageRow)
            <==> && s.core.stage == Idle && s.queue != []
                 && (s.core.cursor == None || Before(s.core.cursor.value, s.queue[0].event.id))
  {
    if s.queue != [] && s.core.cursor.Some? {
      BeforeTransitive(s.queue[0].event.id, s.core.cursor.value, s.queue[0].event.id);
    }
  }

  // ----- steps that give up --------------------------------------------------------

  /** The lane after a refusal: a lane that waits for this request closes, another does not notice. */
  ghost predicate Refused<P(!new)>(s: State<P>, s': State<P>, r: Request) {
    && s'.logLane == (if r.lane == Log && s.logLane.Working? && s.logLane.ticket == Some(r.ticket)
                         && s.logLane.done < |s.logLane.page| then LogOff else s.logLane)
    && s'.sseLane == (if r.lane == Sse && s.sseLane.Waiting? && s.sseLane.ticket == r.ticket then SseOff else s.sseLane)
  }

  /** A rejected request leaves the queue and a failed commit the stage; nothing durable changes but its row. */
  lemma RefusalWritten<P(!new)>(w: World<P>, s: State<P>)
    ensures Enabled(w, s, Reject) ==>
              var s' := Act(w, s, Reject);
              s.queue == [s.queue[0]] + s'.queue && Refused(s, s', s.queue[0])
              && s' == s.(queue := s'.queue, logLane := s'.logLane, sseLane := s'.sseLane)
    ensures Enabled(w, s, CommitFails) ==>
              var s' := Act(w, s, CommitFails);
              Refused(s, s', s.core.stage.request)
              && s' == s.(core := s.core.(stage := Idle), logLane := s'.logLane, sseLane := s'.sseLane)
  {
  }

  /** A page that fails, a stream that ends and an aborted producer close that lane and nothing else. */
  lemma GivingUpWritten<P(!new)>(w: World<P>, s: State<P>)
    ensures Enabled(w, s, PageFails) ==> Act(w, s, PageFails) == s.(logLane := LogOff)
    ensures Enabled(w, s, Disconnect) ==> Act(w, s, Disconnect) == s.(sseLane := SseOff)
    ensures Act(w, s, Abort(Log)) == s.(logLane := LogOff) && Act(w, s, Abort(Sse)) == s.(sseLane := SseOff)
  {
  }

  /** A staged history row whose identity cannot be compared with the cursor. */
  ghost predicate Blocks<P(!new)>(c: Core<P>, row: Row) {
    && !row.applied && c.cursor.Some? && row.event.id != c.cursor.value
    && (row.event.id.Malformed? || c.cursor.value.Malformed?)
  }

  /** The store can be reopened exactly when no row blocks it; then lanes, queue and stage are gone. */
  lemma RestartWritten<P(!new)>(w: World<P>, s: State<P>, b: Option<EventId>)
    ensures Enabled(w, s, Restart(b))
            <==> && (forall row :: row in s.core.history ==> !Blocks(s.core, row))
                 && (s.core.cursor.Some? ==> b == s.baseline)
    ensures Enabled(w, s, Restart(b)) ==>
              var s' := Act(w, s, Restart(b));
              && s'.logLane == LogOff && s'.sseLane == SseOff && s'.queue == [] && s'.core.stage == Idle
              && s'.baseline == b && s'.log == s.log && s'.tickets == s.tickets
              && s'.core == s.core.(stage := Idle, history := s'.core.history)
  {
    var c := s.core;
    if !Reopens(c) {
      var i :| 0 <= i < |c.history| && !c.history[i].applied && CompareIds(c.history[i].event.id, c.cursor.value).None?;
      assert c.history[i] in c.history && Blocks(c, c.history[i]);
    }
  }

  // ----- one event of a page -------------------------------------------------------

  /** Nothing is queued or being applied, and both kinds of invariant hold. */
  ghost predicate Calm<P(!new)>(w: World<P>, s: State<P>) {
    JournalOk(w, s.core) && Continuous(s) && s.queue == [] && s.core.stage.Idle?
  }

  lemma Moved<P(!new)>(w: World<P>, s: State<P>, step: Step, s': State<P>)
    requires JournalOk(w, s.core) && Continuous(s) && Enabled(w, s, step) && Gapless(w, s, step)
    requires s' == Act(w, s, step)
    ensures JournalOk(w, s'.core) && Continuous(s') && Leads(Moves(w), s, [step], s')
  {
    JournalStep(w, s, step);
    ContinuousStep(w, s, step);
    One(Moves(w), s, step, s');
  }

  /** The lane of a page at work, its next event handed over under a ticket or not. */
  ghost predicate AtWork<P(!new)>(s: State<P>, ticket: Option<nat>) {
    s.logLane.Working? && s.logLane.ticket == ticket && s.logLane.done < |s.logLane.page|
  }

  lemma HandOver<P(!new)>(w: World<P>, s: State<P>) returns (s': State<P>)
    requires Calm(w, s) && AtWork(s, None)
    ensures Leads(Moves(w), s, [EnqueueNext], s') && JournalOk(w, s'.core) && Continuous(s')
    ensures s' == s.(queue := [Request(s.logLane.page[s.logLane.done], Log, s.tickets)], tickets := s.tickets + 1,
                     logLane := s.logLane.(ticket := Some(s.tickets)))
  {
    s' := Act(w, s, EnqueueNext);
    assert s'.queue == [Request(s.logLane.page[s.logLane.done], Log, s.tickets)];
    Moved(w, s, EnqueueNext, s');
  }

  /** The request of the log lane waits alone. */
  ghost predicate Waits<P(!new)>(s: State<P>, r: Request) {
    AtWork(s, Some(r.ticket)) && r == Request(s.logLane.page[s.logLane.done], Log, r.ticket)
  }

  /** The state after the lane's event was answered. */
  ghost predicate Answers<P(!new)>(s: State<P>, s': State<P>) {
    && s'.log == s.log && s'.baseline == s.baseline && s'.caughtUp == s.caughtUp
    && s.logLane.Working? && s'.logLane == s.logLane.(done := s.logLane.done + 1, ticket := None)
  }

  lemma AnsweredDuplicate<P(!new)>(w: World<P>, s: State<P>, r: Request) returns (s': State<P>)
    requires JournalOk(w, s.core) && Continuous(s) && s.core.stage.Idle? && s.queue == [r] && Waits(s, r)
    requires HasEvent(s.core.cursor, r.event.id) == Some(true)
    ensures Leads(Moves(w), s, [Duplicate(true)], s') && Calm(w, s') && Answers(s, s')
  {
    s' := Act(w, s, Duplicate(true));
    Moved(w, s, Duplicate(true), s');
  }

  lemma StagedAlone<P(!new)>(w: World<P>, s: State<P>, r: Request) returns (s': State<P>)
    requires JournalOk(w, s.core) && Continuous(s) && s.core.stage.Idle? && s.queue == [r]
    requires HasEvent(s.core.cursor, r.event.id) == Some(false)
    ensures Leads(Moves(w), s, [StageRow], s') && JournalOk(w, s'.core) && Continuous(s')
    ensures s' == s.(core := s'.core, queue := []) && s'.core.stage == Staged(r)
  {
    s' := Act(w, s, StageRow);
    Moved(w, s, StageRow, s');
  }

  lemma CommittedAlone<P(!new)>(w: World<P>, s: State<P>, r: Request) returns (s': State<P>)
    requires JournalOk(w, s.core) && Continuous(s) && s.core.stage == Staged(r)
    ensures Leads(Moves(w), s, [Commit], s') && JournalOk(w, s'.core) && Continuous(s')
    ensures s' == s.(core := s'.core) && s'.core.stage == Committed(r)
  {
    s' := Act(w, s, Commit);
    Moved(w, s, Commit, s');
  }

  lemma FinishedAlone<P(!new)>(w: World<P>, s: State<P>, r: Request) returns (s': State<P>)
    requires JournalOk(w, s.core) && Continuous(s) && s.core.stage == Committed(r) && s.queue == [] && Waits(s, r)
    ensures Leads(Moves(w), s, [Finish(true, true)], s') && Calm(w, s') && Answers(s, s')
  {
    s' := Act(w, s, Finish(true, true));
    Moved(w, s, Finish(true, true), s');
  }

  lemma AppliedAlone<P(!new)>(w: World<P>, s: State<P>, r: Request) returns (steps: seq<Step>, s': State<P>)
    requires JournalOk(w, s.core) && Continuous(s) && s.core.stage.Idle? && s.queue == [r] && Waits(s, r)
    requires HasEvent(s.core.cursor, r.event.id) == Some(false)
    ensures Leads(Moves(w), s, steps, s') && Calm(w, s') && Answers(s, s')
  {
    var a := StagedAlone(w, s, r);
    var b := CommittedAlone(w, a, r);
    s' := FinishedAlone(w, b, r);
    LeadsThen(Moves(w), a, [Commit], b, [Finish(true, true)], s');
    LeadsThen(Moves(w), s, [StageRow], a, [Commit] + [Finish(true, true)], s');
    steps := [StageRow] + ([Commit] + [Finish(true, true)]);
  }

  lemma Comparable<P(!new)>(s: State<P>)
    requires Continuous(s) && AtWork(s, None)
    ensures HasEvent(s.core.cursor, s.logLane.page[s.logLane.done].id).Some?
  {
    assert Covered(s.baseline, s.log, s.core.committed, s.core.cursor);
    assert PageInOrder(s.baseline, s.log, s.logLane.cursor, s.logLane.page);
  }

  lemma DuplicateDone<P(!new)>(w: World<P>, s: State<P>) returns (steps: seq<Step>, s': State<P>)
    requires Calm(w, s) && AtWork(s, None)
    requires HasEvent(s.core.cursor, s.logLane.page[s.logLane.done].id) == Some(true)
    ensures Leads(Moves(w), s, steps, s') && Calm(w, s') && Answers(s, s')
  {
    var a := HandOver(w, s);
    s' := AnsweredDuplicate(w, a, a.queue[0]);
    steps := [EnqueueNext] + [Duplicate(true)];
    LeadsThen(Moves(w), s, [EnqueueNext], a, [Duplicate(true)], s');
  }

  lemma NewDone<P(!new)>(w: World<P>, s: State<P>) returns (steps: seq<Step>, s': State<P>)
    requires Calm(w, s) && AtWork(s, None)
    requires HasEvent(s.core.cursor, s.logLane.page[s.logLane.done].id) == Some(false)
    ensures Leads(Moves(w), s, steps, s') && Calm(w, s') && Answers(s, s')
  {
    var a := HandOver(w, s);
    var rest;
    rest, s' := AppliedAlone(w, a, a.queue[0]);
    steps := [EnqueueNext] + rest;
    LeadsThen(Moves(w), s, [EnqueueNext], a, rest, s');
  }

  /** The next event of a page, new or already covered, is applied or dropped, and the lane moves on. */
  lemma EventDone<P(!new)>(w: World<P>, s: State<P>) returns (steps: seq<Step>, s': State<P>)
    requires Calm(w, s) && AtWork(s, None)
    ensures Leads(Moves(w), s, steps, s') && Calm(w, s') && Answers(s, s')
  {
    Comparable(s);
    if HasEvent(s.core.cursor, s.logLane.page[s.logLane.done].id) == Some(true) {
      steps, s' := DuplicateDone(w, s);
    } else {
      steps, s' := NewDone(w, s);
    }
  }

  // ----- one page ------------------------------------------------------------------

  /** The lane at the end of a page, as `Terminal` and the page bound have it. */
  ghost predicate Ended<P(!new)>(w: World<P>, s: State<P>, s': State<P>) {
    var l := s.logLane;
    && l.Working? && s'.log == s.log && s'.baseline == s.baseline
    && if Terminal(l.cursor, l.page, l.next) then s'.logLane == LogOff && s'.caughtUp == l.covered
       else l.pages + 1 < w.maxPages ==> s'.logLane == Fetching(l.next, l.pages + 1)
  }

  lemma PageClosed<P(!new)>(w: World<P>, s: State<P>) returns (s': State<P>)
    requires Calm(w, s) && s.logLane.Working? && s.logLane.done == |s.logLane.page|
    ensures Leads(Moves(w), s, [FinishPage], s') && Calm(w, s') && Ended(w, s, s')
  {
    s' := Act(w, s, FinishPage);
    PageEndWritten(w, s);
    Moved(w, s, FinishPage, s');
  }

  lemma EndedLater<P(!new)>(w: World<P>, s: State<P>, m: State<P>, s': State<P>)
    requires Answers(s, m) && Ended(w, m, s')
    ensures Ended(w, s, s')
  {
  }

  /** The rest of a page and its end. */
  lemma {:induction false} PageWorked<P(!new)>(w: World<P>, s: State<P>) returns (steps: seq<Step>, s': State<P>)
    requires Calm(w, s) && s.logLane.Working? && s.logLane.ticket == None && s.logLane.done <= |s.logLane.page|
    ensures Leads(Moves(w), s, steps, s') && Calm(w, s') && Ended(w, s, s')
    decreases |s.logLane.page| - s.logLane.done
  {
    if s.logLane.done == |s.logLane.page| {
      s' := PageClosed(w, s);
      steps := [FinishPage];
    } else {
      var first, m := EventDone(w, s);
      var rest;
      rest, s' := PageWorked(w, m);
      EndedLater(w, s, m, s');
      LeadsThen(Moves(w), s, first, m, rest, s');
      steps := first + rest;
    }
  }

  // ----- the whole traversal -------------------------------------------------------

  datatype Page = Page(events: seq<Event>, next: Option<EventId>)

  /** The server answers with these pages: each faithful to the log, only the last one final. */
  ghost predicate Serves(b: Option<EventId>, log: seq<Event>, cursor: Option<EventId>, pages: seq<Page>)
    decreases |pages|
  {
    && pages != [] && PageFaithful(b, log, cursor, pages[0].events, pages[0].next, |log|)
    && (Terminal(cursor, pages[0].events, pages[0].next) <==> |pages| == 1)
    && (|pages| > 1 ==> Serves(b, log, pages[0].next, pages[1..]))
  }

  lemma PageFetched<P(!new)>(w: World<P>, s: State<P>, page: Page) returns (s': State<P>)
    requires Calm(w, s) && s.logLane.Fetching?
    requires PageFaithful(s.baseline, s.log, s.logLane.cursor, page.events, page.next, |s.log|)
    ensures Leads(Moves(w), s, [PageArrives(page.events, page.next)], s') && Calm(w, s')
    ensures s' == s.(logLane := Working(s.logLane.cursor, s.logLane.pages, page.events, 0, page.next, |s.log|, None))
  {
    s' := Act(w, s, PageArrives(page.events, page.next));
    Moved(w, s, PageArrives(page.events, page.next), s');
  }

  /** One page from its arrival to its end. */
  lemma PageWhole<P(!new)>(w: World<P>, s: State<P>, page: Page) returns (steps: seq<Step>, s': State<P>)
    requires Calm(w, s) && s.logLane.Fetching?
    requires PageFaithful(s.baseline, s.log, s.logLane.cursor, page.events, page.next, |s.log|)
    ensures Leads(Moves(w), s, steps, s') && Calm(w, s') && s'.log == s.log && s'.baseline == s.baseline
    ensures if Terminal(s.logLane.cursor, page.events, page.next) then s'.logLane == LogOff && s'.caughtUp == |s.log|
            else s.logLane.pages + 1 < w.maxPages ==> s'.logLane == Fetching(page.next, s.logLane.pages + 1)
  {
    var a := PageFetched(w, s, page);
    var rest;
    rest, s' := PageWorked(w, a);
    var open := [PageArrives(page.events, page.next)];
    LeadsThen(Moves(w), s, open, a, rest, s');
    steps := open + rest;
  }

  /**
   From any state of a gapless run in which the applier is idle: a server that answers with
   faithful pages, within the page bound, lets the traversal run to its end, complete, with
   every log event after the baseline committed.
   */
  lemma {:induction false} CatchUpCompletes<P(!new)>(w: World<P>, s: State<P>, pages: seq<Page>)
    returns (steps: seq<Step>, s': State<P>)
    requires Calm(w, s) && s.logLane.Fetching? && Serves(s.baseline, s.log, s.logLane.cursor, pages)
    requires |pages| > 1 ==> s.logLane.pages + |pages| <= w.maxPages
    ensures Leads(Moves(w), s, steps, s') && Calm(w, s') && s'.log == s.log && s'.baseline == s.baseline
    ensures s'.logLane == LogOff && s'.caughtUp == |s.log|
    ensures forall e :: e in s.log && After(s.baseline, e.id) ==> e in s'.core.committed
    decreases |pages|
  {
    var first, m := PageWhole(w, s, pages[0]);
    if |pages| == 1 {
      steps, s' := first, m;
    } else {
      var rest;
      rest, s' := CatchUpCompletes(w, m, pages[1..]);
      steps := first + rest;
      LeadsThen(Moves(w), s, first, m, rest, s');
    }
    assert CaughtUp(s'.baseline, s'.log, s'.core.committed, s'.caughtUp);
  }
}
