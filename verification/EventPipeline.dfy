/**
 The durable event pipeline as a step machine.

 Two lanes, the unfiltered log catch-up and the event stream, hand events to one ordered
 applier and wait for its reply.  The applier stages an event in the history database,
 commits its projection and the cursor in one transaction of the primary database, marks
 the history row, and then notifies.  Every load, page, commit, failure, abort and restart
 is one step; the label of a step carries every choice that is not the client's.

 `committed` and `notified` are the history of the run: the events in commit order and
 the events handed to subscribers.
 */
module EventPipeline {
  import opened Orderings

  // ----- event identities ----------------------------------------------------------

  /** A stream identity, or text that is not one. */
  datatype EventId = Stream(millis: int, sequence: int) | Malformed(text: string)

  datatype Event = Event(id: EventId, payload: string)

  /** Numeric order; two different identities compare only when both parse. */
  function CompareIds(a: EventId, b: EventId): Option<Ordering> {
    if a == b then Some(Equal)
    else if a.Stream? && b.Stream? then
      Some(Compare(a.millis, b.millis).Then(Compare(a.sequence, b.sequence)))
    else None
  }

  predicate Before(a: EventId, b: EventId) { CompareIds(a, b) == Some(Less) }

  predicate AtMost(a: EventId, b: EventId) { a == b || Before(a, b) }

  /** Strictly after an optional position; everything is after no position. */
  predicate After(p: Option<EventId>, x: EventId) { p.None? || Before(p.value, x) }

  predicate Upto(x: EventId, p: Option<EventId>) { p.Some? && AtMost(x, p.value) }

  /** Whether the store has the event: its answer is the cursor's, and may be an error. */
  function HasEvent(cursor: Option<EventId>, id: EventId): Option<bool> {
    if cursor.None? then Some(false)
    else match CompareIds(id, cursor.value)
         case None => None
         case Some(order) => Some(order != Greater)
  }

  // ----- states --------------------------------------------------------------------

  datatype LaneId = Log | Sse

  datatype Request = Request(event: Event, lane: LaneId, ticket: nat)

  /** One row of the history database; `applied` is its visibility mark. */
  datatype Row = Row(event: Event, applied: bool)

  datatype Stage = Idle | Staged(request: Request) | Committed(request: Request)

  /** A catch-up traversal: requesting the page after `cursor`, or working through one. */
  datatype LogLane =
    | LogOff
    | Fetching(cursor: Option<EventId>, pages: nat)
    | Working(cursor: Option<EventId>, pages: nat, page: seq<Event>, done: nat, next: Option<EventId>,
              covered: nat, ticket: Option<nat>)

  /** A stream session: everything up to `position` was answered. */
  datatype SseLane = SseOff | Streaming(position: Option<EventId>) | Waiting(event: Event, ticket: nat)

  /** Primary database, history database and applier, with the record of the run. */
  datatype Core<P> = Core(
    projection: P,
    cursor: Option<EventId>,
    history: seq<Row>,
    stage: Stage,
    committed: seq<Event>,
    notified: seq<EventId>)

  datatype State<P> = State(
    log: seq<Event>,
    baseline: Option<EventId>,
    core: Core<P>,
    queue: seq<Request>,
    logLane: LogLane,
    sseLane: SseLane,
    tickets: nat,
    caughtUp: nat)

  /** The reducers, the state and cursor at the start, and the page bound. */
  datatype World<!P> = World(
    reduce: (P, Event) -> P,
    initial: P,
    start: Option<EventId>,
    maxPages: nat)

  ghost predicate Init<P(!new)>(w: World<P>, s: State<P>) {
    && InitCore(w, s.core) && (w.start == None || s.baseline == w.start)
    && (forall i, j :: 0 <= i < j < |s.log| ==> Before(s.log[i].id, s.log[j].id))
    && s.queue == [] && s.logLane == LogOff && s.sseLane == SseOff && s.caughtUp == 0
  }

  ghost predicate InitCore<P(!new)>(w: World<P>, c: Core<P>) {
    && c.projection == w.initial && c.cursor == w.start
    && c.stage == Idle && c.committed == [] && c.notified == []
    && (forall i, j :: 0 <= i < j < |c.history| ==> c.history[i].event.id != c.history[j].event.id)
    && (forall i :: 0 <= i < |c.history| && c.history[i].applied ==> Upto(c.history[i].event.id, c.cursor))
  }

  // ----- steps ---------------------------------------------------------------------

  datatype Step =
    | Append(event: Event)                                    // the server logs an event
    | StartCatchUp(from: Option<EventId>)
    | PageArrives(page: seq<Event>, next: Option<EventId>)
    | PageFails
    | EnqueueNext                                             // the next event of the page
    | FinishPage
    | Connect(from: Option<EventId>)
    | Deliver(event: Event)                                   // the stream yields an event
    | Disconnect
    | Duplicate(marked: bool)                                 // the store already covers the event
    | Reject                                                  // reduce, compare or history append failed
    | StageRow
    | CommitFails
    | Commit
    | Finish(marked: bool, resolved: bool)                    // mark the row, resolve evidence, notify
    | Abort(lane: LaneId)                                     // a producer stops awaiting
    | Restart(baseline: Option<EventId>)                      // a start without a cursor takes a new watermark

  function Mark(history: seq<Row>, id: EventId): (marked: seq<Row>)
    ensures |marked| == |history|
    ensures forall i :: 0 <= i < |history| ==> marked[i].event == history[i].event
    ensures forall i :: 0 <= i < |history| ==>
                          marked[i].applied == (history[i].applied || history[i].event.id == id)
  {
    seq(|history|, i requires 0 <= i < |history| =>
      if history[i].event.id == id then Row(history[i].event, true) else history[i])
  }

  /** Opening the store marks every staged row the cursor covers. */
  function MarkCovered(history: seq<Row>, cursor: Option<EventId>): (marked: seq<Row>)
    ensures |marked| == |history|
    ensures forall i :: 0 <= i < |history| ==> marked[i].event == history[i].event
    ensures forall i :: 0 <= i < |history| ==>
                          marked[i].applied == (history[i].applied || Upto(history[i].event.id, cursor))
  {
    seq(|history|, i requires 0 <= i < |history| =>
      if Upto(history[i].event.id, cursor) then Row(history[i].event, true) else history[i])
  }

  predicate HasRow(history: seq<Row>, id: EventId) {
    exists i :: 0 <= i < |history| && history[i].event.id == id
  }

  /** Insert-or-ignore by identity. */
  function Insert(history: seq<Row>, event: Event): seq<Row> {
    if HasRow(history, event.id) then history else history + [Row(event, false)]
  }

  /** The cursor moves only forward. */
  function Advance(cursor: Option<EventId>, id: EventId): Option<EventId> {
    if cursor.None? || Before(cursor.value, id) then Some(id) else cursor
  }

  /** Whether a page ends the traversal: no next cursor, or one that repeats. */
  predicate Terminal(cursor: Option<EventId>, page: seq<Event>, next: Option<EventId>) {
    next.None? || (page != [] && page[|page| - 1].id == next.value) || cursor == next
  }

  predicate Enabled<P>(w: World<P>, s: State<P>, step: Step) {
    match step
    case Append(e) => e.id.Stream? && forall i :: 0 <= i < |s.log| ==> Before(s.log[i].id, e.id)
    case StartCatchUp(from) =>
      s.logLane.LogOff? && (from == s.core.cursor || from == s.baseline || from == None)
    case PageArrives(page, next) => s.logLane.Fetching?
    case PageFails => s.logLane.Fetching?
    case EnqueueNext => s.logLane.Working? && s.logLane.ticket == None && s.logLane.done < |s.logLane.page|
    case FinishPage => s.logLane.Working? && s.logLane.done == |s.logLane.page|
    case Connect(from) => s.sseLane.SseOff? && (from == s.core.cursor || from == None)
    case Deliver(e) => s.sseLane.Streaming?
    case Disconnect => s.sseLane.Streaming?
    case Duplicate(_) => Turn(s) && HasEvent(s.core.cursor, s.queue[0].event.id) == Some(true)
    case Reject => Turn(s)
    case StageRow => Turn(s) && HasEvent(s.core.cursor, s.queue[0].event.id) == Some(false)
    case CommitFails => s.core.stage.Staged?
    case Commit => s.core.stage.Staged?
    case Finish(_, _) => s.core.stage.Committed?
    case Abort(_) => true
    case Restart(baseline) => Reopens(s.core) && (s.core.cursor.Some? ==> baseline == s.baseline)
  }

  /** The applier is free and a request waits. */
  predicate Turn<P>(s: State<P>) { s.core.stage.Idle? && s.queue != [] }

  /** Opening compares every staged row with the cursor, and fails on an incomparable one. */
  predicate Reopens<P>(c: Core<P>) {
    c.cursor.Some? ==>
      forall i :: 0 <= i < |c.history| && !c.history[i].applied ==>
                    CompareIds(c.history[i].event.id, c.cursor.value).Some?
  }

  // ----- what a step does to the core ----------------------------------------------

  function AfterDuplicate<P>(c: Core<P>, id: EventId, marked: bool): Core<P> {
    c.(history := if marked then Mark(c.history, id) else c.history)
  }

  function AfterStage<P>(c: Core<P>, r: Request): Core<P> {
    c.(history := Insert(c.history, r.event), stage := Staged(r))
  }

  /** Projection and cursor change together. */
  function AfterCommit<P>(w: World<P>, c: Core<P>): Core<P>
    requires c.stage.Staged?
  {
    var e := c.stage.request.event;
    c.(projection := w.reduce(c.projection, e), cursor := Advance(c.cursor, e.id),
       stage := Committed(c.stage.request), committed := c.committed + [e])
  }

  function AfterFinish<P>(c: Core<P>, marked: bool, resolved: bool): Core<P>
    requires c.stage.Committed?
  {
    var id := c.stage.request.event.id;
    c.(stage := Idle, history := if marked then Mark(c.history, id) else c.history,
       notified := if resolved then c.notified + [id] else c.notified)
  }

  function AfterRestart<P>(c: Core<P>): Core<P> {
    c.(stage := Idle, history := MarkCovered(c.history, c.cursor))
  }

  function CoreAct<P>(w: World<P>, s: State<P>, step: Step): Core<P>
    requires Enabled(w, s, step)
  {
    match step
    case Duplicate(marked) => AfterDuplicate(s.core, s.queue[0].event.id, marked)
    case StageRow => AfterStage(s.core, s.queue[0])
    case CommitFails => s.core.(stage := Idle)
    case Commit => AfterCommit(w, s.core)
    case Finish(marked, resolved) => AfterFinish(s.core, marked, resolved)
    case Restart(_) => AfterRestart(s.core)
    case _ => s.core
  }

  // ----- what a step does to the lanes and the queue -------------------------------

  /** The answer to one request; only the lane that still holds its ticket hears it. */
  function Reply<P>(s: State<P>, r: Request, ok: bool): State<P> {
    s.(logLane := LogHears(s.logLane, r, ok), sseLane := SseHears(s.sseLane, r, ok))
  }

  function LogHears(lane: LogLane, r: Request, ok: bool): LogLane {
    if r.lane == Log && lane.Working? && lane.ticket == Some(r.ticket) && lane.done < |lane.page| then
      if ok then lane.(done := lane.done + 1, ticket := None) else LogOff
    else lane
  }

  function SseHears(lane: SseLane, r: Request, ok: bool): SseLane {
    if r.lane == Sse && lane.Waiting? && lane.ticket == r.ticket then
      if ok then Streaming(Some(lane.event.id)) else SseOff
    else lane
  }

  function Enqueue<P>(s: State<P>, e: Event, lane: LaneId): State<P> {
    s.(queue := s.queue + [Request(e, lane, s.tickets)], tickets := s.tickets + 1)
  }

  /** The end of a page: complete, bound hit, or the next request. */
  function PageEnd<P>(w: World<P>, s: State<P>): State<P>
    requires s.logLane.Working?
  {
    var l := s.logLane;
    if Terminal(l.cursor, l.page, l.next) then s.(logLane := LogOff, caughtUp := l.covered)
    else if l.pages + 1 >= (if w.maxPages == 0 then 1 else w.maxPages) then s.(logLane := LogOff)
    else s.(logLane := Fetching(l.next, l.pages + 1))
  }

  function LaneAct<P>(w: World<P>, s: State<P>, step: Step): State<P>
    requires Enabled(w, s, step)
  {
    match step
    case Append(e) => s.(log := s.log + [e])
    case StartCatchUp(from) => s.(logLane := Fetching(from, 0))
    case PageArrives(page, next) =>
      s.(logLane := Working(s.logLane.cursor, s.logLane.pages, page, 0, next, |s.log|, None))
    case PageFails => s.(logLane := LogOff)
    case EnqueueNext =>
      Enqueue(s, s.logLane.page[s.logLane.done], Log).(logLane := s.logLane.(ticket := Some(s.tickets)))
    case FinishPage => PageEnd(w, s)
    case Connect(from) => s.(sseLane := Streaming(from))
    case Deliver(e) => Enqueue(s, e, Sse).(sseLane := Waiting(e, s.tickets))
    case Disconnect => s.(sseLane := SseOff)
    case Duplicate(_) => Reply(s.(queue := s.queue[1..]), s.queue[0], true)
    case Reject => Reply(s.(queue := s.queue[1..]), s.queue[0], false)
    case StageRow => s.(queue := s.queue[1..])
    case CommitFails => Reply(s, s.core.stage.request, false)
    case Commit => s
    case Finish(_, resolved) => Reply(s, s.core.stage.request, resolved)
    case Abort(lane) => if lane == Log then s.(logLane := LogOff) else s.(sseLane := SseOff)
    case Restart(baseline) =>
      s.(queue := [], logLane := LogOff, sseLane := SseOff, baseline := baseline,
         caughtUp := if baseline == s.baseline then s.caughtUp else 0)
  }

  function Act<P>(w: World<P>, s: State<P>, step: Step): State<P>
    requires Enabled(w, s, step)
  {
    LaneAct(w, s, step).(core := CoreAct(w, s, step))
  }

  // ----- runs ----------------------------------------------------------------------

  ghost predicate Run<P(!new)>(w: World<P>, trace: seq<State<P>>, steps: seq<Step>) {
    && |trace| == |steps| + 1
    && Init(w, trace[0])
    && forall i :: 0 <= i < |steps| ==> Enabled(w, trace[i], steps[i]) && trace[i + 1] == Act(w, trace[i], steps[i])
  }
}
