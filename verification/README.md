# Replicant client: a verified model

A Dafny model of the parts of the Replicant client that are hard to get right, with proofs over
every input, every run or every reachable state. Nothing here runs the client.

| files | what they model |
|---|---|
| `TravelRoutes`, `TravelTiming`, `TravelOptimality`, `TravelSearch`, `TravelPlanner`, `TravelGuarantees`, `SystemResolution` | the smart travel planner, from location codes to travel-order waypoints |
| `EventPipeline`, `EventJournal`, `EventContinuity`, `EventTheorems`, `EventLoss`, `EventNotices`, `EventCatchUp` | the durable event pipeline as a step machine: log catch-up and the SSE stream feed one applier |
| `EventReplay` | the paged, resumable rebuild of event-owned projections |
| `Lifecycle`, `LifecycleProgress` | the concurrent register/close protocol, its safety and its end |
| `Readiness`, `ReadinessSteps` | the status derived from readiness, for whole updates and for their single accesses |
| `Observations`, `StarMerge`, `EntityMerge`, `LocationMerge` | the observation merge rules and their folds |
| `ScanProjection` | scan events and survey digests projected to locations |
| `DependencyVisit`, `JsonPointer`, `SchemaPointers` | the sync dependency cycle check, and the schema field pointers of RFC 6901 |
| `Ordering`, `Domain`, `Json`, `Traces`, `Selections` | shared orders, identities, values, step machines and filters |

Main results:

- The search keeps one label per (node, hubs) and prunes revisits, yet what it returns is the best of
  ALL simple routes with at most eight hubs (`Search`, through `PrefixOptimal`: replace a prefix by the
  kept label, or cut the loop and get a shorter route).
- In every run of every filtered stream, across interleavings, failures, aborts and restarts, the committed
  events are exactly the log between start and cursor, and the projection is their fold, if and only if no
  commit jumped a log event (`JournalIsSlice`, from `LostExactly`). Feeds that skip nothing never do
  (`NoGap`, `ProjectionIsLogFold`).
- A replay that is interrupted and resumed any number of times, with any page sizes, ends in the fold of
  the filtered reducers over the visible rows, and touches nothing the events do not own (`ReplayUntilDone`).
- Under every interleaving of registrations and closes exactly one caller shuts down, after every accepted
  task has finished, all callers get its outcome, and the steps of the calls under way run out with every
  close returned (`ShutdownSafe`, `NoLateRegistration`, `ClosesReturn`).
- The pointers collected from a schema are exactly those that parse and evaluate, by RFC 6901 alone, to a
  declaration (`SchemaFieldPointers`, through `WalkFindsDeclarations`).
- Collapsing per-replicant star knowledge commutes with merging, over whole sequences (`CollapseCommutes`).

## Where the code and its documentation disagree

The model follows the code; each disagreement is a lemma.

- Events are said to be deduplicated by journal membership (src/managed/events.rs:14-16). The code
  compares with the applied cursor (src/managed/store.rs:1831-1836). `LostExactly` says where the two differ: an
  event is dropped without ever having been committed exactly when some commit jumped it, and `PassedIsLost`
  says that it is then dropped for good.
- The log poll is said to bring in events muted from SSE (src/managed/events.rs:1307-1308). It does so exactly
  as long as no commit jumps them: `JournalIsSlice`. `MutedEventLost` is a run in which a complete catch-up
  carries the muted event and drops it.
- A live connection that is lost is said to be reported Offline (src/managed/events.rs:1445-1447). The client
  remembers a live connection only through its current status, so a detour through another status forgets
  it: it is Offline exactly when it was Ready and only the stream was lost ever since (`OfflineExactly`).
  `LostConnectionForgotten` is a run that forgets.
- A history row counts as applied once it is visible (src/managed/store.rs:1404-1443), and replays fold it. A row
  staged before a failed commit becomes visible on reopening when the cursor has passed it:
  `UnfoundedExactly` says which visible rows were never committed, `FailedRowBecomesVisible` is a run.
- A readiness update leaves Closing and Closed alone (src/managed/client.rs:1224-1231), but it tests the status
  and stores it in separate accesses. `ClosingLeftExactly` says that a closing client can become open again
  exactly when some call stands between the two, and `ClosedOverwritten` is a run that ends Ready after Closed
  was stored.
- For the same reason Ready need not mean that the components call for it. `StaleExactly` says when an honest
  status can turn dishonest while the components stay as they are, and `StaleStatus` is a run that ends Ready
  with a degraded stream.
- Without a hub route worth taking "the valid direct plan is returned" (src/domain/travel.rs:201-202). As
  long as no sum of legs leaves 64 bits, a plan is returned exactly when every leg between usable nodes can be
  timed (`Plan`), so one bad hub leaves no plan at all: `HubRemovesPlan`, with an input in `FarHubRemovesPlan`.
- "Public directory observations cannot erase richer account-owned data" (README.md:85). This holds for
  replicants over any run (`PublicNeverErasesReplicant`). For devices `OwnedSurvivesOnePublic` gives the exact
  condition over any run under which the data survives whatever the later observations say: at most one of them
  was accepted, and that one is public. Otherwise it is lost unless a later one repeats it
  (`OwnedLostOtherwise`); `OwnedErasedByTwoPublics` is a run that loses it.
- Explicit waypoints should end with the destination's system for a body in another system
  (src/domain/travel.rs:150-155). Letter case is ignored in two comparisons, so a designation that differs by
  case alone from the origin or the last hub is left out: `WaypointsReachBody` gives the exact condition,
  `ClashLosesSystem` an input.

## Modelling choices

- Distances are `real` and the metric is a parameter that returns `None` for a non-finite result; `SavingBound`
  assumes only the triangle inequality. The unsigned 64-bit range is explicit, including the saturating cast.
- The binary heap is a multiset from which a first entry is taken; the `best` table is a two-dimensional array.
- Reducers, the scan adapter, server pages, stream deliveries, store failures and task ends are parameters or
  nondeterministic steps. The commit of projection and cursor is one step, as in the store's transaction.
- `ClientReadiness` takes one readiness update as one step; `ReadinessSteps` splits it into its five accesses
  and shows when the two agree (`AloneIsAtomic`).
- A start without an applied cursor takes a new watermark as its baseline, as in
  src/managed/events.rs:1747-1776; the claims relative to a baseline speak of the current one.
- Event identifiers are millisecond/sequence pairs or malformed text, which no comparison accepts.
- JSON objects are maps, so member order is not represented; the schema walk visits names in any order.
- Designation length is counted in characters instead of bytes. Only prefixes of one code are compared, and for
  them the two orders agree.

## Model

| member | source | states |
|---|---|---|
| `TravelRoutes.QueueTotal` | src/domain/travel.rs:395-417 | the heap order is asymmetric, and ties only routes equal in seconds, hubs, distance and path |
| `TravelRoutes.QueueTransitive` | src/domain/travel.rs:395-417 | the heap order is transitive, strictly where either side is strict |
| `TravelRoutes.PathOrdersAgree` | src/domain/travel.rs:245-246 | comparing paths by node index agrees with comparing them by star key |
| `TravelRoutes.OrdersAgree` | src/domain/travel.rs:381-417 | for two routes to one node, the table's quality order and the heap's order are the same |
| `TravelRoutes.KeyOrderWritten` | src/domain/ids.rs:75-87 | keys compare by realm, the live one first and simulations by number, then by the first different character |
| `TravelTiming.ThreeQuarters` | src/domain/travel.rs:116-121 | the overflow-free form is the floor of three quarters and never exceeds its argument |
| `TravelTiming.PreSurge` | src/domain/travel.rs:95-115 | the truncated duration brackets the scaled distance; it is missing exactly for a negative distance or one beyond 64 bits |
| `TravelTiming.SurgeSeconds` | src/domain/travel.rs:95-123 | a duration is missing under the same condition whether or not the destination has a hub, and fits 64 bits |
| `TravelOptimality.ExtendValid` | src/domain/travel.rs:294-322 | an allowed extension of a valid route is valid and strictly later in the heap order |
| `TravelOptimality.CutLoop` | src/domain/travel.rs:294-299 | joining a label to a route at a common node costs no more than the label up to that node and the rest of the route |
| `TravelOptimality.CutShort` | src/domain/travel.rs:294-330 | if the kept label already contains a later stop of a route, a shorter and no slower route exists |
| `TravelOptimality.Improve` | src/domain/travel.rs:269-331 | every route whose prefix is a kept label gives a no worse one with a longer kept prefix or fewer stops |
| `TravelOptimality.PrefixOptimal` | src/domain/travel.rs:269-331 | once all labels are settled, no simple route within the hub cap precedes the found one |
| `TravelOptimality.LegsKnown` | src/domain/travel.rs:303-316 | once all labels are settled, every leg of every route is known |
| `TravelOptimality.SettledIsBest` | src/domain/travel.rs:284-331 | a settled search has found a route, and it is the best one |
| `TravelOptimality.BestUnique` | src/domain/travel.rs:381-392 | there is at most one best route, so the result does not depend on how ties leave the heap |
| `TravelSearch.Relax` | src/domain/travel.rs:303-329 | one extension: succeeds exactly when its leg and sum are representable, and updates table and queue exactly when it is better |
| `TravelSearch.Expand` | src/domain/travel.rs:293-330 | offers every allowed extension of a label, keeps table and queue consistent, fails only for a leg it cannot time |
| `TravelSearch.Handle` | src/domain/travel.rs:284-331 | one popped entry keeps the loop's facts: every label is queued or settled, pops ascend, no state is expanded twice |
| `TravelSearch.Search` | src/domain/travel.rs:269-331 | returns the best simple route with at most eight hubs; pops never descend, no state is expanded twice, at most 8·H+1 expansions; otherwise some valid extension cannot be timed |
| `TravelPlanner.HubsCorrect` | src/domain/travel.rs:236-246 | the hubs are exactly the eligible catalogue stars, sorted by key without repeats |
| `TravelPlanner.Nodes` | src/domain/travel.rs:248-267 | origin first, destination last, eligible hubs between |
| `TravelPlanner.NetWritten` | src/domain/travel.rs:248-267 | the net has the keys of origin, hubs and destination, and between any two the distance and the time that their positions and the hub at the end give |
| `TravelPlanner.HubsWritten` | src/domain/travel.rs:236-246 | a key is a stop if and only if the catalogue lists it with a hub and a position and it is neither end |
| `TravelPlanner.Plan` | src/domain/travel.rs:213-361 | no plan unless the direct leg can be timed; the direct time quoted is the floor of 30, 50 or 30 / 1.35 seconds a light year, cut to three quarters exactly when the destination has a hub; the two-second rule applied to the best route; and, unless a sum leaves 64 bits, a plan if and only if every leg between usable nodes is known |
| `TravelPlanner.Choose` | src/domain/travel.rs:269-360 | the search over a net and the two-second rule on its result |
| `TravelPlanner.ShortLegsFit` | src/domain/travel.rs:317 | legs of at most a ninth of the 64-bit range never overflow a sum |
| `TravelPlanner.BestKnowsAll` | src/domain/travel.rs:308-309 | a best route exists only if every leg a route could take is known, needed or not |
| `TravelGuarantees.PlanSound` | src/domain/travel.rs:333-360 | the plan is a simple route with at most eight stops and known legs that sum to the estimate; saved plus estimated is direct; direct exactly when less than two seconds are saved; within one second of every such route, and no slower than any when not direct |
| `TravelGuarantees.BestWritten` | src/domain/travel.rs:381-392 | no simple route is faster than the best one, or as fast with fewer stops, or also shorter, or also earlier by keys |
| `TravelGuarantees.SystemsDistinct` | src/domain/travel.rs:236-267 | in one realm no system occurs twice on a route |
| `TravelGuarantees.MoreHubsNeverSlower` | src/domain/travel.rs:236-246 | stars appended to the catalogue, or added anywhere in one without repeated keys, never make the estimate larger, as long as there is a plan |
| `TravelGuarantees.HubRemovesPlan` | src/domain/travel.rs:201-202 | an added hub whose leg from the origin cannot be timed removes every plan |
| `TravelGuarantees.Detour` | src/domain/travel.rs:433-439 | under the triangle inequality the straight leg is no longer than the way along the route |
| `TravelGuarantees.SavingBound` | src/domain/travel.rs:340-360 | a plan saves less than a quarter of the direct time plus 13 seconds, and at most 13 seconds when the destination has a hub |
| `SystemResolution.ResolvesLongest` | src/managed/smart_travel.rs:169-181 | a code resolves exactly when some designation is a delimited prefix, and then to the longest |
| `SystemResolution.NamesWritten` | src/managed/smart_travel.rs:174-178 | a designation names a code if it is the code or the code continues with a hyphen |
| `SystemResolution.LastLongest` | src/managed/smart_travel.rs:171-181 | of several stars with the longest designation the last listed is taken |
| `SystemResolution.OrderIndependent` | src/managed/smart_travel.rs:171-181 | with distinct designations the result does not depend on the order of the catalogue |
| `SystemResolution.ExactMatchWins` | src/managed/smart_travel.rs:171-181 | a listed designation resolves to itself |
| `SystemResolution.SmartRoute` | src/managed/smart_travel.rs:112-124 | unresolved codes give no route; otherwise the planner's plan between the two systems, or a missing position, direct leg or other leg |
| `SystemResolution.WaypointsReachBody` | src/domain/travel.rs:147-182 | no system is ordered twice; hubs, then the destination system exactly for a body elsewhere, if and only if letter case does not clash |
| `SystemResolution.CaseEqualWritten` | src/domain/travel.rs:165-166 | texts count as equal exactly when they are in ASCII upper case |
| `SystemResolution.CaseDistinctCatalogue` | src/domain/travel.rs:157-182 | if no two catalogue designations differ by case alone, the waypoints are always right |
| `SystemResolution.DirectPlan` | src/domain/travel.rs:345-360 | in a catalogue of two stars the plan between them is the direct one |
| `SystemResolution.FarHubRemovesPlan` | src/domain/travel.rs:201-202 | two stars with a direct plan, and a far hub that takes it away |
| `SystemResolution.ClashLosesSystem` | src/domain/travel.rs:164-179 | in a catalogue of systems `a` and `A`, the planner's order from `a` to the body `A-1` has no waypoint at all |
| `EventJournal.JournalStep` | src/managed/store.rs:1807-1825 | every step keeps: increasing commits, cursor at the last commit, projection the fold of the commits, notices in order and only of commits, visible history below the cursor |
| `EventJournal.JournalAlways` | src/managed/events.rs:724-868 | those facts hold in every state of every run, with duplicates, failures, aborts and restarts |
| `EventJournal.StepForward` | src/managed/events.rs:724-799 | a step commits at most one event, above the old cursor, which becomes the cursor; failed, rejected and duplicate requests change neither projection, cursor nor notices |
| `EventJournal.NeverBack` | src/managed/store.rs:4725-4745 | commits and notices only grow, and the cursor never decreases, between any two states of a run |
| `EventJournal.CommitLoses` | src/managed/store.rs:1807-1825 | a commit loses exactly what was lost before and what lies between the old cursor and its event |
| `EventJournal.LostExactly` | src/managed/store.rs:1827-1836 | over all runs: an identity after the start is taken for a duplicate without having been committed if and only if some commit jumped it |
| `EventJournal.PassedIsLost` | src/managed/store.rs:1827-1836 | what is lost in one state of a run is lost in every later one |
| `EventNotices.BeforeWritten` | src/managed/store.rs:4713-4721 | identities compare by milliseconds, then by sequence, and only if both parse |
| `EventNotices.NotifiedExactly` | src/managed/events.rs:783-788 | over all runs an identity is notified if and only if some application of it ended with its evidence resolved |
| `EventNotices.EveryCommitNotified` | src/managed/events.rs:724-799 | while no application ends unresolved and the client does not restart, an idle applier has notified every commit in commit order |
| `EventNotices.RowsExactly` | src/managed/store.rs:1359-1382 | over all runs the history has a row if and only if it had it at the start or the event was staged |
| `EventNotices.VisibleExactly` | src/managed/store.rs:1384-1443 | over all runs a row is visible if and only if it was at the start, or was marked after its commit, as a duplicate, or as covered on reopening |
| `EventContinuity.LaneStep` | src/managed/events.rs:1309-1332 | opening, closing and aborting a lane keeps everything below each lane's position committed |
| `EventContinuity.RestartStep` | src/managed/events.rs:1747-1776 | a restart keeps continuity, with a new watermark while there is no cursor |
| `EventContinuity.FinishPageStep` | src/managed/events.rs:1066-1125 | ending a page keeps continuity, so a page is asked for only after the earlier ones are durable |
| `EventContinuity.EnqueueNextStep` | src/managed/events.rs:128-139 | enqueueing the next event of a page keeps continuity |
| `EventContinuity.DeliverStep` | src/managed/events.rs:1463-1529 | a faithful stream delivery keeps continuity |
| `EventContinuity.CommitStep` | src/managed/events.rs:724-799 | committing the event at the head of the queue keeps everything up to the new cursor committed |
| `EventContinuity.ContinuousAlways` | src/managed/events.rs:986-1125 | in every run without gaps in the feeds, every lane position and the cursor are covered by commits |
| `EventTheorems.NoGap` | src/managed/events.rs:986-1125 | the log events between baseline and cursor are exactly the committed ones there; everything before a requested page is durable; everything logged when a completed catch-up saw its last page is committed |
| `EventTheorems.ProjectionIsLogFold` | src/managed/events.rs:724-868 | the projection is the fold of the reducer over the log slice from start to cursor, whatever the interleaving |
| `EventLoss.JournalIsSlice` | src/managed/events.rs:1307-1332 | for every run whose feeds deliver log events, filtered or not: the commits are the log slice from start to cursor, and the projection its fold, if and only if no commit jumped a log event |
| `EventLoss.FromLogAlways` | src/managed/events.rs:803-868 | everything queued, staged or committed came from the log |
| `EventLoss.MutedEventLost` | src/managed/events.rs:1307-1332 | a run from an initial state over a log of two events: a faithful page carries both, the stream commits the later first, and the catch-up ends complete with the muted one lost |
| `EventLoss.UnfoundedExactly` | src/managed/store.rs:1404-1443 | a visible history row after the start was never committed if and only if some commit jumped it; after a reopening these are all jumped rows |
| `EventLoss.FailedRowBecomesVisible` | src/managed/store.rs:1404-1443 | a run: a commit fails, a later event commits, reopening shows the failed one as applied |
| `EventCatchUp.PageEndWritten` | src/managed/events.rs:1066-1125 | a page ends the traversal complete without a new cursor, stops it at the page bound, and otherwise leads to the next request |
| `EventCatchUp.EventDone` | src/managed/events.rs:724-868 | with the applier idle the next event of a page is applied or dropped and the lane moves on |
| `EventCatchUp.CatchUpCompletes` | src/managed/events.rs:986-1125 | faithful pages within the page bound take the traversal to its end, complete, with every log event after the baseline committed |
| `EventCatchUp.OpeningWritten` | src/managed/events.rs:1315-1322 | from which cursors a traversal and a stream can start |
| `EventCatchUp.DeliveryWritten` | src/managed/events.rs:1463-1529 | a delivered event is queued behind the others and awaited |
| `EventCatchUp.TurnWritten` | src/managed/store.rs:1807-1836 | the oldest request is dropped if and only if the cursor covers it, and staged if and only if it lies beyond |
| `EventCatchUp.RefusalWritten` | src/managed/events.rs:803-868 | a rejected request and a failed commit change nothing durable and close the lane that waits |
| `EventCatchUp.GivingUpWritten` | src/managed/events.rs:1009-1064 | a failed page, an ended stream and an aborted producer close that lane only |
| `EventCatchUp.RestartWritten` | src/managed/store.rs:1404-1443 | the store reopens if and only if no staged row is incomparable with the cursor, and lanes, queue and stage are then gone |
| `EventReplay.OwnedBatchStaysInside` | src/managed/events.rs:640-657 | a filtered batch always persists and leaves device, replicant, location, star, message, blueprint, trade and simulation tables alone |
| `EventReplay.OwnedBatchWritten` | src/managed/events.rs:640-657 | a replayed batch removes the owned items it deletes, stores the last entry of the others it mentions, and leaves the rest |
| `EventReplay.RetainWritten` | src/managed/events.rs:650-655 | exactly the deletions of resource sites, location events and incoming objects are kept, in order |
| `EventReplay.PersistWritten` | src/managed/store.rs:4747-4908 | a batch is stored if and only if it deletes no unsupported kind; entries first, then deletions, then work |
| `EventReplay.UpsertWritten` | src/managed/store.rs:4751-4850 | a mentioned key holds its last payload and every other key stays |
| `EventReplay.DeletionsWritten` | src/managed/store.rs:4851-4893 | a deleted item is gone with its queued work and leaves its last evidence |
| `EventReplay.QueueWritten` | src/managed/store.rs:4894-4906 | queued work holds the last payload of each item |
| `EventReplay.ReplayStaysInside` | src/managed/events.rs:660-721 | so does a replay of any rows |
| `EventReplay.VisibleAscending` | src/managed/store.rs:2196-2228 | the rows visible up to a high-water mark keep their row order |
| `EventReplay.VisibleMembers` | src/managed/store.rs:2196-2228 | the visible rows are exactly the applied rows up to the mark |
| `EventReplay.ProjectionStore.HighWater` | src/managed/store.rs:2156-2160 | the mark is the largest applied row, or zero |
| `EventReplay.ProjectionStore.Prepare` | src/managed/store.rs:2151-2194 | the same version resumes where it was, another version starts over from the present tables with a fresh mark |
| `EventReplay.ProjectionStore.ReadPage` | src/managed/store.rs:2196-2228 | the page is the next visible rows, as many as the limit allows |
| `EventReplay.ProjectionStore.ApplyReplay` | src/managed/store.rs:2230-2247 | batch and progress are written together, or neither; it fails exactly if the batch or the transaction does |
| `EventReplay.ProjectionStore.Complete` | src/managed/store.rs:2249-2260 | marks the version complete at the mark, or changes nothing |
| `EventReplay.ProjectionStore.ReplayOne` | src/managed/events.rs:682-700 | one row: the tables stay the fold up to the stored progress, also when the row fails |
| `EventReplay.ProjectionStore.ReplayPage` | src/managed/events.rs:681-712 | one page: progress moves past exactly its rows |
| `EventReplay.ProjectionStore.Replay` | src/managed/events.rs:660-721 | an attempt keeps the store resumable and foreign tables unchanged; a finished one has folded every visible row; it fails only if a transaction or a reducer did; a completed version is left alone |
| `EventReplay.ReplayUntilDone` | src/managed/events.rs:660-721 | attempts cut short anywhere, with any page sizes, end in the fold over exactly the applied rows in row order; none ends it only if a transaction or a reducer failed |
| `Lifecycle.InvAlways` | src/managed/client.rs:774-855 | the invariant that ties flags, lock, task list, owner and store closes holds in every state of every interleaving |
| `Lifecycle.ShutdownSafe` | src/managed/client.rs:1175-1212 | one caller shuts down; the store is closed once, after every accepted task has finished; the completion is set once; every caller returns that outcome |
| `Lifecycle.NoLateRegistration` | src/managed/client.rs:774-799 | once the task list is taken no registration is accepted any more |
| `Lifecycle.RefusedExactly` | src/managed/client.rs:774-799 | a registration is refused if and only if one of its two loads found the client no longer accepting |
| `Lifecycle.AcceptsUntilStopped` | src/managed/client.rs:801-803 | the client accepts until a close call stops it |
| `Lifecycle.RegisterAccepted` | src/managed/client.rs:774-799 | a call that meets an accepting client and a free lock is accepted and its task listed |
| `LifecycleProgress.NoDeadlock` | src/managed/client.rs:801-855 | while a close has not returned some step of a call under way is enabled, or a task is still to end |
| `LifecycleProgress.HelpDecreases` | src/managed/client.rs:801-855 | every such step leaves less work |
| `LifecycleProgress.ClosesReturn` | src/managed/client.rs:1175-1212 | such steps, in any order, run out within the work left, and then every close has returned |
| `ClientReadiness.ClientState.SetReadiness` | src/managed/client.rs:1224-1231 | one update derives the status from the new components, unless the client is closing or closed |
| `ClientReadiness.ClientState.SetStatus` | src/managed/client.rs:1214-1222 | closing and closed replace the status and leave the components alone |
| `ClientReadiness.FallThroughUnreachable` | src/managed/client.rs:1233-1268 | the last arm of the status decision is never taken |
| `ClientReadiness.ReadyWritten` | src/managed/client.rs:239-299 | component by component and policy by policy, when an update makes an open client Ready |
| `ClientReadiness.DegradedWritten` | src/managed/client.rs:1233-1251 | the same for Offline and the two degradation reasons |
| `ClientReadiness.PendingWritten` | src/managed/client.rs:1252-1267 | the same for Synchronizing, CatchingUp and Connecting |
| `ClientReadiness.UpdateWritten` | src/managed/client.rs:1214-1231 | an update takes the new components and leaves a closing status alone; closing leaves the components alone |
| `ClientReadiness.StatusHonest` | src/managed/client.rs:239-299 | in every run of whole updates: Ready if and only if the policy is satisfied and nothing it needs is degraded; Offline exactly when only the stream is lost from a live status, so only after Ready; closing is never left |
| `ClientReadiness.OfflineExactly` | src/managed/client.rs:1224-1247 | in every run of whole updates an open client is Offline if and only if it was Ready and in every state since only the stream was lost |
| `ClientReadiness.LostConnectionForgotten` | src/managed/client.rs:1224-1268 | a run that was Ready, lost its stream and is reported Degraded |
| `ReadinessSteps.AloneIsAtomic` | src/managed/client.rs:1224-1231 | a call that nothing interleaves is one atomic update |
| `ReadinessSteps.CloseIsAtomic` | src/managed/client.rs:1184-1201 | the two stores of a close are its two changes of status |
| `ReadinessSteps.ClosingLeftExactly` | src/managed/client.rs:1228-1230 | a closing or closed client can become open again if and only if some call stands between its test and its store |
| `ReadinessSteps.ClosingKept` | src/managed/client.rs:1224-1231 | in every run, a close stored while no call stands there is never left |
| `ReadinessSteps.ClosedOverwritten` | src/managed/client.rs:1224-1231 | a run that ends Ready after Closing and Closed were stored |
| `ReadinessSteps.StatusTraced` | src/managed/client.rs:1233-1268 | in every interleaving an open status was derived from components read earlier, and is honest if and only if those and the present ones agree about being Ready |
| `ReadinessSteps.StaleExactly` | src/managed/client.rs:1224-1231 | from an honest status, with unchanged components, a dishonest one can be reached if and only if some call holds components that disagree with the present ones about being Ready |
| `ReadinessSteps.OfflineWasReady` | src/managed/client.rs:1224-1247 | in every interleaving Offline is reported only after Ready |
| `ReadinessSteps.StaleStatus` | src/managed/client.rs:1224-1231 | two finished calls that leave Ready with a degraded stream |
| `Observations.OrderTotal` | src/domain/merge.rs:40-45 | the metadata order reverses and is transitive |
| `Observations.OrderIsRank` | src/domain/merge.rs:18-45 | the order is: later first, then authority from operation result to public profile and discovery, then source from command response to SSE |
| `Observations.MergeDecides` | src/domain/merge.rs:47-56 | the held observation stays if and only if it outranks the incoming one in that order |
| `Observations.AcceptedIs` | src/domain/merge.rs:47-56 | an observation is accepted if and only if no earlier one outranks it |
| `Observations.HeldIsMaximum` | src/domain/merge.rs:40-56 | the merged metadata is that of the last accepted observation and a maximum of all seen; acceptance is being no smaller |
| `Observations.NewestHeld` | src/domain/merge.rs:40-56 | over any run the held observation is one of those seen, none of which is newer or outranks it |
| `Observations.PreservedField` | src/domain/merge.rs:131-135 | a preserved field is what the latest accepted observation that knew it said |
| `Observations.StaysKnown` | src/domain/merge.rs:131-135 | a preserved field never goes from known to unknown |
| `StarMerge.CollapseCommutes` | src/domain/adapters.rs:1018-1036 | fold then collapse equals collapse each then fold, and both accept the same observations |
| `StarMerge.ViewOfCollapse` | src/domain/adapters.rs:1038-1059 | viewing the merged account star gives the merged knowledge without distance and travel time |
| `StarMerge.StarFieldsLatest` | src/domain/merge.rs:137-158 | all nine optional star fields are the latest accepted known values |
| `StarMerge.KnowledgeSticks` | src/domain/merge.rs:137-158 | a star counts as known exactly when some accepted observation said so |
| `EntityMerge.PublicNeverErasesReplicant` | src/domain/merge.rs:58-73 | travel, private data and access are those of the last accepted non-public observation, over any run |
| `EntityMerge.ReplicantIsLatest` | src/domain/merge.rs:58-73 | everything else about a replicant is what the last accepted observation says |
| `EntityMerge.PlacementStaysKnown` | src/domain/merge.rs:75-129 | deployment and control range are the latest known values and stay known |
| `EntityMerge.OnlySnapshotsClear` | src/domain/model.rs:87-113 | without an accepted entity snapshot no runtime fact is lost |
| `EntityMerge.OpenPartIsLatest` | src/domain/merge.rs:75-129 | identity, access and open part of a device are what the last accepted observation says |
| `EntityMerge.RuntimeFieldSettled` | src/domain/model.rs:87-113 | every runtime field is, known or cleared, what the last accepted and unshielded observation says that knows it or is a snapshot |
| `EntityMerge.AccountPartFrom` | src/domain/merge.rs:98-126 | over any run the account part comes whole from the last accepted observation, or from the one accepted before it when that shields it; no further back |
| `EntityMerge.SourceIs` | src/domain/merge.rs:98-126 | an accepted owned observation is the source of the account part if and only if at most one observation was accepted since, and that one public |
| `EntityMerge.OwnedSurvivesOnePublic` | src/domain/merge.rs:98-126 | over any run of metadata, the account part of an accepted owned observation is held for all observed devices if and only if at most one observation was accepted since, and that one public |
| `EntityMerge.OwnedLostOtherwise` | src/domain/merge.rs:98-126 | if no accepted later observation repeats the part, it survives if and only if that condition holds |
| `EntityMerge.OwnedErasedByTwoPublics` | src/domain/merge.rs:98-126 | a run of two public observations that erases an assigned replicant |
| `LocationMerge.LocationCell.MergeFrom` | src/domain/model.rs:489-606 | the field-by-field update in place equals the merge function |
| `LocationMerge.Associative` | src/domain/model.rs:489-613 | merging is associative |
| `LocationMerge.NeutralAndIdempotent` | src/domain/model.rs:489-613 | the unknown location is neutral and merging twice is merging once |
| `LocationMerge.Absorbs` | src/domain/model.rs:489-613 | repeating the last update changes nothing |
| `LocationMerge.BatchEqualsOneByOne` | src/domain/model.rs:489-613 | merging a batch first and then into the held value equals merging one by one |
| `LocationMerge.ReplayedBatchIsNeutral` | src/domain/model.rs:489-613 | merging a whole batch again changes nothing |
| `LocationMerge.FieldsLastKnown` | src/domain/model.rs:489-613 | every field of the environment, the survey, the location and its unmodelled data ends as its last value that is not unknown, absence included |
| `LocationMerge.EvidenceStays` | src/domain/model.rs:476-487 | survey evidence is present exactly when some merged location had it |
| `LocationMerge.EvidenceWritten` | src/domain/model.rs:476-487 | evidence is a known value in one of the ten fields only a survey reports |
| `ScanProjection.Project` | src/managed/events.rs:895-970 | the loop collects the locations and the fallback targets of the entries in order, and nothing without a realm |
| `ScanProjection.EntriesWritten` | src/managed/events.rs:904-926 | one entry for a direct scan, the objects of a digest's scan list, nothing otherwise |
| `ScanProjection.ObjectsWritten` | src/managed/events.rs:906-924 | exactly the object items of the list, in order |
| `ScanProjection.EntryWritten` | src/domain/adapters.rs:75-91 | an entry projects if and only if its report describes the named planet or moon and the adapter takes it |
| `ScanProjection.LocationsWritten` | src/managed/events.rs:929-949 | the locations of exactly the entries that project, in order |
| `ScanProjection.FallbacksWritten` | src/managed/events.rs:950-962 | the targets of exactly the entries that name one and do not project |
| `ScanProjection.StoredWritten` | src/managed/state.rs:1033-1040 | every key ends with what it held merged with all projected locations of that key in order |
| `ScanProjection.StoredKeys` | src/managed/state.rs:1033-1040 | a key is stored if and only if it was held or projected |
| `ScanProjection.ChosenWritten` | src/managed/state.rs:1033-1040 | the locations of a key are exactly those, in order |
| `ScanProjection.DigestEqualsDirect` | src/managed/events.rs:895-970 | a digest gives the locations, fallback targets and stored locations of its entries delivered as direct scans |
| `ScanProjection.StoredOneByOne` | src/managed/state.rs:1033-1040 | storing one long list equals storing its batches in turn |
| `DependencyVisit.DependencyCheck.Visit` | scripts/authority_matrix_check.py:90-102 | restores the active set, only adds visits and errors, visits the name if nothing was reported, and terminates |
| `DependencyVisit.DependencyCheck.Check` | scripts/authority_matrix_check.py:90-104 | reports an error if and only if the declared domains have a cycle, and every name reported lies on one |
| `DependencyVisit.ClosesCycle` | scripts/authority_matrix_check.py:93-95 | an edge back into the active path closes a cycle through its target |
| `DependencyVisit.TopologicalHasNoCycle` | scripts/authority_matrix_check.py:96-102 | domains finished without an error are in dependency order, so no cycle exists |
| `JsonPointer.EscapeRoundTrip` | scripts/coverage_audit.py:183-184 | unescaping as in section 4 of RFC 6901 undoes escaping |
| `JsonPointer.EscapedHasNoSlash` | scripts/coverage_audit.py:183-184 | an escaped name holds no separator |
| `JsonPointer.ParseRender` | scripts/coverage_audit.py:183-200 | parsing as in section 3 of RFC 6901 undoes building a pointer from tokens |
| `JsonPointer.DecimalRoundTrip` | scripts/coverage_audit.py:197-199 | a written array index is read back |
| `JsonPointer.IndexIsDecimal` | scripts/coverage_audit.py:197-199 | every index token of section 4 of RFC 6901 is a written index |
| `SchemaPointers.FieldPointers` | scripts/coverage_audit.py:185-200 | the recursive walk returns exactly the pointers, below its path, of the declarations that evaluation defines |
| `SchemaPointers.PropertyPointers` | scripts/coverage_audit.py:188-193 | the declared names and everything declared inside them |
| `SchemaPointers.MemberPointers` | scripts/coverage_audit.py:194-196 | everything declared inside the other members |
| `SchemaPointers.WalkFindsDeclarations` | scripts/coverage_audit.py:185-200 | the walk's own notion of a declaration is the one by evaluation: the tokens resolve, the last is a name under `properties`, and every `properties` on the way holds an object |
| `SchemaPointers.PointersDistinct` | scripts/coverage_audit.py:185-200 | no two token lists share a pointer |
| `SchemaPointers.SchemaFieldPointers` | scripts/coverage_audit.py:185-200 | a text is among the pointers of a document if and only if it parses to a declaration and is how that one is written |

## Left out

- Floating-point rounding, `hypot` and non-finite coordinates: distances are exact, a position that is not finite is absent.
- SQLite, migrations and history retention: pruning old history rows would only shorten the rows a replay sees.
- The reducers and the device, replicant and message payload adapters: they are parameters of the pipeline, the replay and the scan projection.
- SSE framing, reconnect backoff, HTTP, rate limits and decoding: transport.
- Fetching the first-start baseline and acting on reconciliation work: network requests around the modelled steps.
- Operations, trading, simulations and the gateways: request builders with no protocol of their own.
- `event_delta`, `collection_can_tombstone`, `tombstone_eligible` and the survey-complete query: matches that would only add easy members.
- Staleness and missing-cache checks before planning, and the choice between server and local routing: guards without further state.
- Cancelling a close half way and dropping the last client: the active closer is modelled running to its end.
- Broadcast and watch channels: a subscriber that lags or leaves is not represented.
- EventJournal.JournalAlways: promises at most one notification for each commit, not exactly one, because an evidence error after the commit (src/managed/events.rs:784) skips it.
- EventTheorems.NoGap: assumes pages and deliveries that skip no log event above their position; `EventLoss.JournalIsSlice` covers all others.
- TravelPlanner.Plan: when some sum of legs leaves 64 bits and every leg is known, says that such a sum exists if there is no plan, not which labels meet it.
- LifecycleProgress.ClosesReturn: says that the steps of the calls under way run out, not that the scheduler takes them.
