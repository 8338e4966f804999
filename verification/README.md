# An event-sourced task system, from database rows to browser state

Users hand coding tasks to a local server. Every change of a task is one row update and one event
of an append-only log, written in one transaction. A task manager claims queued tasks, runs at most
a fixed number of them, and survives failing writes and shutdown. A dispatcher broadcasts the log,
event-stream connections replay and follow it, and the browser folds what it receives into its own
state. Every hop claims to be exactly-once, in order and crash-safe. This project states those
claims and proves them for every run and every interleaving.

## Structure

| module | file | what it is |
|---|---|---|
| `Domain`, `EventLog`, `History`, `TaskOrder` | `Domain.dfy`, `EventLog.dfy`, `History.dfy`, `TaskOrder.dfy` | rows, events, cursors; the row a log prefix determines; what a well-formed log says about one task |
| `StoreModel`, `StoreLaws`, `TaskStore` | `StoreModel.dfy`, `StoreLaws.dfy`, `Store.dfy` | every transaction as a function, its invariant over all runs; what each transaction answers and writes, told by the rows alone; the store object, statement by statement |
| `Codec`, `WireCodec`, `WireLaws` | `Codec.dfy`, `WireCodec.dfy`, `WireLaws.dfy` | writing and reading records; wire frames and the client's decoder; the decoder against the server's reader, on any JSON |
| `Projection` | `Projection.dfy` | the server's detail of one task |
| `Writer`, `Gate` | `Writer.dfy`, `Gate.dfy` | the FIFO writer with bounded retries; the mutation gate and the service state |
| `World`, `Process` | `World.dfy`, `Process.dfy` | what the manager shares with the other actors, their steps, and the manager's waits |
| `ManagerState`, `TaskManager`, `Shutdown` | `ManagerState.dfy`, `Manager.dfy`, `Shutdown.dfy` | the task-manager actor, its invariant, and the order of a shutdown |
| `DegradedRecovery`, `DegradedEpisode` | `Coordinator.dfy` | the coordinator of a degraded episode: recover, flush, finalize, with its retries; the episode together with the manager |
| `Dispatcher`, `SseDelivery` | `Dispatcher.dfy`, `SseDelivery.dfy` | broadcasting the log; one event-stream connection |
| `SseParser`, `SseText`, `Session` | `SseParser.dfy`, `SseText.dfy`, `Session.dfy` | the client's incremental parser; what the server writes and the parser reads back; the client's connection loop and cursor |
| `Client`, `ClientLaws`, `ClientView`, `ClientRun` | `Client.dfy`, `ClientLaws.dfy`, `ClientView.dfy`, `ClientRun.dfy` | the reducer; what each action does and leaves alone; its detail against the server's projection; whole runs of the client |
| `ServerComposition`, `ClientComposition` | `ServerComposition.dfy`, `ClientComposition.dfy` | the hops put together: writer and world, dispatcher and connection, connection and client, session and run |
| `RetryChain`, `Calendar` | `RetryChain.dfy`, `Calendar.dfy` | the chain of attempts shown for a task; the closed form of the civil calendar |

## How it is modelled

A UUID is its rank in text order and a timestamp an instant; event ids are positive, ascending and
not necessarily contiguous. JSON is a tree whose member names are tokens and whose numbers are exact
integers. Integers are unbounded except where a column, a check or the client's 2^53 - 1 limits them.

Objects whose methods update fields are classes: the store, the writer, the gate, the manager, the
dispatcher, a connection, the parser, the client. Each method is proved against a function or
predicate of the old and new state. A method that waits does so inside a call on an environment
object (`Process.Env`, `SseDelivery.Backend`, the clocks and scripts of the others). The environment
plays a script of moves of the other actors and an oracle of answers, both arbitrary, so a statement
about every script is a statement about every interleaving. Ghost counters of faults let a contract
say that an error is answered only when something outside failed. Where a loop takes what the
environment offers, a ghost record says so turn by turn (`SseDelivery.Rounds.turns`, the records of
`Manager.Run`, the moments of `Dispatcher.Run`, the visits of `SseClient.Run`), so that a loop which
leaves something out does not meet its contract.

These facts about the surroundings are assumptions of the model:

- A store transaction is atomic, and the writer runs commands in the order they were sent. An error
  of the claim write means that it was rolled back; an error of an append or finish write may have
  been committed or not.
- An event is broadcast only after it is committed, and a connection subscribes before its first
  read. A receiver more than the channel's capacity behind skips to the oldest retained event.
- Startup recovery ran before the manager, so no row is running when the manager starts
  (`crates/coding-agent-app/src/single_instance.rs:814`).
- The browser asks for a task's detail after it selected the task and once per selection.

What one component needs of another is proved where the two meet. The degraded-recovery coordinator
runs in the same `Shared` as the manager: its moves are steps of that world, the writer's step runs
its recovery, and the dispatcher's turns publish. The log that a dispatcher or a coordinator is given
is every event that will ever be committed, so a step that would commit another one is not part of
the run; the store holds a growing prefix of it, and a read may lag behind the store.

That live events reach the browser in order without gap follows from `SseDelivery.Stream.Connect`,
`ClientComposition.ConnectionFollowsLog` and `Session.SseClient.Run`, and
`ClientComposition.SessionIsClientRun` carries it to the reducer's invariant.

A branch of the code that the model proves unreachable is written as an assertion at the place of
the branch: the two `continue` guards and the conflict of the claim loop, the conflict of a cancelled
queued row, the 4096-entry and no-progress exits and the reset in mid-stream of a connection, the
"manager closed" answer of a finalize, and the decoding errors of stored records.

## Model

| member | source | states |
|---|---|---|
| EventLog.RowIsStored | crates/coding-agent-domain/src/task.rs:89-116 | the row that any well-formed log gives a task passes `try_from_stored`, belongs to that task and names no event later than the log |
| EventLog.WellFormedAppend | crates/coding-agent-store/src/tasks.rs:512-544 | appending a legal event keeps the log well formed and changes the row of its own task only |
| EventLog.PosSplits | crates/coding-agent-store/src/projection.rs:139-192 | a cursor cuts an ascending log into exactly the events at or below it and those above it |
| EventLog.PageOfPrefix | crates/coding-agent-store/src/projection.rs:116-137 | a page read while the log had `c` events is the next slice of the final log, cut at the limit or at `c` |
| EventLog.SortByIdSorts | web/src/state/reducer.ts:317-323 | the sort keeps what it is given and puts it in order of ids |
| StoreModel.TryNewPromptIdempotent | crates/coding-agent-domain/src/task.rs:51-68 | an accepted prompt validates to itself, so the handler's and the store's validation agree |
| StoreModel.TransitionKeepsInv | crates/coding-agent-store/src/tasks.rs:183-251 | an allowed transition keeps the store invariant, gives the row the announced status and leaves every other row alone |
| StoreModel.AppendPanelKeepsInv | crates/coding-agent-store/src/tasks.rs:253-298 | a panel event on a running task keeps the store invariant and only extends the log |
| StoreModel.CreateKeepsInv | crates/coding-agent-store/src/tasks.rs:102-137 | creating a task keeps the invariant on every branch: invalid prompt, repeated request, conflict, unknown repository, new row |
| StoreModel.RetryKeepsInv | crates/coding-agent-store/src/tasks.rs:139-181 | retrying keeps the invariant on every branch, including at most one child per task and attempt = parent's attempt + 1 |
| StoreLaws.PromptIsTrimmed | crates/coding-agent-domain/src/task.rs:51-68 | validation answers a text exactly if the prompt is that text with white space around it and the text has 1 to 50,000 characters |
| StoreLaws.CreateIsAnswered | crates/coding-agent-store/src/tasks.rs:102-137 | each answer of a create, with what it leaves in the store, told by the rows alone |
| StoreLaws.CreateHasOneAnswer | crates/coding-agent-store/src/tasks.rs:102-137 | the rows leave a create no other answer than the one it gives |
| StoreLaws.ConflictMeans | crates/coding-agent-store/src/tasks.rs:106-115 | an idempotency conflict comes if and only if a stored row has the request with another repository or another trimmed prompt |
| StoreLaws.RepeatedCreateFinds | crates/coding-agent-store/src/tasks.rs:106-115 | a create of a stored request with its repository and prompt, on any later store, answers that row as existing and writes nothing |
| StoreLaws.CreatedOnce | crates/coding-agent-store/src/tasks.rs:102-137 | in every run, repeating a create that made a row, however often and however late, answers that row and writes nothing |
| StoreLaws.RetryIsAnswered | crates/coding-agent-store/src/tasks.rs:139-181 | each answer of a retry told by the rows alone; exactly the final rows without a child can be retried, up to the last attempt |
| StoreLaws.RepeatedRetryFinds | crates/coding-agent-store/src/tasks.rs:139-181 | a task that was retried answers every later retry with that one child and writes nothing |
| StoreLaws.TransitionIsAnswered | crates/coding-agent-store/src/tasks.rs:183-251 | each answer of a transition told by the expected status, the row and the edges of the status machine, with every column of the row it writes |
| StoreLaws.AppendIsAnswered | crates/coding-agent-store/src/tasks.rs:253-298 | each answer of an append told by payload and row |
| StoreLaws.RecoverIsAnswered | crates/coding-agent-store/src/tasks.rs:300-351 | a recovery interrupts the queued and running rows, oldest first, one event each, with exactly the given failure, and no other row changes |
| StoreLaws.RowChecks | crates/coding-agent-domain/src/task.rs:89-116 | a stored row passes exactly if its attempt is positive and its time stamps and failure are those of its status |
| StoreLaws.FinalMeans | crates/coding-agent-domain/src/task.rs:15-49 | a final status is one that nothing leaves; exactly these can be retried and exactly the others are interrupted by a recovery |
| StoreModel.RecoverInterrupts | crates/coding-agent-store/src/tasks.rs:300-351 | recovery interrupts exactly the listed incomplete rows, one event each, and touches no other row |
| StoreModel.CommitKeepsInv | crates/coding-agent-store/src/tasks.rs:102-351 | every transaction keeps the invariant, and the log only grows at its end while identity columns never change |
| StoreModel.EveryRunKeepsInv | crates/coding-agent-store/src/tasks.rs:102-351 | in every reachable store each row is the fold of its events, the log is well formed and the retry columns form a forest |
| StoreModel.EveryRunExtends | crates/coding-agent-store/src/tasks.rs:546-564 | along every run an earlier log is a prefix of every later one and identity columns never change |
| History.EveryWordIsLegal | crates/coding-agent-domain/src/task.rs:15-26 | the event word of a task is queued, then nothing, or one of cancelled/interrupted, or started followed by panel events and at most one final event; its last letter is the row's status |
| History.RowsOnlyMoveForward | crates/coding-agent-store/src/tasks.rs:183-351 | a task's later rows never have a smaller `last_event_id`, never change identity, and a final row never changes again |
| History.RowIsItsVersion | crates/coding-agent-store/src/tasks.rs:512-544 | on a reachable log a row is determined by its `last_event_id` |
| History.VersionsAreOrdered | web/src/state/reducer.ts:136-146 | two versions of a row with the same `last_event_id` are equal, and the smaller one of two different ones is earlier and not final |
| History.AncestryEnds | crates/coding-agent-store/src/tasks.rs:139-181 | following `retry_of` from any row reaches a first attempt after attempt - 1 steps, so there is no cycle |
| TaskOrder.Select | crates/coding-agent-app/src/task_manager.rs:585-592 | lists a set of rows once each, by creation time, and by id among rows of the same instant |
| TaskOrder.ListingUnique | crates/coding-agent-store/src/tasks.rs:300-351 | that order determines the listing completely |
| TaskOrder.SortedIsOldestFirst | crates/coding-agent-store/src/tasks.rs:300-351 | the order is by `created_at`, and by id among rows of the same instant |
| TaskStore.Store.LoadTask | crates/coding-agent-store/src/tasks.rs:353-401 | a stored row always loads: `try_from_stored` cannot fail on a reachable store |
| TaskStore.Store.AppendLifecycleEvent | crates/coding-agent-store/src/tasks.rs:512-544 | inserting the placeholder, bumping the row and rewriting the payload amount to one event that carries the row whole, and the row names that event |
| TaskStore.Store.FindByRequest | crates/coding-agent-store/src/tasks.rs:482-495 | finds the task of a client request if there is one |
| TaskStore.Store.FindRetryChild | crates/coding-agent-store/src/tasks.rs:497-510 | finds the retry of a task if there is one |
| TaskStore.Store.CreateTask | crates/coding-agent-store/src/tasks.rs:102-137 | the statements have the effect and answer of the transaction; by the rows: a stored request with the same repository and trimmed prompt is answered as existing, with another one as a conflict, otherwise an unknown repository fails and a queued row of attempt 1 with exactly these columns and one event is written |
| TaskStore.Store.RetryTask | crates/coding-agent-store/src/tasks.rs:139-181 | the statements have the effect and answer of the transaction; by the rows: an unknown task, a queued or running one, one with a child, one at the last attempt, and otherwise a queued row with the parent's repository and prompt and the next attempt |
| TaskStore.Store.TransitionTask | crates/coding-agent-store/src/tasks.rs:183-251 | the compare-and-set has the effect and answer of the transaction: illegal by the edges of the status machine, not found, conflict with the row that stands, or applied with exactly the columns of the new status |
| TaskStore.Store.AppendEvent | crates/coding-agent-store/src/tasks.rs:253-298 | appends exactly one event to a running task and bumps its row's `last_event_id` to it; a lifecycle payload, an unknown task and a task that is not running are refused and nothing is written |
| TaskStore.Store.RecoverIncompleteTasks | crates/coding-agent-store/src/tasks.rs:300-351 | interrupts every queued or running row, oldest first, each with the given failure and one event, and no other row; reports count, first and last event and the high watermark |
| TaskStore.Store.EventsAfter | crates/coding-agent-store/src/projection.rs:94-192 | reads back exactly the first `limit` events after a cursor, decoded without error, with the log's high watermark |
| TaskStore.Store.LoadDetail | crates/coding-agent-store/src/projection.rs:81-92 | the detail read from the records is the projection of the task's events, or none for an unknown task |
| TaskStore.ReadsBack | crates/coding-agent-store/src/projection.rs:194-278 | every record of a reachable store decodes to the event that was written |
| Writer.StoreWriter.Perform | crates/coding-agent-app/src/store_writer.rs:407-443 | one command is one transaction of the store; its receipt carries the value of that command and names the event it appended, an attempt that landed is answered with the store's own answer, and a refusal or an error of the store leaves it unchanged |
| Writer.StoreWriter.Execute | crates/coding-agent-app/src/store_writer.rs:755-789 | at most six attempts, each after the delay its number prescribes and none at or after the deadline; all but the last were busy and rolled back; the answer is that of the last attempt, so a landed attempt the store accepts is answered with its receipt; busy means the deadline passed or all attempts were used |
| Writer.StoreWriter.Run | crates/coding-agent-app/src/store_writer.rs:630-753 | every command is tried and answered once, in queue order, at its time; each answer is what its command's last attempt did to the store at that point, and readers are woken once for every answer that carries an event |
| Writer.WokenCounts | crates/coding-agent-app/src/store_writer.rs:630-753 | the readers are woken as often as there are answers that carry an event |
| Projection.ProjectTaskDetail | crates/coding-agent-store/src/projection.rs:284-326 | the loop computes the projection of the events |
| Projection.ActivityIsDeduplicated | crates/coding-agent-store/src/projection.rs:296-305 | the projected activity holds every activity id of the events exactly once |
| Projection.ActivityIsFirst | crates/coding-agent-store/src/projection.rs:296-305 | the projected activity is, in order, the first entry of each activity id |
| Projection.EventsOfAll | crates/coding-agent-store/src/projection.rs:284-326 | the events of a task are exactly the events of the log that name it |
| Projection.TimelineBounded | crates/coding-agent-store/src/projection.rs:306-348 | the timeline only names events it was projected from |
| Projection.PanelsShowTheLatest | crates/coding-agent-store/src/projection.rs:284-326 | plan, diff and tests show the snapshot of the last event that carries one, or nothing |
| Projection.TimelineIsLifecycle | crates/coding-agent-store/src/projection.rs:306-348 | the timeline is the lifecycle events in order, each with the failure of its own row |
| Codec.TextRoundTrips | crates/coding-agent-store/src/tasks.rs:403-455 | status and kind texts parse back |
| Codec.TaskJsonRoundTrips | crates/coding-agent-store/src/tasks.rs:457-471 | a task row survives writing and reading |
| Codec.PlanJsonRoundTrips | crates/coding-agent-store/src/tasks.rs:457-471 | a plan snapshot survives writing and reading |
| Codec.DiffJsonRoundTrips | crates/coding-agent-store/src/tasks.rs:457-471 | a diff snapshot survives writing and reading |
| Codec.TestsJsonRoundTrips | crates/coding-agent-store/src/tasks.rs:457-471 | a test snapshot survives writing and reading |
| Codec.PayloadRoundTrips | crates/coding-agent-store/src/projection.rs:214-278 | a legal event's payload reads back, with the task-id, event-id and status checks of `lifecycle_task` passed |
| Codec.RecordRoundTrips | crates/coding-agent-store/src/projection.rs:194-212 | a legal event's record reads back as the event |
| WireCodec.DecimalReadsBack | web/src/api/sse.ts:1119-1134 | an id printed in decimal is a digit string without leading zero and reads back as itself |
| WireCodec.DecodedIsChecked | web/src/api/sse.ts:809-933 | whatever the decoder lets through has the client's schema version, the id of its data, and an event name that fits its class |
| WireCodec.PayloadAccepted | web/src/api/sse.ts:947-1092 | the client's validators accept a legal event exactly when all its counters are at most 2^53 - 1 |
| WireCodec.FrameAccepted | web/src/api/sse.ts:809-1019 | the client accepts a legal event's frame as a message with its id if and only if id and counters are at most 2^53 - 1; otherwise it is a malformed envelope |
| WireCodec.LogIsAccepted | web/src/api/sse.ts:809-1134 | every event of a reachable log reads back from its record, and its frame is accepted under the same condition and carries the payload that was written |
| WireCodec.ControlFramesAccepted | web/src/api/sse.ts:853-888 | service-state and reset frames decode, for a service state exactly when its generation is at most 2^53 - 1 |
| WireLaws.ReadEventIsItsRecord | crates/coding-agent-store/src/projection.rs:194-278 | whatever record the server's reader accepts becomes the event of its own columns, a lifecycle event with its own task's row at its own id and status, with time stamps and failure that fit the status |
| WireLaws.TaskAgrees | web/src/api/sse.ts:999-1028 | the client's validator accepts a task row exactly when the server's reader reads it and its id fits 53 bits |
| WireLaws.PlanAgrees | web/src/api/sse.ts:1030-1045 | the validator accepts a plan exactly when the reader reads it and its revision fits 53 bits, item by item |
| WireLaws.DiffAgrees | web/src/api/sse.ts:1057-1074 | the same for a diff and the counters of its files |
| WireLaws.TestsAgree | web/src/api/sse.ts:1076-1092 | the same for a test snapshot and the durations of its cases |
| WireLaws.ClientAgreesWithReader | web/src/api/sse.ts:809-1092 | on any record and envelope, well-formed or not: what the client lets through as a known event the server's reader reads, or refuses only for attempt or time stamps; what the reader reads the client lets through if and only if id and counters fit 53 bits |
| WireLaws.ResetIsRead | web/src/api/sse.ts:853-868 | a frame is a reset if and only if it is what the server writes for a high watermark in range, further members aside |
| WireLaws.ServiceIsRead | web/src/api/sse.ts:870-893 | a frame is a service message if and only if it is what the server writes for some state and a generation in range, further members aside |
| WireLaws.IdIsRead | web/src/api/sse.ts:1119-1134 | a frame's id is read as a number exactly if it is the decimal text of a positive number up to 2^53 - 1 |
| SseDelivery.PageContinues | crates/coding-agent-app/src/server.rs:839-856 | a page cut at an earlier high watermark continues exactly where the reader stands, so sorting and deduplicating it changes nothing |
| SseDelivery.DedupAscending | crates/coding-agent-api/src/sse.rs:513-527 | page normalization leaves an ascending page alone |
| SseDelivery.NormalizedIsByIdOnce | crates/coding-agent-api/src/sse.rs:513-527 | whatever the backend hands over as a page, the stream goes on with its ids, each once, ascending |
| SseDelivery.TurnsReceive | crates/coding-agent-api/src/sse.rs:276-307 | what a receiver's live turns amount to: once the log was broadcast up to `s`, as many live turns as events are missing bring it there |
| SseDelivery.Backend.PollLive | crates/coding-agent-app/src/server.rs:767-793 | the live receiver: the next event, or a lag that skips ahead, or closed, or nothing ready |
| SseDelivery.Stream.constructor | crates/coding-agent-api/src/sse.rs:26-32 | the live subscription is taken before the first read |
| SseDelivery.Stream.CoalesceService | crates/coding-agent-api/src/sse.rs:484-511 | takes at most 63 further ready updates and answers the newest generation among them |
| SseDelivery.Stream.Select | crates/coding-agent-api/src/sse.rs:281-297 | a `select!` takes the branch its round makes ready, if that is switched on, and the round is accounted for |
| SseDelivery.Stream.AwaitBackend | crates/coding-agent-api/src/sse.rs:462-482 | while a read is under way updates and heartbeats go on, and exactly one turn ends the wait |
| SseDelivery.Stream.TakeService | crates/coding-agent-api/src/sse.rs:66-76 | the announced update is taken and the newest ready generation is sent unless the client has seen it; a closed feed is marked closed |
| SseDelivery.Stream.Yield | crates/coding-agent-api/src/sse.rs:592-598 | service frames go out with strictly increasing generations |
| SseDelivery.Stream.YieldEvent | crates/coding-agent-api/src/sse.rs:582-590 | each persisted frame is the next event of the log, so what was sent stays exactly the log between `after` and `last` |
| SseDelivery.Stream.YieldPage | crates/coding-agent-api/src/sse.rs:119-134 | a page is never empty while the reader is behind: the no-progress exit is unreachable |
| SseDelivery.Stream.ReplayTo | crates/coding-agent-api/src/sse.rs:87-135 | paging reaches the high watermark without gap or duplicate unless the backend fails |
| SseDelivery.Stream.DrainReadyLive | crates/coding-agent-api/src/sse.rs:534-580 | one batch buffers at most 256 events, so the 4096-entry exit is unreachable; it ends with nothing ready, the end of the feed, or a whole batch; without a lag the buffer continues the delivered prefix contiguously |
| SseDelivery.Stream.RefillOnce | crates/coding-agent-api/src/sse.rs:152-259 | the reader is never ahead of the store (no reset in mid-stream); each turn consumes live items or leaves one refill fewer pending; with none pending the buffer is contiguous |
| SseDelivery.Stream.RefillAll | crates/coding-agent-api/src/sse.rs:325-440 | the refill loop terminates for any live queue; when it is done everything committed before it was sent and the feed was empty or closed |
| SseDelivery.Stream.Flush | crates/coding-agent-api/src/sse.rs:261-271 | emptying the buffer continues the delivered prefix in ascending order |
| SseDelivery.Stream.CatchUp | crates/coding-agent-api/src/sse.rs:309-453 | a lag in the steady state is repaired without gap or duplicate up to everything that was committed when it was met |
| SseDelivery.Stream.TakeLive | crates/coding-agent-api/src/sse.rs:297-453 | one item of the live feed: if something was ready the receiver moves on and what it passed has been sent; an ended feed is marked closed; otherwise the stream failed |
| SseDelivery.Stream.SteadyRound | crates/coding-agent-api/src/sse.rs:281-454 | one round of the steady state is taken by the branch that it makes ready, unless that branch is switched off, and the turn is used: an event received, an update announced, a heartbeat sent |
| SseDelivery.Stream.Steady | crates/coding-agent-api/src/sse.rs:276-458 | every round has its turn and every turn is used: a live turn moves the receiver or found nothing, a service turn is announced, a tick is a heartbeat; a stream that is still open has used every round it was given, and one that ended by itself had both feeds closed; it fails exactly when a read or a serialization failed |
| SseDelivery.Stream.Connect | crates/coding-agent-api/src/sse.rs:26-460 | for every interleaving the persisted frames are exactly the log after `after` up to `last`, ascending, each once; a reset is sent if and only if `after` is ahead of the first high watermark; a stream that is still open or ended by itself has sent everything committed at its first read and at least what its live turns could receive, with every service and heartbeat turn answered; the first frame is the service state and only announced states are sent; it fails exactly when a read or a serialization failed |
| SseDelivery.RetainsNothing | crates/coding-agent-api/src/sse.rs:243 | after a refill nothing buffered before it is newer than `last` |
| Dispatcher.ServingKeepsBooks | crates/coding-agent-app/src/event_dispatcher.rs:226-236 | serving answers exactly the waiters whose target the cursor has reached; in the list of answers each request occurs at most once, and earlier answers stand |
| Dispatcher.RefusingKeepsBooks | crates/coding-agent-app/src/event_dispatcher.rs:238-242 | refusing answers everybody who waits and nobody else, each once, and earlier answers stand |
| Dispatcher.Dispatcher.constructor | crates/coding-agent-app/src/event_dispatcher.rs:53-79 | the dispatcher starts at the newest committed event with nothing sent |
| Dispatcher.Dispatcher.CompleteWaiters | crates/coding-agent-app/src/event_dispatcher.rs:226-236 | the loop answers the reached waiters and keeps the rest |
| Dispatcher.Dispatcher.FailWaiters | crates/coding-agent-app/src/event_dispatcher.rs:238-242 | the loop refuses every waiter |
| Dispatcher.Dispatcher.Publish | crates/coding-agent-app/src/event_dispatcher.rs:210-218 | sending the next event keeps the sent sequence equal to the log after the start cursor |
| Dispatcher.Dispatcher.PublishAvailable | crates/coding-agent-app/src/event_dispatcher.rs:199-224 | on success everything committed before the call was sent and nobody waits at or below the last high watermark; it fails only for a store fault, and what was sent is in order |
| Dispatcher.Dispatcher.TakeTurn | crates/coding-agent-app/src/event_dispatcher.rs:162-196 | each command, wake-up or poll keeps the books; a flush is recorded with its target, answered or left waiting, and refused only for a fault or a close; a close leaves no waiter and every request answered |
| Dispatcher.Dispatcher.Run | crates/coding-agent-app/src/event_dispatcher.rs:151-197 | a run takes all its turns unless a close ends it, each turn that has to publish reaches what was committed when it began unless a read failed, and every flush is booked with its target; the sent sequence is the log after the start cursor in order, the answers only grow and hold each request at most once, done means sent, a refusal has a fault or a close behind it, and after a close every request was answered and none waits |
| Gate.ServiceStateController.Set | crates/coding-agent-app/src/service_state.rs:55-83 | refuses exactly to leave Quiescing; asked for the present state, or while Quiescing, it changes nothing; otherwise the generation grows by one, so the generation counts the changes |
| Gate.GenerationsAreMonotone | crates/coding-agent-app/src/service_state.rs:55-83 | over any requests the generation never goes back, stands still only with the state, and after Quiescing was asked for the state is Quiescing |
| Gate.MutationGate.Enter | crates/coding-agent-app/src/server.rs:310-332 | admits exactly when the gate is open and the service ready, and counts the guard |
| Gate.MutationGate.Leave | crates/coding-agent-app/src/server.rs:383-397 | dropping a guard counts down and reports idle at zero |
| Gate.MutationGate.BeginQuiescing | crates/coding-agent-app/src/server.rs:365-380 | closes once, and puts the service into Quiescing |
| Gate.DrainedForever | crates/coding-agent-app/src/server.rs:310-397 | a closed and drained gate stays drained and admits nobody, whatever the other actors do |
| World.EffectStands | crates/coding-agent-app/src/store_writer.rs:630-753 | a queued command of another actor creates queued rows, or, if it is a recovery, leaves no row incomplete; on a store without incomplete rows only a create or retry makes the log grow |
| World.RunHeadIsAllowed | crates/coding-agent-app/src/store_writer.rs:630-753 | running the head of the writer's queue, with any ending, is one of the moves allowed to the others |
| World.StepIsAllowed | crates/coding-agent-app/src/shutdown.rs:666-728 | every step of the other actors keeps the shared invariant: the log grows, rows stand or are interrupted by a recovery, the service can only turn to Quiescing, a sealed log stays as it is, and after a recovery no row runs until the manager finalizes |
| World.CoordinatorMovesAreSteps | crates/coding-agent-app/src/shutdown.rs:666-754 | each move of the coordinator's code is a step of the world |
| World.StepsMoveCoordinator | crates/coding-agent-app/src/shutdown.rs:666-754 | no step moves the coordinator otherwise, and only the writer makes it `Recovered`, by running its recovery to success, at the last event of the log it leaves, with no row incomplete |
| World.RecoveryIsBehind | crates/coding-agent-app/src/shutdown.rs:666-728 | in every run of the others, behind a coordinator that has recovered or asks to finalize stands a step at which the writer committed a recovery, and the high watermark is the last event the log had right then |
| DegradedRecovery.DegradedCoordinator.EnsureNotQuiescing | crates/coding-agent-app/src/shutdown.rs:740-753 | stops the coordinator when the service is Quiescing or the manager is gone, and otherwise leaves it where it stood |
| DegradedRecovery.DegradedCoordinator.WaitToRetry | crates/coding-agent-app/src/shutdown.rs:718-738 | waits while others move; Quiescing or a closed manager stops the coordinator |
| DegradedRecovery.DegradedCoordinator.TryRecover | crates/coding-agent-app/src/shutdown.rs:618-629 | one attempt sends the recovery to the queue of the writer and waits for its answer, a success or a failure, while the others go on |
| DegradedRecovery.DegradedCoordinator.DispatcherTurn | crates/coding-agent-app/src/event_dispatcher.rs:151-197 | a turn of the dispatcher moves the world's published event to the dispatcher's cursor, event by event, and nothing else |
| DegradedRecovery.DegradedCoordinator.RecoverStore | crates/coding-agent-app/src/shutdown.rs:672-683 | retries until a recovery committed and answers its high watermark; while there is time left it has sent a recovery, and it gives up only for Quiescing or a closed manager |
| DegradedRecovery.DegradedCoordinator.FlushTo | crates/coding-agent-app/src/event_dispatcher.rs:89-101 | asks the dispatcher unless that is closed; a done answer means everything up to the target was sent |
| DegradedRecovery.DegradedCoordinator.FlushRecovery | crates/coding-agent-app/src/shutdown.rs:685-699 | retries until the dispatcher's cursor has passed the recovery's high watermark; while there is time left it has asked for that, and it gives up only for Quiescing or a closed manager |
| DegradedRecovery.DegradedCoordinator.Finalize | crates/coding-agent-app/src/shutdown.rs:701-716 | sends the finalize message for a flushed recovery unless it lost to Quiescing or a closed manager |
| DegradedRecovery.DegradedCoordinator.Run | crates/coding-agent-app/src/shutdown.rs:666-670 | for every run: it is a sequence of steps of the world it shares with the manager; a finalize message goes out only after a step at which the writer committed a recovery, and after the dispatcher has sent, in order, everything up to its high watermark, while no row is running |
| DegradedEpisode.Episode | crates/coding-agent-app/src/task_manager.rs:979-1008 | coordinator and manager in one world: the manager keeps its invariant through the episode, and is ready again only after a committed recovery that was sent whole, with no row running |
| Process.Env.Submit | crates/coding-agent-app/src/store_writer.rs:487-627 | a command of the manager runs after everything queued before it and is followed by whatever was queued behind it; its answer is what the store did, or an error |
| Process.Env.Perform | crates/coding-agent-app/src/store_writer.rs:630-753 | the manager's write has the effect and answer of its transaction |
| Process.WrittenKeepsInv | crates/coding-agent-store/src/tasks.rs:183-351 | every write of the manager keeps the store invariant |
| ManagerState.SafeStable | crates/coding-agent-app/src/task_manager.rs:499-529 | permits, single launch, running-implies-active, the episode and the seal survive anything the others do |
| ManagerState.AtMostConcurrency | crates/coding-agent-app/src/task_manager.rs:594-690 | at every wait each runner that was launched and whose finished message was not handled has an active entry, and at most `concurrency` runners are alive |
| ManagerState.WriteIsSafe | crates/coding-agent-app/src/task_manager.rs:576-887 | a write of the manager with all that happens around it keeps the manager's invariant |
| ManagerState.StoreAccepts | crates/coding-agent-store/src/tasks.rs:183-298 | the store itself refuses none of the manager's writes, so every writer error is a fault from outside |
| ManagerState.TransitionSeen | crates/coding-agent-app/src/task_manager.rs:736-764 | what an applied or conflicting answer says about the rows when the manager sees it |
| ManagerState.RecoverySeals | crates/coding-agent-app/src/task_manager.rs:889-912 | a recovery written after the gate was closed and drained leaves nobody who could make the log grow and no incomplete row |
| ManagerState.RecoveryDoneMeans | crates/coding-agent-app/src/task_manager.rs:889-912 | after a successful recovery every row that was incomplete is interrupted |
| ManagerState.RecoveryIsOne | crates/coding-agent-app/src/task_manager.rs:889-912 | a quiesce writes one recovery: the rows it interrupted, its count and its high watermark belong together |
| ManagerState.TellingAllIsSafe | crates/coding-agent-app/src/task_manager.rs:182-187 | telling every runner to stop keeps the manager's invariant |
| TaskManager.Manager.constructor | crates/coding-agent-app/src/task_manager.rs:250-307 | a new manager has all permits and nothing active; startup recovery has left no row running |
| TaskManager.Manager.ClaimOne | crates/coding-agent-app/src/task_manager.rs:594-690 | one turn of the claim loop launches the task, or finds no permit, or is abandoned by a freeze or a fault with the manager as it was; the `continue` guards are unreachable |
| TaskManager.Manager.ClaimRegistered | crates/coding-agent-app/src/task_manager.rs:611-642 | the re-checks after registering give the permit back when they stop the claim |
| TaskManager.Manager.WriteClaim | crates/coding-agent-app/src/task_manager.rs:644-689 | the compare-and-set cannot conflict; an applied claim is launched unless the manager was frozen meanwhile |
| TaskManager.Manager.SpawnRunner | crates/coding-agent-app/src/task_manager.rs:692-734 | launching a registered claim records one launch of an id that was never launched before |
| TaskManager.Manager.ClaimQueued | crates/coding-agent-app/src/task_manager.rs:576-690 | the scan launches a prefix of the queue, oldest first; the rows it leaves queued are exactly a suffix; without a freeze or a fault it ends with the queue or the permits exhausted |
| TaskManager.Manager.LaunchWaiting | crates/coding-agent-app/src/task_manager.rs:594-690 | the claim loop over the rows it read launches the first of them in order and stops only for a freeze, a fault or a lack of permits |
| TaskManager.Manager.RemoveActive | crates/coding-agent-app/src/task_manager.rs:930-942 | removing an entry gives its permit back and nothing else; which runners count as finished does not change |
| TaskManager.Manager.CancelTask | crates/coding-agent-app/src/task_manager.rs:736-796 | by the row that was read: a queued one is cancelled, a running one told to stop, a cancelled one reported, any other not cancellable; never the `Invariant` error, every other error has its cause; no write while frozen or degraded |
| TaskManager.Manager.CancelQueued | crates/coding-agent-app/src/task_manager.rs:745-762 | cancels a queued row and answers it; the conflict that the code follows up cannot occur, because nobody else moves a queued row |
| TaskManager.Manager.CancelLoaded | crates/coding-agent-app/src/task_manager.rs:736-769 | what follows from the row that was read, status by status |
| TaskManager.Manager.CancelCurrent | crates/coding-agent-app/src/task_manager.rs:771-796 | by status: a running task has an active entry and is told to stop, a cancelled one is reported, any other final one is not cancellable |
| TaskManager.Manager.AppendRunnerEvent | crates/coding-agent-app/src/task_manager.rs:798-836 | an accepted event is in the log; while degraded the event is kept pending without a write; it is refused as degraded only while degraded, frozen or not ready, and the manager degrades only on a fault |
| TaskManager.Manager.FinishRunner | crates/coding-agent-app/src/task_manager.rs:838-887 | the entry and its permit are given back in every case; of a running row, a success becomes completed and a stop cancelled, both without failure, and a broken runner becomes failed with exactly its failure; any other row keeps what it had; while degraded the result is kept pending and nothing is written |
| TaskManager.Manager.EnterDegraded | crates/coding-agent-app/src/task_manager.rs:958-977 | starts an episode: scans off, every runner told to stop, service degraded, coordinator started, at most once |
| TaskManager.Manager.FinalizeDegraded | crates/coding-agent-app/src/task_manager.rs:979-1008 | Ready returns only after a recovery, flushed through its high watermark as `DegradedCoordinator.Run` establishes, and with no row running; losing to Quiescing leaves the manager as it was |
| TaskManager.Manager.ClaimsAllowed | crates/coding-agent-app/src/task_manager.rs:1010-1014 | claims are allowed exactly while neither degraded nor frozen and ready |
| TaskManager.Manager.Quiesce | crates/coding-agent-app/src/task_manager.rs:889-912 | freezes for good; a durable answer interrupted every incomplete row; behind a drained gate it seals the log at the reported high watermark |
| TaskManager.Manager.Freeze | crates/coding-agent-app/src/task_manager.rs:889-912 | freezes a manager that is not frozen, with the flag and the service state, and writes nothing |
| TaskManager.Manager.InterruptAll | crates/coding-agent-app/src/task_manager.rs:889-912 | the recovery of a frozen manager: a durable answer interrupted every incomplete row, any other answer had a fault |
| TaskManager.Manager.NotifyQueued | crates/coding-agent-app/src/task_manager.rs:533-543 | asks for a scan unless frozen, degraded or not ready |
| TaskManager.Manager.HandleMessage | crates/coding-agent-app/src/task_manager.rs:531-574 | every message is handled as promised: a cancel by its row, a runner event appended, pending or refused with its cause, a finished runner's row settled by its result, a finalize, a quiesce and a notification answered; a runner counts as finished exactly at its own message; a frozen manager writes nothing, a degraded one only quiesces, and only a finalize ends an episode |
| TaskManager.Manager.Turn | crates/coding-agent-app/src/task_manager.rs:504-523 | a turn of the actor loop handles its message as promised, or scans on a tick, and its record says what it met and left; it keeps the invariant, takes as finished exactly what its message reports, and leaves no requested scan over while claims are allowed |
| TaskManager.Manager.Run | crates/coding-agent-app/src/task_manager.rs:499-529 | in every run every message is taken in order and handled as promised, with the records to show it; permits + active = concurrency, no id launched twice, running implies active while neither frozen nor degraded; the finished runners are exactly those whose messages were handled; a sealed log never grows again and no row is incomplete |
| Shutdown.WaitForIdle | crates/coding-agent-app/src/server.rs:346-363 | idle if and only if the closed gate is drained, with every message in between handled as promised |
| Shutdown.ShutDown | crates/coding-agent-app/src/shutdown.rs:243-300 | the gate is closed, the manager frozen and every runner told to stop in every case; a clean outcome means the store is sealed; it is unclean only if the gate did not drain in time, somebody else had frozen the manager, or something failed |
| Calendar.YearIsFound | crates/coding-agent-app/src/task_manager.rs:1143-1146 | the nested divisions find the March year of every day of an era |
| Calendar.CivilOfDays | crates/coding-agent-app/src/task_manager.rs:1136-1153 | the closed form undoes days-from-civil on every date |
| Calendar.NextDayCounts | crates/coding-agent-app/src/task_manager.rs:1136-1153 | stepping to the next day adds one to the day count |
| Calendar.CountedIsCivil | crates/coding-agent-app/src/task_manager.rs:1136-1153 | counting day by day from 1970-01-01, in both directions, gives dates whose day count is the count |
| Calendar.ClosedFormCounts | crates/coding-agent-app/src/task_manager.rs:1136-1153 | for every integer day count the closed form is the counted date, is a valid date, and days-from-civil is its inverse |
| Calendar.MonotoneAndInjective | crates/coding-agent-app/src/task_manager.rs:1136-1153 | the closed form is strictly monotone, hence injective |
| Client.NormalizeById | web/src/state/reducer.ts:61-71 | the loop computes the table and the order |
| Client.NormalizedMeans | web/src/state/reducer.ts:61-71 | the table holds the last value of every id and the order every id once |
| Client.OrderIsAppearance | web/src/state/reducer.ts:61-71 | the order is that of first appearance |
| Client.InstallDetail | web/src/state/reducer.ts:307-339 | the loop replays the buffered events on the detail, and stale answers change nothing |
| Client.ReconcileCommands | web/src/state/reducer.ts:122-134 | keeps exactly the cancel commands of known tasks that are not final |
| Client.ReduceKeepsOrder | web/src/state/reducer.ts:348-528 | every action keeps the orders listing exactly the tables' keys once and at most 100 diagnostics, and no generation goes back |
| ClientLaws.SelectionIsLast | web/src/state/reducer.ts:356-422 | in every run a task is the selected one if and only if it was the last one selected and no bootstrap since has dropped it |
| ClientLaws.SelectedIsShown | web/src/state/reducer.ts:413-429 | select, ask, answer: from any reachable state the task ends up selected, loaded, without error, with its own detail, which the invariant of the run says is the server's projection |
| ClientLaws.ServiceIsNewest | web/src/state/reducer.ts:465-473 | in every run the service state shown was reported, with the greatest generation that was reported |
| ClientLaws.DiagnosticsAreTheLast | web/src/state/reducer.ts:444-464 | in every run the diagnostics are the last hundred unknown events above the cursor |
| ClientLaws.OrdersAppend | web/src/state/reducer.ts:61-146 | between bootstraps the orders only grow at their end |
| ClientLaws.StreamActionSettles | web/src/state/reducer.ts:264-305 | a stream action is refused exactly for another schema or an id behind the cursor, and then only the connection says so; the id at the cursor changes nothing; a newer one becomes the cursor |
| ClientLaws.ConnectionSettles | web/src/state/reducer.ts:348-410 | what the connection says after every other action |
| ClientLaws.DetailSettles | web/src/state/reducer.ts:423-441 | an answer about the detail ends the loading exactly if it is for the present selection and request |
| ClientLaws.CommandsSettle | web/src/state/reducer.ts:474-527 | what every action does to the cancel command of every task |
| ClientLaws.TableIsTouched | web/src/state/reducer.ts:348-528 | which actions can change the table and the cursor |
| ClientLaws.DetailIsTouched | web/src/state/reducer.ts:348-528 | which actions can change the detail, its loading state and the live buffer |
| ClientView.TimelineEntriesAgree | web/src/state/reducer.ts:165-174 | the client's timeline entry is the server's, because only failed and interrupted rows carry a failure |
| ClientView.ShowsApply | web/src/state/reducer.ts:186-224 | applying the next event to a detail that shows a log prefix shows the prefix one longer |
| ClientView.ShowsReplay | web/src/state/reducer.ts:320-323 | replaying a task's later events on a snapshot shows the longer prefix |
| ClientView.BufferAfterSnapshot | web/src/state/reducer.ts:317-319 | dropping what a snapshot covers leaves exactly the task's events after it |
| ClientView.InstalledShows | web/src/state/reducer.ts:307-339 | installing a snapshot taken after the selection shows the later of the snapshot and the events applied |
| ClientRun.UpsertJoins | web/src/state/reducer.ts:136-146 | a REST row or cancel answer, however late, leaves the greater version in the table |
| ClientRun.EventJoins | web/src/state/reducer.ts:226-253 | a delivered event leaves the greater version in the table, which is then not behind the events applied |
| ClientRun.DeliverKeepsInv | web/src/state/reducer.ts:264-305 | delivering the next event keeps table, detail and buffer right |
| ClientRun.AnswerKeepsInv | web/src/state/reducer.ts:307-339 | a detail answer, current or stale, keeps them right |
| ClientRun.RecoverKeepsInv | web/src/state/reducer.ts:356-389 | a recovery bootstrap keeps them right |
| ClientRun.StepKeepsInv | web/src/state/reducer.ts:348-528 | every action in any order keeps the client's invariant |
| ClientRun.EveryClientRunKeepsInv | web/src/state/reducer.ts:348-528 | in every run each table row is the greatest version delivered since the last bootstrap and never behind `appliedEventId` |
| ClientRun.SelectedDetailIsProjection | web/src/state/reducer.ts:186-339 | in every run a loaded detail equals the server's projection of the log up to the larger of its cursor and `appliedEventId`, in every field but the cursor |
| ClientRun.TableOnlyMovesForward | web/src/state/reducer.ts:136-146 | over any stretch of a run between two bootstraps no row goes back, and a final row never changes again |
| SseParser.FindLineEnding | web/src/api/sse.ts:249-257 | the loop finds the first line ending |
| SseParser.IncrementalSseParser.Consume | web/src/api/sse.ts:170-218 | a parser that holds a block of lines and takes a blank line answers the block's frame and starts over; any other line becomes the last line of the block, read as a field in the standard's sense |
| SseParser.ConsumeTakesIn | web/src/api/sse.ts:170-226 | what the field-by-field state does with a line is what the lines read so far mean together with it |
| SseParser.IncrementalSseParser.DrainLines | web/src/api/sse.ts:133-168 | the loop takes every complete line off the pending text |
| SseParser.IncrementalSseParser.PushChunk | web/src/api/sse.ts:80-98 | a push feeds the text, and after an accepted push at most `maxFrameBytes` are buffered |
| SseParser.IncrementalSseParser.FinishStream | web/src/api/sse.ts:100-131 | finishing drains the rest and refuses a truncated tail |
| SseParser.DrainAppend | web/src/api/sse.ts:133-168 | draining first and reading on later is the same as reading on first, also between a carriage return and its line feed |
| SseParser.OversizedStays | web/src/api/sse.ts:228-235 | a parser that holds too much fails whatever comes next |
| SseParser.ChunksDoNotMatter | web/src/api/sse.ts:80-131 | any split into pushes gives the frames, or the error, of the whole text in one |
| SseParser.SplitLinesSplits | web/src/api/sse.ts:133-168 | every text has a decomposition into lines and a rest as the standard defines line ends |
| SseParser.SplitIsUnique | web/src/api/sse.ts:133-168 | and only one |
| SseParser.DrainMeans | web/src/api/sse.ts:170-226 | the parser's frames are the blocks between blank lines: joined data, last event name, last id without NUL |
| SseParser.ParserMeansText | web/src/api/sse.ts:80-226 | pushing any chunks and finishing means the whole text read block by block, with the same frames or the same error; what a line and joined data mean is stated apart, in `SseText` |
| SseText.FieldsAreRead | web/src/api/sse.ts:194-199 | a line is read as field and value exactly if it is their concatenation: with colon and one space, with a colon when the value does not start with a space, or the bare name with the empty value |
| SseText.JoinedAgain | web/src/api/sse.ts:170-182 | data cut at its line feeds is joined again |
| SseText.CutAgain | web/src/api/sse.ts:170-182 | joined lines are found again by cutting at line feeds |
| SseText.WidthIsUtf8 | web/src/api/sse.ts:152-157 | the bytes charged for a character are those of its UTF-8 encoding, which reads back |
| SseText.EventIsItsFrame | web/src/api/sse.ts:170-226 | the lines the server writes for an event mean exactly that event: name, data, id |
| SseText.BlockCloses | web/src/api/sse.ts:170-182 | lines and a blank line are one block, whatever follows, and the next block starts afresh |
| SseText.WrittenIsRead | web/src/api/sse.ts:80-226 | whatever events and comments the server writes, and however the text is cut on its way, the parser answers exactly these events, as long as each fits the frame limit |
| Session.SseClient.constructor | web/src/state/useAgentState.ts:217-243 | the first bootstrap is dispatched before the client starts at its cursor |
| Session.SseClient.ApplyFrame | web/src/api/sse.ts:677-719 | an arrival moves the cursor only forward and each id is handed on at most once; the reducer follows the cursor exactly when the schema version is 1 |
| Session.SseClient.ApplyNewer | web/src/api/sse.ts:698-718 | an arrival newer than the cursor is handed on once; if it is the next event of the log, what was dispatched stays a stretch of the log |
| Session.SseClient.OpenOnce | web/src/api/sse.ts:595-656 | unless the client is stopped, a connection ends exactly as its arrivals and its end say: protocol for a reset, an undecodable frame, an id behind the cursor, an HTTP error, bad content or a truncated stream, transient otherwise; the cursor has reached and the reducer was handed exactly what came before; a stream that goes on from the cursor never causes a protocol exit |
| Session.SseClient.Recover | web/src/api/sse.ts:721-774 | the first bootstrap that is answered is dispatched and sets both cursors; all attempts before it had failed; an unauthorized one expires the session |
| Session.SseClient.CheckStopped | web/src/api/sse.ts:420-423 | a look at the stop flag takes effect at once |
| Session.SseClient.Install | web/src/api/sse.ts:731-745 | a bootstrap that was answered is dispatched and both cursors follow, unless the client was stopped meanwhile |
| Session.SseClient.Run | web/src/api/sse.ts:425-503 | over every run each connection is opened at what the one before left: after a protocol exit at the `latestEventId` of the first answered bootstrap, dispatched in between, after a transient one at the cursor it reached; every connection is opened unless the client was stopped, expired, or got no bootstrap; the actions are exactly what the connections and recoveries hand on, each id once; it looks at its stop flag between any two actions and ends when the flag is set; with schema version 1 the reducer never refuses an event; if connections and bootstraps follow the log, so do the actions, event by event |
| Session.SseClient.VisitOnce | web/src/api/sse.ts:428-502 | one turn of the loop: a connection, the recovery exactly after a protocol exit, the cursor of the next one, and the failure streak, reset exactly by an advance |
| Session.SseClient.RecoverAfter | web/src/api/sse.ts:446-459 | the recovery after a protocol exit: the next cursor is a dispatched bootstrap's, or the client has ended |
| Session.GoingOnReaches | web/src/api/sse.ts:677-719 | a stream that only goes on is applied whole |
| Session.DeliveryGoesOn | web/src/api/sse.ts:677-719 | what a connection delivers from the client's cursor is such a stream |
| Session.BackoffIsBounded | web/src/api/sse.ts:1227-1242 | the delay lies between half the cap and the cap, at least 1 ms and at most the maximum, and more failures never wait less |
| Session.CapDoubles | web/src/api/sse.ts:1227-1242 | the cap starts at the base delay and doubles with each failure up to the maximum |
| Session.JitterSpreads | web/src/api/sse.ts:1227-1242 | no jitter waits half the cap and full jitter the whole |
| ServerComposition.WriterEndsAsWorld | crates/coding-agent-app/src/store_writer.rs:755-789 | however the writer answers a command, the world has that ending, success, rollback or a commit reported as a failure, with the same store after it |
| ServerComposition.WriterRunIsWorldRun | crates/coding-agent-app/src/store_writer.rs:630-753 | a whole run of the writer over a queue is a run of the world's queue over the same commands |
| ServerComposition.OwnWriteIsTransaction | crates/coding-agent-app/src/store_writer.rs:407-443 | the manager's writes are transactions of the writer: applied exactly once or not at all, and applied if answered |
| ServerComposition.ChannelCarriesLog | crates/coding-agent-app/src/event_dispatcher.rs:199-224 | what the dispatcher has sent since it started is, item by item, the log |
| ServerComposition.FeedReaches | crates/coding-agent-app/src/event_dispatcher.rs:199-224 | any growth of commits and broadcasts is a sequence of the receiver's moves |
| ServerComposition.DispatcherTurnFeeds | crates/coding-agent-app/src/event_dispatcher.rs:151-197 | a turn of the dispatcher, seen by a connection, is a sequence of commits and broadcasts |
| ServerComposition.PublishIsWorldStep | crates/coding-agent-app/src/event_dispatcher.rs:210-218 | sending the next event is the world's publishing step |
| ClientComposition.ConnectionFollowsLog | crates/coding-agent-api/src/sse.rs:26-460 | the frames of a connection opened with a cursor are a stream that the client can follow from that cursor |
| ClientComposition.StreamActionIsStep | web/src/state/useAgentState.ts:225-237 | an action of the stream is one step of the client's run and reduces that action |
| ClientComposition.SessionStarts | web/src/state/useAgentState.ts:217-243 | the first bootstrap puts the run where its invariant holds |
| ClientComposition.SessionIsClientRun | web/src/state/reducer.ts:348-528 | any merge of a stream that follows the log with what the user does is a run of the client: its invariant holds all along, so table and detail are what the log says |
| ClientComposition.FaithfulSessionIsRun | web/src/state/useAgentState.ts:222-243 | whenever the events are committed between its actions, a session's stream is a run of the client over exactly that stream and commits; each action is dispatched at its moment, and the state the session ends in is the one the run reaches |
| RetryChain.First | web/src/components/TaskWorkspace.tsx:87-96 | picks the candidate with the smallest attempt, then the earliest in the order |
| RetryChain.FindRoot | web/src/components/TaskWorkspace.tsx:72-82 | climbing ends on every table; on a parent-closed one at the first attempt |
| RetryChain.Chain | web/src/components/TaskWorkspace.tsx:72-100 | terminates on every table, never repeats an id, and on a parent-closed one is the lineage through the task with attempts 1..n down to a leaf |
| RetryChain.WholeLineageIsUnique | web/src/components/TaskWorkspace.tsx:72-100 | there is only one such lineage |

## Left out

- SQLite, migrations, WAL checkpointing and JSON text: tables are maps and a log, a transaction is one step, JSON is an injective encoding.
- Timers, heartbeats, pause hooks and fault injection of the test support: a heartbeat is only a frame without meaning, time is arbitrary.
- UTF-8 decoding and the byte-order mark: the parser works on characters of one to four bytes, pushed whole.
- The integer widths of `civil_from_days` and of the event ids: `i64` overflow needs day counts or logs of about 2^63.
- The wall-clock budgets of the shutdown, marker file, warning process, HTTP shutdown, waiting for runners, and closing the dispatcher and the database pool after the flush.
- What interleaves with the code of `DegradedCoordinator` is every step of `World.EnvStep`, with the freeze and Quiescing of a shutdown among them, but not the manager's own recovery write of a quiesce.
- Launch tokens, sessions, file permissions, the single-instance lock, HTTP routing and error mapping, DTO conversions other than the event frame.
- React components other than the retry chain, dialogs, the browser launcher and the scripted fake runner: a runner is arbitrary.
- The order of the shutdown handles and their done channels: `TaskManager.Manager.Quiesce` answers the set of active tasks.
- Event kinds unknown to the client in `ClientRun`: the log only holds known kinds; `Session` treats the unknown ones.
- Shutdown.ShutDown: the deadline under which the gate drains is not modelled; that it passed shows as a gate that has not drained.
