/** The values the whole system passes around: task rows, panel snapshots and events. */
module Domain {

  datatype Option<+T> = None | Some(value: T)

  datatype Result<+T, +E> = Ok(value: T) | Err(error: E)

  // A UUID is represented by its rank in the order of its canonical text, a timestamp by
  // the instant it denotes.
  type TaskId = nat
  type RepositoryId = nat
  type RequestId = nat
  type Timestamp = int

  type U32 = x: int | 0 <= x < 0x1_0000_0000
  type U64 = x: int | 0 <= x < 0x1_0000_0000_0000_0000

  datatype TaskStatus = Queued | Running | Completed | Failed | Cancelled | Interrupted {

    predicate CanTransitionTo(next: TaskStatus) {
      || (this == Queued && next in {Running, Cancelled, Interrupted})
      || (this == Running && next in {Completed, Failed, Cancelled, Interrupted})
    }

    predicate IsRetryable() {
      this in {Completed, Failed, Cancelled, Interrupted}
    }

    predicate IsIncomplete() {
      this in {Queued, Running}
    }
  }

  datatype TaskFailure = TaskFailure(code: string, message: string, retryable: bool)

  datatype Task = Task(
    id: TaskId,
    clientRequestId: RequestId,
    repositoryId: RepositoryId,
    prompt: string,
    status: TaskStatus,
    attempt: U32,
    retryOf: Option<TaskId>,
    createdAt: Timestamp,
    startedAt: Option<Timestamp>,
    finishedAt: Option<Timestamp>,
    lastEventId: nat,
    failure: Option<TaskFailure>)
  {
    predicate StateIsValid() {
      match status
      case Queued => startedAt.None? && finishedAt.None? && failure.None?
      case Running => startedAt.Some? && finishedAt.None? && failure.None?
      case Completed => startedAt.Some? && finishedAt.Some? && failure.None?
      case Failed => startedAt.Some? && finishedAt.Some? && failure.Some?
      case Cancelled => finishedAt.Some? && failure.None?
      case Interrupted => finishedAt.Some? && failure.Some?
    }

    predicate IsTerminal() {
      status in {Completed, Failed, Cancelled, Interrupted}
    }
  }

  datatype DomainError = InvalidPrompt | InvalidEventId | InvalidTaskAttempt | InvalidTaskState

  function TryFromStored(task: Task): Result<Task, DomainError> {
    if task.attempt == 0 then Err(InvalidTaskAttempt)
    else if !task.StateIsValid() then Err(InvalidTaskState)
    else Ok(task)
  }

  datatype PlanItemStatus = PlanPending | PlanRunning | PlanCompleted
  datatype PlanItem = PlanItem(id: string, title: string, status: PlanItemStatus)
  datatype PlanSnapshot = PlanSnapshot(revision: U64, items: seq<PlanItem>)

  datatype ActivityLevel = Info | Warning | Error
  datatype ActivityEntry = ActivityEntry(id: string, level: ActivityLevel, message: string, createdAt: Timestamp)

  datatype DiffFileStatus = Added | Modified | Deleted
  datatype DiffFile = DiffFile(path: string, status: DiffFileStatus, patch: string, additions: U64, deletions: U64)
  datatype DiffSnapshot = DiffSnapshot(revision: U64, files: seq<DiffFile>)

  datatype TestStatus = TestQueued | TestRunning | TestPassed | TestFailed | TestCancelled
  datatype TestCase = TestCase(id: string, name: string, status: TestStatus, durationMs: U64, summary: string)
  datatype TestSnapshot = TestSnapshot(revision: U64, status: TestStatus, cases: seq<TestCase>)

  datatype EventKind =
    | TaskQueued | TaskStarted | TaskCompleted | TaskFailed | TaskCancelled | TaskInterrupted
    | PlanUpdated | ActivityAppended | DiffUpdated | TestUpdated

  // A lifecycle payload carries the whole task row; `next` is the status its kind announces.
  datatype Payload =
    | Lifecycle(next: TaskStatus, task: Task)
    | Plan(plan: PlanSnapshot)
    | Activity(entry: ActivityEntry)
    | Diff(diff: DiffSnapshot)
    | Tests(tests: TestSnapshot)
  {
    function Kind(): EventKind {
      match this
      case Lifecycle(next, _) => LifecycleKind(next)
      case Plan(_) => PlanUpdated
      case Activity(_) => ActivityAppended
      case Diff(_) => DiffUpdated
      case Tests(_) => TestUpdated
    }
  }

  function LifecycleKind(status: TaskStatus): EventKind {
    match status
    case Queued => TaskQueued
    case Running => TaskStarted
    case Completed => TaskCompleted
    case Failed => TaskFailed
    case Cancelled => TaskCancelled
    case Interrupted => TaskInterrupted
  }

  datatype TaskEvent = TaskEvent(
    id: nat,
    schemaVersion: nat,
    taskId: TaskId,
    payload: Payload,
    createdAt: Timestamp)

  datatype TimelineEntry = TimelineEntry(
    eventId: nat,
    kind: EventKind,
    title: string,
    createdAt: Timestamp,
    failure: Option<TaskFailure>)
}
