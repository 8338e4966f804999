/** Every store transaction as a function on the rows and the log, and what they all keep. */
module StoreModel {
  import opened Domain
  import opened EventLog
  import opened TaskOrder

  const MAX_PROMPT_SCALARS := 50_000
  const MAX_ATTEMPT := 0xFFFF_FFFF

  // `counter` is the AUTOINCREMENT sequence: the greatest row id ever handed out.
  datatype Db = Db(
    repositories: set<RepositoryId>,
    rows: map<TaskId, Task>,
    log: seq<TaskEvent>,
    counter: nat)

  datatype StoreError =
    | Database | Domain(error: DomainError) | IllegalTransition(from: TaskStatus, to: TaskStatus)
    | IdempotencyConflict | TaskNotFound | TaskNotRetryable | InvalidRunningEvent | TaskAttemptOverflow

  datatype TaskTransition =
    | ToRunning | ToCompleted | ToFailed(failure: TaskFailure) | ToCancelled | ToInterrupted(failure: TaskFailure)
  {
    function Next(): TaskStatus {
      match this
      case ToRunning => Running
      case ToCompleted => Completed
      case ToFailed(_) => Failed
      case ToCancelled => Cancelled
      case ToInterrupted(_) => Interrupted
    }

    function Failure(): Option<TaskFailure> {
      match this
      case ToFailed(failure) => Some(failure)
      case ToInterrupted(failure) => Some(failure)
      case _ => None
    }
  }

  datatype CreateOutcome = Created(task: Task, eventId: nat) | Existing(task: Task)
  datatype TransitionOutcome = Applied(task: Task, eventId: nat) | Conflict(current: Task)
  datatype AppendOutcome = Appended(eventId: nat) | NotRunning(current: Task)
  datatype RecoveryOutcome = RecoveryOutcome(
    interruptedCount: nat,
    firstEventId: Option<nat>,
    lastEventId: Option<nat>,
    highWatermark: nat)

  // ----- prompt validation -----

  predicate IsWhitespace(c: char) {
    var n := c as int;
    || 9 <= n <= 13 || n == 0x20 || n == 0x85 || n == 0xA0 || n == 0x1680 || 0x2000 <= n <= 0x200A
    || n == 0x2028 || n == 0x2029 || n == 0x202F || n == 0x205F || n == 0x3000
  }

  function TrimStart(s: string): (r: string)
    ensures r == [] || !IsWhitespace(r[0])
    ensures |r| <= |s| && r == s[|s| - |r|..]
  {
    if s != [] && IsWhitespace(s[0]) then TrimStart(s[1..]) else s
  }

  function TrimEnd(s: string): (r: string)
    ensures r == [] || !IsWhitespace(r[|r| - 1])
    ensures |r| <= |s| && r == s[..|r|]
  {
    if s != [] && IsWhitespace(s[|s| - 1]) then TrimEnd(s[..|s| - 1]) else s
  }

  function TryNewPrompt(prompt: string): Result<string, DomainError> {
    var trimmed := TrimEnd(TrimStart(prompt));
    if |trimmed| == 0 || |trimmed| > MAX_PROMPT_SCALARS then Err(InvalidPrompt) else Ok(trimmed)
  }

  // The API handler and the store both validate; validating twice changes nothing.
  lemma TryNewPromptIdempotent(prompt: string)
    requires TryNewPrompt(prompt).Ok?
    ensures TryNewPrompt(TryNewPrompt(prompt).value) == TryNewPrompt(prompt)
  {
    var s := TrimStart(prompt);
    var t := TrimEnd(s);
    assert t[0] == s[0];
    assert TrimStart(t) == t;
  }

  // ----- transactions -----

  // The row `task`, inserted or updated, followed by `append_lifecycle_event`: the event
  // carries the row whole, and the row names the event.
  function AppendLifecycle(db: Db, t: TaskId, task: Task, now: Timestamp): Db {
    var id := db.counter + 1;
    var row := task.(lastEventId := id);
    db.(rows := db.rows[t := row],
        log := db.log + [TaskEvent(id, 1, t, Lifecycle(row.status, row), now)],
        counter := id)
  }

  predicate HasRequest(db: Db, request: RequestId, t: TaskId) {
    t in db.rows && db.rows[t].clientRequestId == request
  }

  predicate IsRetryOf(db: Db, parent: TaskId, t: TaskId) {
    t in db.rows && db.rows[t].retryOf == Some(parent)
  }

  // Both columns are UNIQUE, so there is at most one row to find.
  function FindRequest(db: Db, request: RequestId): Option<TaskId>
    requires Forest(db.rows)
  {
    if exists t :: t in db.rows && HasRequest(db, request, t)
    then var t :| t in db.rows && HasRequest(db, request, t); Some(t) else None
  }

  function FindRetry(db: Db, parent: TaskId): Option<TaskId>
    requires Forest(db.rows)
  {
    if exists t :: t in db.rows && IsRetryOf(db, parent, t)
    then var t :| t in db.rows && IsRetryOf(db, parent, t); Some(t) else None
  }

  function NewRow(t: TaskId, request: RequestId, repository: RepositoryId, prompt: string,
                  attempt: U32, retryOf: Option<TaskId>, now: Timestamp): Task
  {
    Task(t, request, repository, prompt, Queued, attempt, retryOf, now, None, None, 0, None)
  }

  // The UPDATE of `transition_with_event`.
  function Updated(task: Task, transition: TaskTransition, now: Timestamp): Task {
    if transition.ToRunning?
    then task.(status := Running, startedAt := Some(now), finishedAt := None, failure := None)
    else task.(status := transition.Next(), finishedAt := Some(now), failure := transition.Failure())
  }

  predicate CanApply(db: Db, t: TaskId, expected: TaskStatus) {
    t in db.rows && db.rows[t].status == expected
  }

  function Transition(db: Db, t: TaskId, transition: TaskTransition, now: Timestamp): Db
    requires t in db.rows
  {
    AppendLifecycle(db, t, Updated(db.rows[t], transition, now), now)
  }

  function AppendPanel(db: Db, t: TaskId, payload: Payload, now: Timestamp): Db
    requires t in db.rows
  {
    var id := db.counter + 1;
    db.(rows := db.rows[t := db.rows[t].(lastEventId := id)],
        log := db.log + [TaskEvent(id, 1, t, payload, now)],
        counter := id)
  }

  function Interrupt(db: Db, t: TaskId, now: Timestamp, failure: TaskFailure): Db
    requires t in db.rows
  {
    Transition(db, t, ToInterrupted(failure), now)
  }

  function Create(db: Db, request: RequestId, repository: RepositoryId, prompt: string, newId: TaskId, now: Timestamp)
    : (Db, Result<CreateOutcome, StoreError>)
    requires Forest(db.rows)
  {
    match TryNewPrompt(prompt)
    case Err(error) => (db, Err(Domain(error)))
    case Ok(trimmed) =>
      match FindRequest(db, request)
      case Some(t) =>
        if db.rows[t].repositoryId != repository || db.rows[t].prompt != trimmed then (db, Err(IdempotencyConflict))
        else (db, Ok(Existing(db.rows[t])))
      case None =>
        if repository !in db.repositories then (db, Err(Database))
        else
          var after := AppendLifecycle(db, newId, NewRow(newId, request, repository, trimmed, 1, None, now), now);
          (after, Ok(Created(after.rows[newId], after.counter)))
  }

  function Retry(db: Db, source: TaskId, newId: TaskId, newRequest: RequestId, now: Timestamp)
    : (Db, Result<CreateOutcome, StoreError>)
    requires Forest(db.rows)
  {
    if source !in db.rows then (db, Err(TaskNotFound))
    else if !db.rows[source].status.IsRetryable() then (db, Err(TaskNotRetryable))
    else
      match FindRetry(db, source)
      case Some(t) => (db, Ok(Existing(db.rows[t])))
      case None =>
        var row := db.rows[source];
        if row.attempt == MAX_ATTEMPT then (db, Err(TaskAttemptOverflow))
        else
          var after := AppendLifecycle(db, newId,
            NewRow(newId, newRequest, row.repositoryId, row.prompt, row.attempt + 1, Some(source), now), now);
          (after, Ok(Created(after.rows[newId], after.counter)))
  }

  function TransitionWithEvent(db: Db, t: TaskId, expected: TaskStatus, transition: TaskTransition, now: Timestamp)
    : (Db, Result<TransitionOutcome, StoreError>)
  {
    if !expected.CanTransitionTo(transition.Next()) then (db, Err(IllegalTransition(expected, transition.Next())))
    else if t !in db.rows then (db, Err(TaskNotFound))
    else if db.rows[t].status != expected then (db, Ok(Conflict(db.rows[t])))
    else
      var after := Transition(db, t, transition, now);
      (after, Ok(Applied(after.rows[t], after.counter)))
  }

  function AppendRunningEvent(db: Db, t: TaskId, payload: Payload, now: Timestamp): (Db, Result<AppendOutcome, StoreError>) {
    if payload.Lifecycle? then (db, Err(InvalidRunningEvent))
    else if t !in db.rows then (db, Err(TaskNotFound))
    else if db.rows[t].status != Running then (db, Ok(NotRunning(db.rows[t])))
    else
      var after := AppendPanel(db, t, payload, now);
      (after, Ok(Appended(after.counter)))
  }

  function Incomplete(db: Db): set<TaskId> {
    set t | t in db.rows && db.rows[t].status.IsIncomplete()
  }

  // The loop of `recover_incomplete` over the ids its query returned.
  function Recover(db: Db, ids: seq<TaskId>, now: Timestamp, failure: TaskFailure): (r: Db)
    requires forall t | t in ids :: t in db.rows
    ensures r.rows.Keys == db.rows.Keys
  {
    if ids == [] then db else Interrupt(Recover(db, ids[..|ids| - 1], now, failure), ids[|ids| - 1], now, failure)
  }

  // ----- the invariant of every reachable store -----

  ghost predicate Forest(rows: map<TaskId, Task>) {
    && (forall a, b | a in rows && b in rows && rows[a].clientRequestId == rows[b].clientRequestId :: a == b)
    && (forall a, b | a in rows && b in rows && rows[a].retryOf.Some? && rows[a].retryOf == rows[b].retryOf :: a == b)
    && (forall t | t in rows :: rows[t].id == t && 0 < rows[t].attempt)
    && (forall t | t in rows && rows[t].retryOf.None? :: rows[t].attempt == 1)
    && (forall t | t in rows && rows[t].retryOf.Some? ::
          && rows[t].retryOf.value in rows
          && rows[t].attempt == rows[rows[t].retryOf.value].attempt + 1)
  }

  ghost predicate RowsAreFolds(db: Db) {
    && (forall t | t in db.rows :: Row(db.log, t) == Some(db.rows[t]))
    && (forall t | t !in db.rows :: Row(db.log, t) == None)
  }

  ghost predicate Inv(db: Db) {
    && WellFormed(db.log) && LastId(db.log) <= db.counter && RowsAreFolds(db) && Forest(db.rows)
    && forall t | t in db.rows :: db.rows[t].repositoryId in db.repositories
  }

  // What every transaction does to the store: the log only grows.
  ghost predicate Extends(db: Db, more: Db) {
    && db.log <= more.log && db.counter <= more.counter && db.rows.Keys <= more.rows.Keys
    && forall t | t in db.rows :: SameIdentity(db.rows[t], more.rows[t])
  }

  lemma AppendEventKeepsInv(db: Db, event: TaskEvent, rows: map<TaskId, Task>)
    requires Inv(db) && event.id == db.counter + 1
    requires LegalNext(Row(db.log, event.taskId), event)
    requires event.taskId in rows && rows == db.rows[event.taskId := rows[event.taskId]]
    requires ApplyToRow(Row(db.log, event.taskId), event) == Some(rows[event.taskId])
    requires Forest(rows) && rows[event.taskId].repositoryId in db.repositories
    ensures Inv(db.(rows := rows, log := db.log + [event], counter := event.id))
  {
    hide WellFormed, Row, LegalNext, Forest;
    WellFormedAppend(db.log, event);
  }

  lemma InsertKeepsForest(rows: map<TaskId, Task>, row: Task)
    requires Forest(rows) && row.id !in rows && 0 < row.attempt
    requires forall t | t in rows :: rows[t].clientRequestId != row.clientRequestId
    requires match row.retryOf
             case None => row.attempt == 1
             case Some(p) => p in rows && row.attempt == rows[p].attempt + 1
                             && forall t | t in rows :: rows[t].retryOf != Some(p)
    ensures Forest(rows[row.id := row])
  {
  }

  // What the UNIQUE columns, the foreign keys and the retry rules ask of a row about to be inserted.
  ghost predicate MayInsert(db: Db, row: Task) {
    && row.id !in db.rows && row.repositoryId in db.repositories && 0 < row.attempt
    && row.status == Queued && row.StateIsValid()
    && (forall t | t in db.rows :: db.rows[t].clientRequestId != row.clientRequestId)
    && match row.retryOf
       case None => row.attempt == 1
       case Some(p) => p in db.rows && row.attempt == db.rows[p].attempt + 1
                       && forall t | t in db.rows :: db.rows[t].retryOf != Some(p)
  }

  lemma InsertKeepsInv(db: Db, row: Task, now: Timestamp)
    requires Inv(db) && MayInsert(db, row)
    ensures Inv(AppendLifecycle(db, row.id, row, now)) && Extends(db, AppendLifecycle(db, row.id, row, now))
  {
    var after := AppendLifecycle(db, row.id, row, now);
    InsertKeepsForest(db.rows, after.rows[row.id]);
    hide Forest;
    AppendEventKeepsInv(db, after.log[|db.log|], after.rows);
  }

  lemma UpdateKeepsForest(rows: map<TaskId, Task>, task: Task)
    requires Forest(rows) && task.id in rows && SameIdentity(rows[task.id], task)
    ensures Forest(rows[task.id := task])
  {
    var more := rows[task.id := task];
    assert more.Keys == rows.Keys;
    assert forall t | t in more ::
        && more[t].id == rows[t].id && more[t].attempt == rows[t].attempt
        && more[t].retryOf == rows[t].retryOf && more[t].clientRequestId == rows[t].clientRequestId;
    hide SameIdentity;
  }

  lemma TransitionIsLegal(row: Task, transition: TaskTransition, now: Timestamp, id: nat)
    requires row.attempt > 0 && row.StateIsValid() && row.status.CanTransitionTo(transition.Next())
    ensures var task := Updated(row, transition, now).(lastEventId := id);
            SameIdentity(row, task) && LegalNext(Some(row), TaskEvent(id, 1, row.id, Lifecycle(task.status, task), now))
  {
  }

  lemma TransitionKeepsInv(db: Db, t: TaskId, transition: TaskTransition, now: Timestamp)
    requires Inv(db) && t in db.rows && db.rows[t].status.CanTransitionTo(transition.Next())
    ensures Inv(Transition(db, t, transition, now))
    ensures Extends(db, Transition(db, t, transition, now))
    ensures Transition(db, t, transition, now).rows[t].status == transition.Next()
    ensures forall u | u in db.rows && u != t :: Transition(db, t, transition, now).rows[u] == db.rows[u]
  {
    hide Forest, WellFormed, Row, LegalNext;
    var after := Transition(db, t, transition, now);
    RowIsStored(db.log, t);
    TransitionIsLegal(db.rows[t], transition, now, after.counter);
    UpdateKeepsForest(db.rows, after.rows[t]);
    AppendEventKeepsInv(db, after.log[|db.log|], after.rows);
  }

  lemma AppendPanelKeepsInv(db: Db, t: TaskId, payload: Payload, now: Timestamp)
    requires Inv(db) && CanApply(db, t, Running) && !payload.Lifecycle?
    ensures Inv(AppendPanel(db, t, payload, now)) && Extends(db, AppendPanel(db, t, payload, now))
  {
    var after := AppendPanel(db, t, payload, now);
    UpdateKeepsForest(db.rows, after.rows[t]);
    AppendEventKeepsInv(db, after.log[|db.log|], after.rows);
  }

  // Recovery interrupts exactly the listed rows and touches no other.
  lemma {:induction false} RecoverInterrupts(db: Db, ids: seq<TaskId>, now: Timestamp, failure: TaskFailure)
    requires Inv(db) && SortedIds(db.rows, ids)
    requires forall t | t in ids :: db.rows[t].status.IsIncomplete()
    ensures Inv(Recover(db, ids, now, failure)) && Extends(db, Recover(db, ids, now, failure))
    ensures Interrupted(db, ids, Recover(db, ids, now, failure))
  {
    if ids != [] {
      var front, last := ids[..|ids| - 1], ids[|ids| - 1];
      LastIsNew(db.rows, ids);
      RecoverInterrupts(db, front, now, failure);
      InterruptLast(db, front, last, Recover(db, front, now, failure), now, failure);
    }
  }

  lemma InterruptLast(db: Db, done: seq<TaskId>, t: TaskId, mid: Db, now: Timestamp, failure: TaskFailure)
    requires Inv(mid) && Extends(db, mid) && Interrupted(db, done, mid)
    requires t in db.rows && t !in done && db.rows[t].status.IsIncomplete()
    ensures Inv(Interrupt(mid, t, now, failure)) && Extends(db, Interrupt(mid, t, now, failure))
    ensures Interrupted(db, done + [t], Interrupt(mid, t, now, failure))
  {
    hide Inv, Extends;
    TransitionKeepsInv(mid, t, ToInterrupted(failure), now);
    ExtendsTransitive(db, mid, Interrupt(mid, t, now, failure));
  }

  // Between `db` and `r` exactly the rows `ids` became interrupted, one event each.
  ghost predicate Interrupted(db: Db, ids: seq<TaskId>, r: Db) {
    && r.rows.Keys == db.rows.Keys && |r.log| == |db.log| + |ids|
    && (forall t | t in ids && t in r.rows :: r.rows[t].status == TaskStatus.Interrupted)
    && (forall t | t in db.rows && t !in ids && t in r.rows :: r.rows[t] == db.rows[t])
  }

  lemma ExtendsReflexive(db: Db)
    ensures Extends(db, db)
  {
  }

  lemma ExtendsTransitive(a: Db, b: Db, c: Db)
    requires Extends(a, b) && Extends(b, c)
    ensures Extends(a, c)
  {
  }

  lemma LastIsNew(rows: map<TaskId, Task>, ids: seq<TaskId>)
    requires SortedIds(rows, ids) && ids != []
    ensures SortedIds(rows, ids[..|ids| - 1]) && ids[|ids| - 1] !in ids[..|ids| - 1]
    ensures ids == ids[..|ids| - 1] + [ids[|ids| - 1]]
  {
    forall i | 0 <= i < |ids| - 1 ensures ids[i] != ids[|ids| - 1] { assert Before(rows, ids[i], ids[|ids| - 1]); }
  }

  // ----- runs -----

  // New ids are the UUIDs the store draws; `Burn` is any other use of the id sequence.
  datatype Transaction =
    | CreateTask(request: RequestId, repository: RepositoryId, prompt: string, newId: TaskId, now: Timestamp)
    | RetryTask(source: TaskId, newId: TaskId, newRequest: RequestId, now: Timestamp)
    | TransitionTask(t: TaskId, expected: TaskStatus, transition: TaskTransition, now: Timestamp)
    | AppendEvent(t: TaskId, payload: Payload, now: Timestamp)
    | RecoverIncomplete(now: Timestamp, failure: TaskFailure)
    | RegisterRepository(repository: RepositoryId)
    | Burn(ids: nat)

  ghost predicate DrawsFresh(db: Db, tx: Transaction) {
    match tx
    case CreateTask(_, _, _, newId, _) => newId !in db.rows
    case RetryTask(_, newId, newRequest, _) => newId !in db.rows && forall t :: !HasRequest(db, newRequest, t)
    case _ => true
  }

  ghost predicate Commits(db: Db, tx: Transaction, after: Db)
    requires Forest(db.rows)
  {
    && DrawsFresh(db, tx)
    && match tx
       case CreateTask(request, repository, prompt, newId, now) => after == Create(db, request, repository, prompt, newId, now).0
       case RetryTask(source, newId, newRequest, now) => after == Retry(db, source, newId, newRequest, now).0
       case TransitionTask(t, expected, transition, now) => after == TransitionWithEvent(db, t, expected, transition, now).0
       case AppendEvent(t, payload, now) => after == AppendRunningEvent(db, t, payload, now).0
       case RecoverIncomplete(now, failure) => exists ids :: Lists(db.rows, Incomplete(db), ids) && after == Recover(db, ids, now, failure)
       case RegisterRepository(repository) => after == db.(repositories := db.repositories + {repository})
       case Burn(ids) => after == db.(counter := db.counter + ids)
  }

  lemma CreateMayInsert(db: Db, request: RequestId, repository: RepositoryId, prompt: string, newId: TaskId, now: Timestamp)
    requires Inv(db) && newId !in db.rows && FindRequest(db, request).None? && repository in db.repositories
    ensures MayInsert(db, NewRow(newId, request, repository, prompt, 1, None, now))
  {
    forall t | t in db.rows ensures db.rows[t].clientRequestId != request { assert !HasRequest(db, request, t); }
    hide Inv, FindRequest;
  }

  lemma CreateKeepsInv(db: Db, request: RequestId, repository: RepositoryId, prompt: string, newId: TaskId, now: Timestamp)
    requires Inv(db) && newId !in db.rows
    ensures Inv(Create(db, request, repository, prompt, newId, now).0)
    ensures Extends(db, Create(db, request, repository, prompt, newId, now).0)
  {
    ExtendsReflexive(db);
    hide Extends, TryNewPrompt, AppendLifecycle, MayInsert, NewRow, FindRequest;
    if TryNewPrompt(prompt).Ok? && FindRequest(db, request).None? && repository in db.repositories {
      var trimmed := TryNewPrompt(prompt).value;
      CreateMayInsert(db, request, repository, trimmed, newId, now);
      NewRowIsNamed(newId, request, repository, trimmed, 1, None, now);
      InsertKeepsInv(db, NewRow(newId, request, repository, trimmed, 1, None, now), now);
    }
  }

  lemma NewRowIsNamed(t: TaskId, request: RequestId, repository: RepositoryId, prompt: string,
                      attempt: U32, retryOf: Option<TaskId>, now: Timestamp)
    ensures NewRow(t, request, repository, prompt, attempt, retryOf, now).id == t
  {
  }

  lemma RetryMayInsert(db: Db, source: TaskId, newId: TaskId, newRequest: RequestId, now: Timestamp)
    requires Inv(db) && newId !in db.rows && forall t :: !HasRequest(db, newRequest, t)
    requires source in db.rows && db.rows[source].attempt < MAX_ATTEMPT && FindRetry(db, source).None?
    ensures var row := db.rows[source];
            MayInsert(db, NewRow(newId, newRequest, row.repositoryId, row.prompt, row.attempt + 1, Some(source), now))
  {
    forall t | t in db.rows ensures db.rows[t].retryOf != Some(source) { assert !IsRetryOf(db, source, t); }
    forall t | t in db.rows ensures db.rows[t].clientRequestId != newRequest { assert !HasRequest(db, newRequest, t); }
    assert db.rows[source].repositoryId in db.repositories && 0 < db.rows[source].attempt;
    hide Inv, FindRetry;
  }

  lemma RetryKeepsInv(db: Db, source: TaskId, newId: TaskId, newRequest: RequestId, now: Timestamp)
    requires Inv(db) && newId !in db.rows && forall t :: !HasRequest(db, newRequest, t)
    ensures Inv(Retry(db, source, newId, newRequest, now).0)
    ensures Extends(db, Retry(db, source, newId, newRequest, now).0)
  {
    ExtendsReflexive(db);
    hide Extends, AppendLifecycle, MayInsert, NewRow, FindRetry, HasRequest;
    if source in db.rows && db.rows[source].status.IsRetryable() && FindRetry(db, source).None?
       && db.rows[source].attempt < MAX_ATTEMPT {
      var row := db.rows[source];
      RetryMayInsert(db, source, newId, newRequest, now);
      NewRowIsNamed(newId, newRequest, row.repositoryId, row.prompt, row.attempt + 1, Some(source), now);
      InsertKeepsInv(db, NewRow(newId, newRequest, row.repositoryId, row.prompt, row.attempt + 1, Some(source), now), now);
    }
  }

  lemma CommitKeepsInv(db: Db, tx: Transaction, after: Db)
    requires Inv(db) && Commits(db, tx, after)
    ensures Inv(after) && Extends(db, after)
  {
    match tx
    case CreateTask(request, repository, prompt, newId, now) => CreateKeepsInv(db, request, repository, prompt, newId, now);
    case RetryTask(source, newId, newRequest, now) => RetryKeepsInv(db, source, newId, newRequest, now);
    case TransitionTask(t, expected, transition, now) =>
      if expected.CanTransitionTo(transition.Next()) && CanApply(db, t, expected) { TransitionKeepsInv(db, t, transition, now); }
    case AppendEvent(t, payload, now) =>
      if !payload.Lifecycle? && CanApply(db, t, Running) { AppendPanelKeepsInv(db, t, payload, now); }
    case RecoverIncomplete(now, failure) =>
      var ids :| Lists(db.rows, Incomplete(db), ids) && after == Recover(db, ids, now, failure);
      RecoverInterrupts(db, ids, now, failure);
    case RegisterRepository(_) =>
    case Burn(_) =>
  }

  ghost predicate IsRun(history: seq<Db>, txs: seq<Transaction>) {
    && |history| == |txs| + 1
    && history[0] == Db({}, map[], [], 0)
    && forall i | 0 <= i < |txs| :: Forest(history[i].rows) && Commits(history[i], txs[i], history[i + 1])
  }

  // Every store a run reaches has every row equal to the fold of its events.
  lemma {:induction false} EveryRunKeepsInv(history: seq<Db>, txs: seq<Transaction>, n: nat)
    requires IsRun(history, txs) && n < |history|
    ensures Inv(history[n])
  {
    hide Inv, Commits, Extends, Forest;
    if n == 0 {
      EmptyStore();
    } else {
      EveryRunKeepsInv(history, txs, n - 1);
      CommitKeepsInv(history[n - 1], txs[n - 1], history[n]);
    }
  }

  lemma EmptyStore()
    ensures Inv(Db({}, map[], [], 0))
  {
  }

  // The log of a run only ever grows at its end, and identity columns never change.
  lemma {:induction false} EveryRunExtends(history: seq<Db>, txs: seq<Transaction>, m: nat, n: nat)
    requires IsRun(history, txs) && m <= n < |history|
    ensures Extends(history[m], history[n])
  {
    hide Inv, Commits, Extends, Forest;
    if m == n {
      ExtendsReflexive(history[m]);
    } else {
      EveryRunExtends(history, txs, m, n - 1);
      EveryRunKeepsInv(history, txs, n - 1);
      CommitKeepsInv(history[n - 1], txs[n - 1], history[n]);
      ExtendsTransitive(history[m], history[n - 1], history[n]);
    }
  }
}
