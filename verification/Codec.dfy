/** How an event is written to the database, read back, put on the wire and accepted by the client. */
module Codec {
  import opened Domain
  import opened EventLog

  const MAX_SAFE_INTEGER := 0x1F_FFFF_FFFF_FFFF

  // Member names are tokens; UUIDs and timestamps are strings whose text stays abstract.
  datatype Key =
    | KId | KSchemaVersion | KTaskId | KKind | KPayload | KCreatedAt | KTask | KPlan | KEntry | KDiff | KTests
    | KClientRequestId | KRepositoryId | KPrompt | KStatus | KAttempt | KRetryOf | KStartedAt | KFinishedAt
    | KLastEventId | KFailure | KCode | KMessage | KRetryable | KRevision | KItems | KTitle | KLevel | KFiles
    | KPath | KPatch | KAdditions | KDeletions | KCases | KName | KDurationMs | KSummary
    | KLatestEventId | KGeneration | KState

  datatype Json =
    | JNull
    | JBool(bool)
    | JNum(n: int)
    | JStr(s: string)
    | JUuid(id: nat)
    | JTime(at: Timestamp)
    | JArr(items: seq<Json>)
    | JObj(fields: map<Key, Json>)
  {
    function Get(key: Key): Json {
      if JObj? && key in fields then fields[key] else JNull
    }

    predicate IsString() { JStr? || JUuid? || JTime? }
  }

  function Map<A, B>(f: A -> B, xs: seq<A>): (ys: seq<B>)
    ensures |ys| == |xs| && forall i | 0 <= i < |xs| :: ys[i] == f(xs[i])
  {
    if xs == [] then [] else [f(xs[0])] + Map(f, xs[1..])
  }

  function All<A>(f: A -> bool, xs: seq<A>): (b: bool)
    ensures b <==> forall i | 0 <= i < |xs| :: f(xs[i])
  {
    xs == [] || (f(xs[0]) && All(f, xs[1..]))
  }

  // Decoding a list fails as soon as one element fails.
  function Traverse<A, B>(f: A -> Option<B>, xs: seq<A>): Option<seq<B>> {
    if xs == [] then Some([])
    else
      match (f(xs[0]), Traverse(f, xs[1..]))
      case (Some(y), Some(ys)) => Some([y] + ys)
      case _ => None
  }

  lemma {:induction false} TraverseInverts<A, B>(decode: B -> Option<A>, encode: A -> B, xs: seq<A>)
    requires forall i | 0 <= i < |xs| :: decode(encode(xs[i])) == Some(xs[i])
    ensures Traverse(decode, Map(encode, xs)) == Some(xs)
  {
    hide Map;
    if xs != [] {
      forall i | 0 <= i < |xs[1..]| ensures decode(encode(xs[1..][i])) == Some(xs[1..][i]) {
        assert xs[1..][i] == xs[i + 1];
      }
      TraverseInverts(decode, encode, xs[1..]);
      TraverseHead(decode, Map(encode, xs), Map(encode, xs[1..]), xs[0], xs[1..]);
      assert xs == [xs[0]] + xs[1..];
    }
  }

  lemma TraverseHead<A, B>(decode: B -> Option<A>, ys: seq<B>, tail: seq<B>, first: A, rest: seq<A>)
    requires ys != [] && |tail| == |ys| - 1 && forall i | 0 <= i < |tail| :: tail[i] == ys[i + 1]
    requires decode(ys[0]) == Some(first) && Traverse(decode, tail) == Some(rest)
    ensures Traverse(decode, ys) == Some([first] + rest)
  {
    assert ys[1..] == tail;
  }

  // ----- enumerations as text -----

  function StatusText(status: TaskStatus): string {
    match status
    case Queued => "queued"
    case Running => "running"
    case Completed => "completed"
    case Failed => "failed"
    case Cancelled => "cancelled"
    case Interrupted => "interrupted"
  }

  function ParseStatus(text: string): Option<TaskStatus> {
    if text == "queued" then Some(Queued)
    else if text == "running" then Some(Running)
    else if text == "completed" then Some(Completed)
    else if text == "failed" then Some(Failed)
    else if text == "cancelled" then Some(Cancelled)
    else if text == "interrupted" then Some(Interrupted)
    else None
  }

  function KindText(kind: EventKind): string {
    match kind
    case TaskQueued => "task.queued"
    case TaskStarted => "task.started"
    case PlanUpdated => "plan.updated"
    case ActivityAppended => "activity.appended"
    case DiffUpdated => "diff.updated"
    case TestUpdated => "test.updated"
    case TaskCompleted => "task.completed"
    case TaskFailed => "task.failed"
    case TaskCancelled => "task.cancelled"
    case TaskInterrupted => "task.interrupted"
  }

  function ParseKind(text: string): Option<EventKind> {
    if text == "task.queued" then Some(TaskQueued)
    else if text == "task.started" then Some(TaskStarted)
    else if text == "plan.updated" then Some(PlanUpdated)
    else if text == "activity.appended" then Some(ActivityAppended)
    else if text == "diff.updated" then Some(DiffUpdated)
    else if text == "test.updated" then Some(TestUpdated)
    else if text == "task.completed" then Some(TaskCompleted)
    else if text == "task.failed" then Some(TaskFailed)
    else if text == "task.cancelled" then Some(TaskCancelled)
    else if text == "task.interrupted" then Some(TaskInterrupted)
    else None
  }

  lemma TextRoundTrips(status: TaskStatus, kind: EventKind)
    ensures ParseStatus(StatusText(status)) == Some(status)
    ensures ParseKind(KindText(kind)) == Some(kind)
  {
    assert "queued"[0] == 'q' && "failed"[0] == 'f' && "completed"[1] == 'o' && "cancelled"[1] == 'a';
    assert "task.queued"[5] == 'q' && "task.failed"[5] == 'f';
    assert "task.started"[0] == 't' && "plan.updated"[0] == 'p' && "diff.updated"[0] == 'd' && "test.updated"[1] == 'e';
    assert "task.started"[1] == 'a';
    assert "task.completed"[6] == 'o' && "task.cancelled"[6] == 'a';
  }

  function PlanItemStatusText(status: PlanItemStatus): string {
    match status case PlanPending => "pending" case PlanRunning => "running" case PlanCompleted => "completed"
  }

  function ParsePlanItemStatus(text: string): Option<PlanItemStatus> {
    if text == "pending" then Some(PlanPending)
    else if text == "running" then Some(PlanRunning)
    else if text == "completed" then Some(PlanCompleted)
    else None
  }

  function LevelText(level: ActivityLevel): string {
    match level case Info => "info" case Warning => "warning" case Error => "error"
  }

  function ParseLevel(text: string): Option<ActivityLevel> {
    if text == "info" then Some(Info) else if text == "warning" then Some(Warning)
    else if text == "error" then Some(Error) else None
  }

  function DiffStatusText(status: DiffFileStatus): string {
    match status case Added => "added" case Modified => "modified" case Deleted => "deleted"
  }

  function ParseDiffStatus(text: string): Option<DiffFileStatus> {
    if text == "added" then Some(Added) else if text == "modified" then Some(Modified)
    else if text == "deleted" then Some(Deleted) else None
  }

  function TestStatusText(status: TestStatus): string {
    match status
    case TestQueued => "queued"
    case TestRunning => "running"
    case TestPassed => "passed"
    case TestFailed => "failed"
    case TestCancelled => "cancelled"
  }

  function ParseTestStatus(text: string): Option<TestStatus> {
    if text == "queued" then Some(TestQueued)
    else if text == "running" then Some(TestRunning)
    else if text == "passed" then Some(TestPassed)
    else if text == "failed" then Some(TestFailed)
    else if text == "cancelled" then Some(TestCancelled)
    else None
  }

  lemma PanelTextRoundTrips()
    ensures forall x :: ParsePlanItemStatus(PlanItemStatusText(x)) == Some(x)
    ensures forall x :: ParseLevel(LevelText(x)) == Some(x)
    ensures forall x :: ParseDiffStatus(DiffStatusText(x)) == Some(x)
    ensures forall x :: ParseTestStatus(TestStatusText(x)) == Some(x)
  {
    assert "pending"[0] == 'p' && "running"[0] == 'r';
    assert "queued"[0] == 'q' && "passed"[0] == 'p' && "failed"[0] == 'f';
  }

  // ----- writing: `serde_json` on the domain types and on the wire types -----

  function OptionJson<T>(value: Option<T>, encode: T -> Json): Json {
    match value case None => JNull case Some(x) => encode(x)
  }

  function FailureJson(failure: TaskFailure): Json {
    JObj(map[KCode := JStr(failure.code), KMessage := JStr(failure.message), KRetryable := JBool(failure.retryable)])
  }

  function TaskJson(task: Task): Json {
    JObj(map[
      KId := JUuid(task.id),
      KClientRequestId := JUuid(task.clientRequestId),
      KRepositoryId := JUuid(task.repositoryId),
      KPrompt := JStr(task.prompt),
      KStatus := JStr(StatusText(task.status)),
      KAttempt := JNum(task.attempt),
      KRetryOf := OptionJson(task.retryOf, id => JUuid(id)),
      KCreatedAt := JTime(task.createdAt),
      KStartedAt := OptionJson(task.startedAt, at => JTime(at)),
      KFinishedAt := OptionJson(task.finishedAt, at => JTime(at)),
      KLastEventId := JNum(task.lastEventId),
      KFailure := OptionJson(task.failure, failure => FailureJson(failure))])
  }

  function PlanItemJson(item: PlanItem): Json {
    JObj(map[KId := JStr(item.id), KTitle := JStr(item.title), KStatus := JStr(PlanItemStatusText(item.status))])
  }

  function PlanJson(plan: PlanSnapshot): Json {
    JObj(map[KRevision := JNum(plan.revision), KItems := JArr(Map(PlanItemJson, plan.items))])
  }

  function EntryJson(entry: ActivityEntry): Json {
    JObj(map[KId := JStr(entry.id), KLevel := JStr(LevelText(entry.level)), KMessage := JStr(entry.message),
             KCreatedAt := JTime(entry.createdAt)])
  }

  function DiffFileJson(file: DiffFile): Json {
    JObj(map[KPath := JStr(file.path), KStatus := JStr(DiffStatusText(file.status)), KPatch := JStr(file.patch),
             KAdditions := JNum(file.additions), KDeletions := JNum(file.deletions)])
  }

  function DiffJson(diff: DiffSnapshot): Json {
    JObj(map[KRevision := JNum(diff.revision), KFiles := JArr(Map(DiffFileJson, diff.files))])
  }

  function TestCaseJson(test: TestCase): Json {
    JObj(map[KId := JStr(test.id), KName := JStr(test.name), KStatus := JStr(TestStatusText(test.status)),
             KDurationMs := JNum(test.durationMs), KSummary := JStr(test.summary)])
  }

  function TestsJson(tests: TestSnapshot): Json {
    JObj(map[KRevision := JNum(tests.revision), KStatus := JStr(TestStatusText(tests.status)),
             KCases := JArr(Map(TestCaseJson, tests.cases))])
  }

  // `payload_json`
  function PayloadJson(payload: Payload): Json {
    match payload
    case Lifecycle(_, task) => JObj(map[KTask := TaskJson(task)])
    case Plan(plan) => JObj(map[KPlan := PlanJson(plan)])
    case Activity(entry) => JObj(map[KEntry := EntryJson(entry)])
    case Diff(diff) => JObj(map[KDiff := DiffJson(diff)])
    case Tests(tests) => JObj(map[KTests := TestsJson(tests)])
  }

  // ----- reading: `serde_json::from_value` -----

  function ReadString(j: Json): Option<string> { if j.JStr? then Some(j.s) else None }
  function ReadUuid(j: Json): Option<nat> { if j.JUuid? then Some(j.id) else None }
  function ReadTime(j: Json): Option<Timestamp> { if j.JTime? then Some(j.at) else None }
  function ReadBool(j: Json): Option<bool> { match j case JBool(b) => Some(b) case _ => None }

  function ReadU64(j: Json): Option<U64> {
    if j.JNum? && 0 <= j.n < 0x1_0000_0000_0000_0000 then Some(j.n) else None
  }

  function ReadU32(j: Json): Option<U32> {
    if j.JNum? && 0 <= j.n < 0x1_0000_0000 then Some(j.n) else None
  }

  // `EventId` refuses zero and negative numbers.
  function ReadEventId(j: Json): Option<nat> {
    if j.JNum? && j.n > 0 then Some(j.n) else None
  }

  function ReadNullable<T>(read: Json -> Option<T>, j: Json): Option<Option<T>> {
    if j.JNull? then Some(None)
    else match read(j) case Some(x) => Some(Some(x)) case None => None
  }

  function ReadText<T>(parse: string -> Option<T>, j: Json): Option<T> {
    if j.JStr? then parse(j.s) else None
  }

  function ReadFailure(j: Json): Option<TaskFailure> {
    match (ReadString(j.Get(KCode)), ReadString(j.Get(KMessage)), ReadBool(j.Get(KRetryable)))
    case (Some(code), Some(message), Some(retryable)) => Some(TaskFailure(code, message, retryable))
    case _ => None
  }

  function ReadTask(j: Json): Option<Task> {
    var id := ReadUuid(j.Get(KId));
    var request := ReadUuid(j.Get(KClientRequestId));
    var repository := ReadUuid(j.Get(KRepositoryId));
    var prompt := ReadString(j.Get(KPrompt));
    var status := ReadText(ParseStatus, j.Get(KStatus));
    var attempt := ReadU32(j.Get(KAttempt));
    var retryOf := ReadNullable(ReadUuid, j.Get(KRetryOf));
    var createdAt := ReadTime(j.Get(KCreatedAt));
    var startedAt := ReadNullable(ReadTime, j.Get(KStartedAt));
    var finishedAt := ReadNullable(ReadTime, j.Get(KFinishedAt));
    var lastEventId := ReadEventId(j.Get(KLastEventId));
    var failure := ReadNullable(ReadFailure, j.Get(KFailure));
    if id.Some? && request.Some? && repository.Some? && prompt.Some? && status.Some? && attempt.Some? && retryOf.Some?
       && createdAt.Some? && startedAt.Some? && finishedAt.Some? && lastEventId.Some? && failure.Some?
    then Some(Task(id.value, request.value, repository.value, prompt.value, status.value, attempt.value, retryOf.value,
                   createdAt.value, startedAt.value, finishedAt.value, lastEventId.value, failure.value))
    else None
  }

  function ReadPlanItem(j: Json): Option<PlanItem> {
    match (ReadString(j.Get(KId)), ReadString(j.Get(KTitle)), ReadText(ParsePlanItemStatus, j.Get(KStatus)))
    case (Some(id), Some(title), Some(status)) => Some(PlanItem(id, title, status))
    case _ => None
  }

  function ReadList<T>(read: Json -> Option<T>, j: Json): Option<seq<T>> {
    if j.JArr? then Traverse(read, j.items) else None
  }

  function ReadPlan(j: Json): Option<PlanSnapshot> {
    match (ReadU64(j.Get(KRevision)), ReadList(ReadPlanItem, j.Get(KItems)))
    case (Some(revision), Some(items)) => Some(PlanSnapshot(revision, items))
    case _ => None
  }

  function ReadEntry(j: Json): Option<ActivityEntry> {
    match (ReadString(j.Get(KId)), ReadText(ParseLevel, j.Get(KLevel)), ReadString(j.Get(KMessage)), ReadTime(j.Get(KCreatedAt)))
    case (Some(id), Some(level), Some(message), Some(createdAt)) => Some(ActivityEntry(id, level, message, createdAt))
    case _ => None
  }

  function ReadDiffFile(j: Json): Option<DiffFile> {
    match (ReadString(j.Get(KPath)), ReadText(ParseDiffStatus, j.Get(KStatus)), ReadString(j.Get(KPatch)),
           ReadU64(j.Get(KAdditions)), ReadU64(j.Get(KDeletions)))
    case (Some(path), Some(status), Some(patch), Some(additions), Some(deletions)) =>
      Some(DiffFile(path, status, patch, additions, deletions))
    case _ => None
  }

  function ReadDiff(j: Json): Option<DiffSnapshot> {
    match (ReadU64(j.Get(KRevision)), ReadList(ReadDiffFile, j.Get(KFiles)))
    case (Some(revision), Some(files)) => Some(DiffSnapshot(revision, files))
    case _ => None
  }

  function ReadTestCase(j: Json): Option<TestCase> {
    match (ReadString(j.Get(KId)), ReadString(j.Get(KName)), ReadText(ParseTestStatus, j.Get(KStatus)),
           ReadU64(j.Get(KDurationMs)), ReadString(j.Get(KSummary)))
    case (Some(id), Some(name), Some(status), Some(durationMs), Some(summary)) =>
      Some(TestCase(id, name, status, durationMs, summary))
    case _ => None
  }

  function ReadTests(j: Json): Option<TestSnapshot> {
    match (ReadU64(j.Get(KRevision)), ReadText(ParseTestStatus, j.Get(KStatus)), ReadList(ReadTestCase, j.Get(KCases)))
    case (Some(revision), Some(status), Some(cases)) => Some(TestSnapshot(revision, status, cases))
    case _ => None
  }

  // ----- database records -----

  datatype EventRecord = EventRecord(
    id: int,
    schemaVersion: int,
    taskId: TaskId,
    kind: string,
    payload: Json,
    createdAt: Timestamp)

  datatype ReadError =
    | InvalidEventSchemaVersion(version: int) | InvalidEventKind(kind: string) | InvalidJson
    | DomainViolation(error: DomainError) | TaskIdMismatch | EventIdMismatch | StatusMismatch

  function ToRecord(event: TaskEvent): EventRecord {
    EventRecord(event.id, event.schemaVersion, event.taskId, KindText(event.payload.Kind()),
                PayloadJson(event.payload), event.createdAt)
  }

  // `lifecycle_task`: the row inside the payload must be this event's own row.
  function LifecycleTask(payload: Json, taskId: TaskId, eventId: int, expected: TaskStatus): Result<Task, ReadError> {
    match ReadTask(payload.Get(KTask))
    case None => Err(InvalidJson)
    case Some(task) =>
      match TryFromStored(task)
      case Err(error) => Err(DomainViolation(error))
      case Ok(_) =>
        if task.id != taskId then Err(TaskIdMismatch)
        else if task.lastEventId != eventId then Err(EventIdMismatch)
        else if task.status != expected then Err(StatusMismatch)
        else Ok(task)
  }

  function LifecyclePayload(payload: Json, taskId: TaskId, eventId: int, expected: TaskStatus): Result<Payload, ReadError> {
    match LifecycleTask(payload, taskId, eventId, expected)
    case Ok(task) => Ok(Lifecycle(expected, task))
    case Err(error) => Err(error)
  }

  function PanelPayload<T>(value: Option<T>, wrap: T -> Payload): Result<Payload, ReadError> {
    match value case Some(x) => Ok(wrap(x)) case None => Err(InvalidJson)
  }

  function PayloadFromValue(kind: EventKind, payload: Json, taskId: TaskId, eventId: int): Result<Payload, ReadError> {
    match kind
    case TaskQueued => LifecyclePayload(payload, taskId, eventId, Queued)
    case TaskStarted => LifecyclePayload(payload, taskId, eventId, Running)
    case TaskCompleted => LifecyclePayload(payload, taskId, eventId, Completed)
    case TaskFailed => LifecyclePayload(payload, taskId, eventId, Failed)
    case TaskCancelled => LifecyclePayload(payload, taskId, eventId, Cancelled)
    case TaskInterrupted => LifecyclePayload(payload, taskId, eventId, Interrupted)
    case PlanUpdated => PanelPayload(ReadPlan(payload.Get(KPlan)), plan => Plan(plan))
    case ActivityAppended => PanelPayload(ReadEntry(payload.Get(KEntry)), entry => Activity(entry))
    case DiffUpdated => PanelPayload(ReadDiff(payload.Get(KDiff)), diff => Diff(diff))
    case TestUpdated => PanelPayload(ReadTests(payload.Get(KTests)), tests => Tests(tests))
  }

  // `event_from_record`
  function EventFromRecord(record: EventRecord): Result<TaskEvent, ReadError> {
    if record.schemaVersion != 1 then Err(InvalidEventSchemaVersion(record.schemaVersion))
    else if record.id <= 0 then Err(DomainViolation(InvalidEventId))
    else
      match ParseKind(record.kind)
      case None => Err(InvalidEventKind(record.kind))
      case Some(kind) =>
        match PayloadFromValue(kind, record.payload, record.taskId, record.id)
        case Err(error) => Err(error)
        case Ok(payload) => Ok(TaskEvent(record.id, 1, record.taskId, payload, record.createdAt))
  }

  lemma FailureJsonRoundTrips(failure: TaskFailure)
    ensures ReadFailure(FailureJson(failure)) == Some(failure)
  {
  }

  lemma TaskMembers(task: Task)
    ensures var j := TaskJson(task);
            && j.Get(KId) == JUuid(task.id) && j.Get(KClientRequestId) == JUuid(task.clientRequestId)
            && j.Get(KRepositoryId) == JUuid(task.repositoryId) && j.Get(KPrompt) == JStr(task.prompt)
            && j.Get(KStatus) == JStr(StatusText(task.status)) && j.Get(KAttempt) == JNum(task.attempt)
            && j.Get(KCreatedAt) == JTime(task.createdAt)
            && j.Get(KLastEventId) == JNum(task.lastEventId)
  {
    hide StatusText, FailureJson;
  }

  lemma TaskOptionalMembers(task: Task)
    ensures var j := TaskJson(task);
            && ReadNullable(ReadUuid, j.Get(KRetryOf)) == Some(task.retryOf)
            && ReadNullable(ReadTime, j.Get(KStartedAt)) == Some(task.startedAt)
            && ReadNullable(ReadTime, j.Get(KFinishedAt)) == Some(task.finishedAt)
            && ReadNullable(ReadFailure, j.Get(KFailure)) == Some(task.failure)
  {
    if task.failure.Some? { FailureJsonRoundTrips(task.failure.value); }
    hide StatusText, ReadFailure;
  }

  lemma TaskJsonRoundTrips(task: Task)
    requires task.lastEventId > 0
    ensures ReadTask(TaskJson(task)) == Some(task)
  {
    TextRoundTrips(task.status, TaskQueued);
    TaskMembers(task);
    TaskOptionalMembers(task);
    hide TaskJson, ReadNullable;
    assert ReadText(ParseStatus, JStr(StatusText(task.status))) == Some(task.status);
  }

  lemma PlanItemRoundTrips(item: PlanItem)
    ensures ReadPlanItem(PlanItemJson(item)) == Some(item)
  {
    PanelTextRoundTrips();
  }

  lemma PlanJsonRoundTrips(plan: PlanSnapshot)
    ensures ReadPlan(PlanJson(plan)) == Some(plan)
  {
    hide ReadPlanItem, PlanItemJson;
    forall i | 0 <= i < |plan.items| ensures ReadPlanItem(PlanItemJson(plan.items[i])) == Some(plan.items[i]) {
      PlanItemRoundTrips(plan.items[i]);
    }
    TraverseInverts(ReadPlanItem, PlanItemJson, plan.items);
  }

  lemma EntryJsonRoundTrips(entry: ActivityEntry)
    ensures ReadEntry(EntryJson(entry)) == Some(entry)
  {
    PanelTextRoundTrips();
  }

  lemma DiffFileRoundTrips(file: DiffFile)
    ensures ReadDiffFile(DiffFileJson(file)) == Some(file)
  {
    PanelTextRoundTrips();
  }

  lemma DiffJsonRoundTrips(diff: DiffSnapshot)
    ensures ReadDiff(DiffJson(diff)) == Some(diff)
  {
    hide ReadDiffFile, DiffFileJson;
    forall i | 0 <= i < |diff.files| ensures ReadDiffFile(DiffFileJson(diff.files[i])) == Some(diff.files[i]) {
      DiffFileRoundTrips(diff.files[i]);
    }
    TraverseInverts(ReadDiffFile, DiffFileJson, diff.files);
  }

  lemma TestCaseRoundTrips(test: TestCase)
    ensures ReadTestCase(TestCaseJson(test)) == Some(test)
  {
    PanelTextRoundTrips();
  }

  lemma TestsJsonRoundTrips(tests: TestSnapshot)
    ensures ReadTests(TestsJson(tests)) == Some(tests)
  {
    hide ReadTestCase, TestCaseJson;
    PanelTextRoundTrips();
    forall i | 0 <= i < |tests.cases| ensures ReadTestCase(TestCaseJson(tests.cases[i])) == Some(tests.cases[i]) {
      TestCaseRoundTrips(tests.cases[i]);
    }
    TraverseInverts(ReadTestCase, TestCaseJson, tests.cases);
  }

  lemma ChecksPass(j: Json, task: Task, taskId: TaskId, eventId: int)
    requires ReadTask(j) == Some(task) && TryFromStored(task) == Ok(task)
    requires task.id == taskId && task.lastEventId == eventId
    ensures PayloadFromValue(LifecycleKind(task.status), JObj(map[KTask := j]), taskId, eventId)
         == Ok(Lifecycle(task.status, task))
  {
    assert JObj(map[KTask := j]).Get(KTask) == j;
    assert LifecycleTask(JObj(map[KTask := j]), taskId, eventId, task.status) == Ok(task);
  }

  lemma PayloadRoundTrips(event: TaskEvent, row: Option<Task>)
    requires event.id > 0 && LegalNext(row, event)
    ensures PayloadFromValue(event.payload.Kind(), PayloadJson(event.payload), event.taskId, event.id) == Ok(event.payload)
  {
    hide ReadTask, TaskJson, ReadPlan, PlanJson, ReadEntry, EntryJson, ReadDiff, DiffJson, ReadTests, TestsJson;
    match event.payload
    case Lifecycle(next, task) =>
      TaskJsonRoundTrips(task);
      ChecksPass(TaskJson(task), task, event.taskId, event.id);
    case Plan(plan) => PlanJsonRoundTrips(plan);
    case Activity(entry) => EntryJsonRoundTrips(entry);
    case Diff(diff) => DiffJsonRoundTrips(diff);
    case Tests(tests) => TestsJsonRoundTrips(tests);
  }

  // Reading back what was written gives the event itself, with every check passed.
  lemma RecordRoundTrips(event: TaskEvent, row: Option<Task>)
    requires event.id > 0 && LegalNext(row, event)
    ensures EventFromRecord(ToRecord(event)) == Ok(event)
  {
    TextRoundTrips(Queued, event.payload.Kind());
    PayloadRoundTrips(event, row);
  }
}
