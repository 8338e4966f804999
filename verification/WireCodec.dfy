/** The frames the server puts on the wire and the client's decoder for them. */
module WireCodec {
  import opened Domain
  import opened EventLog
  import opened Codec
  import World

  // A parsed frame: its data is the JSON value, however it was spelled.
  datatype WireFrame = WireFrame(event: string, data: Option<Json>, id: Option<string>)

  datatype ProtocolCode = MalformedJson | MalformedEnvelope | UnsupportedSchema | EventKindMismatch | EventIdMismatch

  datatype Decoded =
    | Message(message: Json, persistedId: Option<nat>)
    | Diagnostic(kind: string, id: nat)
    | Reset(latestEventId: nat)

  // ----- numbers -----

  predicate IsSafeInteger(j: Json) {
    j.JNum? && -MAX_SAFE_INTEGER <= j.n <= MAX_SAFE_INTEGER
  }

  predicate IsPositive(j: Json) {
    IsSafeInteger(j) && j.n > 0
  }

  predicate IsNonNegative(j: Json) {
    IsSafeInteger(j) && j.n >= 0
  }

  function Digit(d: nat): char
    requires d < 10
  {
    ('0' as int + d) as char
  }

  predicate IsDigit(c: char) {
    '0' <= c <= '9'
  }

  function Decimal(n: nat): string {
    if n < 10 then [Digit(n)] else Decimal(n / 10) + [Digit(n % 10)]
  }

  function Number(s: string): nat
    requires forall i | 0 <= i < |s| :: IsDigit(s[i])
  {
    if s == [] then 0
    else
      assert IsDigit(s[|s| - 1]);
      10 * Number(s[..|s| - 1]) + (s[|s| - 1] as int - '0' as int)
  }

  // `parsePersistedId`: a digit string without leading zero, in the safe range.
  function ParsePersistedId(id: Option<string>): Option<nat> {
    if id.None? || id.value == "" || !('1' <= id.value[0] <= '9') then None
    else if exists i :: 0 <= i < |id.value| && !IsDigit(id.value[i]) then None
    else if Number(id.value) > MAX_SAFE_INTEGER then None
    else Some(Number(id.value))
  }

  lemma {:induction false} DecimalReadsBack(n: nat)
    ensures Decimal(n) != "" && (forall i | 0 <= i < |Decimal(n)| :: IsDigit(Decimal(n)[i]))
    ensures Number(Decimal(n)) == n && (n > 0 ==> '1' <= Decimal(n)[0] <= '9')
  {
    if n >= 10 {
      DecimalReadsBack(n / 10);
      var front := Decimal(n / 10);
      assert (front + [Digit(n % 10)])[..|front|] == front;
    } else {
      assert [Digit(n)][..0] == [];
    }
  }

  // ----- the server's frames -----

  function EventJson(event: TaskEvent): Json {
    JObj(map[KId := JNum(event.id), KSchemaVersion := JNum(event.schemaVersion), KTaskId := JUuid(event.taskId),
             KKind := JStr(KindText(event.payload.Kind())), KPayload := PayloadJson(event.payload),
             KCreatedAt := JTime(event.createdAt)])
  }

  function EventFrame(event: TaskEvent): WireFrame {
    WireFrame(KindText(event.payload.Kind()), Some(EventJson(event)), Some(Decimal(event.id)))
  }

  function ServiceText(state: World.ServiceState): string {
    match state case Ready => "ready" case StoreDegraded => "store_degraded" case Quiescing => "quiescing"
  }

  function ServiceFrame(service: World.Service): WireFrame {
    WireFrame("service.state",
              Some(JObj(map[KSchemaVersion := JNum(1), KKind := JStr("service.state"),
                            KState := JStr(ServiceText(service.state)), KGeneration := JNum(service.generation)])),
              None)
  }

  function ResetFrame(latestEventId: nat): WireFrame {
    WireFrame("stream.reset",
              Some(JObj(map[KSchemaVersion := JNum(1), KKind := JStr("stream.reset"), KLatestEventId := JNum(latestEventId)])),
              None)
  }

  // ----- the client's validators -----

  predicate IsText(j: Json, parsable: string -> bool) {
    j.JStr? && parsable(j.s)
  }

  predicate IsStatusText(s: string) { ParseStatus(s).Some? }
  predicate IsItemStatusText(s: string) { ParsePlanItemStatus(s).Some? }
  predicate IsLevelText(s: string) { ParseLevel(s).Some? }
  predicate IsFileStatusText(s: string) { ParseDiffStatus(s).Some? }
  predicate IsTestStatusText(s: string) { ParseTestStatus(s).Some? }

  predicate IsOptionalString(j: Json) {
    j.JNull? || j.IsString()
  }

  predicate IsTaskFailure(j: Json) {
    j.JObj? && j.Get(KCode).IsString() && j.Get(KMessage).IsString() && j.Get(KRetryable).JBool?
  }

  predicate IsTask(j: Json) {
    && j.JObj? && j.Get(KId).IsString() && j.Get(KRepositoryId).IsString() && j.Get(KClientRequestId).IsString()
    && j.Get(KPrompt).IsString() && IsText(j.Get(KStatus), IsStatusText)
    && IsNonNegative(j.Get(KAttempt)) && IsNonNegative(j.Get(KLastEventId)) && j.Get(KCreatedAt).IsString()
    && IsOptionalString(j.Get(KStartedAt)) && IsOptionalString(j.Get(KFinishedAt)) && IsOptionalString(j.Get(KRetryOf))
    && (j.Get(KFailure).JNull? || IsTaskFailure(j.Get(KFailure)))
  }

  predicate IsPlanItem(j: Json) {
    j.JObj? && j.Get(KId).IsString() && j.Get(KTitle).IsString() && IsText(j.Get(KStatus), IsItemStatusText)
  }

  predicate IsListOf(j: Json, valid: Json -> bool) {
    j.JArr? && All(valid, j.items)
  }

  predicate IsPlan(j: Json) {
    j.JObj? && IsNonNegative(j.Get(KRevision)) && IsListOf(j.Get(KItems), IsPlanItem)
  }

  predicate IsActivityEntry(j: Json) {
    j.JObj? && j.Get(KId).IsString() && j.Get(KCreatedAt).IsString() && j.Get(KMessage).IsString()
    && IsText(j.Get(KLevel), IsLevelText)
  }

  predicate IsDiffFile(j: Json) {
    j.JObj? && j.Get(KPath).IsString() && j.Get(KPatch).IsString() && IsNonNegative(j.Get(KAdditions))
    && IsNonNegative(j.Get(KDeletions)) && IsText(j.Get(KStatus), IsFileStatusText)
  }

  predicate IsDiff(j: Json) {
    j.JObj? && IsNonNegative(j.Get(KRevision)) && IsListOf(j.Get(KFiles), IsDiffFile)
  }

  predicate IsTestCase(j: Json) {
    j.JObj? && j.Get(KId).IsString() && j.Get(KName).IsString() && j.Get(KSummary).IsString()
    && IsNonNegative(j.Get(KDurationMs)) && IsText(j.Get(KStatus), IsTestStatusText)
  }

  predicate IsTests(j: Json) {
    j.JObj? && IsNonNegative(j.Get(KRevision)) && IsText(j.Get(KStatus), IsTestStatusText) && IsListOf(j.Get(KCases), IsTestCase)
  }

  predicate IsConsistentLifecycle(event: Json, expected: string) {
    var task := event.Get(KPayload).Get(KTask);
    && event.Get(KPayload).JObj? && IsTask(task)
    && task.Get(KId) == event.Get(KTaskId) && task.Get(KStatus) == JStr(expected) && task.Get(KLastEventId) == event.Get(KId)
  }

  predicate IsKnownEvent(event: Json, kind: EventKind) {
    && IsPositive(event.Get(KId)) && IsPositive(event.Get(KSchemaVersion)) && event.Get(KTaskId).IsString()
    && event.Get(KCreatedAt).IsString() && event.Get(KPayload).JObj?
    && match kind
       case TaskQueued => IsConsistentLifecycle(event, "queued")
       case TaskStarted => IsConsistentLifecycle(event, "running")
       case TaskCompleted => IsConsistentLifecycle(event, "completed")
       case TaskFailed => IsConsistentLifecycle(event, "failed")
       case TaskCancelled => IsConsistentLifecycle(event, "cancelled")
       case TaskInterrupted => IsConsistentLifecycle(event, "interrupted")
       case PlanUpdated => IsPlan(event.Get(KPayload).Get(KPlan))
       case ActivityAppended => IsActivityEntry(event.Get(KPayload).Get(KEntry))
       case DiffUpdated => IsDiff(event.Get(KPayload).Get(KDiff))
       case TestUpdated => IsTests(event.Get(KPayload).Get(KTests))
  }

  function DecodePersisted(frame: WireFrame, value: Json, kind: string): Result<Decoded, ProtocolCode> {
    match ParsePersistedId(frame.id)
    case None => Err(MalformedEnvelope)
    case Some(frameId) =>
      if !IsPositive(value.Get(KId)) then Err(MalformedEnvelope)
      else if value.Get(KId).n != frameId then Err(ProtocolCode.EventIdMismatch)
      else
        match ParseKind(kind)
        case None => Ok(Diagnostic(kind, frameId))
        case Some(known) =>
          // A timestamp or id the server wrote is never the empty string.
          if !value.Get(KTaskId).IsString() || value.Get(KTaskId) == JStr("") || !value.Get(KCreatedAt).IsString()
             || !IsKnownEvent(value, known)
          then Err(MalformedEnvelope)
          else Ok(Message(value, Some(frameId)))
  }

  // `decodeFrame`
  function DecodeFrame(frame: WireFrame, schemaVersion: nat): Result<Decoded, ProtocolCode> {
    match frame.data
    case None => Err(MalformedJson)
    case Some(value) =>
      if !value.JObj? || !IsPositive(value.Get(KSchemaVersion)) then Err(MalformedEnvelope)
      else if value.Get(KSchemaVersion).n != schemaVersion then Err(UnsupportedSchema)
      else if !value.Get(KKind).JStr? || value.Get(KKind).s == "" then Err(MalformedEnvelope)
      else if frame.event != value.Get(KKind).s then Err(EventKindMismatch)
      else if value.Get(KKind).s == "stream.reset" then
        if frame.id.Some? || !IsNonNegative(value.Get(KLatestEventId)) then Err(MalformedEnvelope)
        else Ok(Reset(value.Get(KLatestEventId).n))
      else if value.Get(KKind).s == "service.state" then
        if frame.id.Some? || !IsNonNegative(value.Get(KGeneration)) || !IsText(value.Get(KState), IsServiceText)
        then Err(MalformedEnvelope) else Ok(Message(value, None))
      else DecodePersisted(frame, value, value.Get(KKind).s)
  }

  predicate IsServiceText(s: string) {
    s == "ready" || s == "store_degraded" || s == "quiescing"
  }

  // What the decoder guarantees about whatever it lets through.
  lemma DecodedIsChecked(frame: WireFrame, schemaVersion: nat)
    requires DecodeFrame(frame, schemaVersion).Ok?
    ensures frame.data.Some? && frame.data.value.Get(KSchemaVersion) == JNum(schemaVersion)
    ensures match DecodeFrame(frame, schemaVersion).value
            case Message(message, Some(id)) => message.Get(KId) == JNum(id) && 0 < id <= MAX_SAFE_INTEGER && ParseKind(frame.event).Some?
            case Message(message, None) => frame.event == "service.state"
            case Diagnostic(kind, id) => frame.event == kind && ParseKind(kind).None? && 0 < id <= MAX_SAFE_INTEGER
            case Reset(_) => frame.event == "stream.reset"
  {
  }

  // ----- which of the server's frames the client accepts -----

  predicate IsSafe(n: nat) {
    n <= MAX_SAFE_INTEGER
  }

  // Every counter inside a panel snapshot fits the client's numbers.
  predicate CountersAreSafe(payload: Payload) {
    match payload
    case Lifecycle(_, _) => true
    case Plan(plan) => IsSafe(plan.revision)
    case Activity(_) => true
    case Diff(diff) =>
      IsSafe(diff.revision) && forall i | 0 <= i < |diff.files| :: IsSafe(diff.files[i].additions) && IsSafe(diff.files[i].deletions)
    case Tests(tests) => IsSafe(tests.revision) && forall i | 0 <= i < |tests.cases| :: IsSafe(tests.cases[i].durationMs)
  }

  lemma AllMapped<A>(valid: Json -> bool, encode: A -> Json, xs: seq<A>)
    ensures All(valid, Map(encode, xs)) <==> forall i | 0 <= i < |xs| :: valid(encode(xs[i]))
  {
    var ys := Map(encode, xs);
    assert forall i | 0 <= i < |xs| :: ys[i] == encode(xs[i]);
  }

  lemma PlanAccepted(plan: PlanSnapshot)
    ensures IsPlan(PlanJson(plan)) <==> IsSafe(plan.revision)
  {
    PanelTextRoundTrips();
    AllMapped(IsPlanItem, PlanItemJson, plan.items);
    forall i | 0 <= i < |plan.items| ensures IsPlanItem(PlanItemJson(plan.items[i])) { PlanItemAccepted(plan.items[i]); }
    hide PlanItemJson, IsPlanItem, ParsePlanItemStatus;
  }

  lemma PlanItemAccepted(item: PlanItem)
    ensures IsPlanItem(PlanItemJson(item))
  {
    PanelTextRoundTrips();
  }

  lemma EntryAccepted(entry: ActivityEntry)
    ensures IsActivityEntry(EntryJson(entry))
  {
    PanelTextRoundTrips();
  }

  lemma DiffFileAccepted(file: DiffFile)
    ensures IsDiffFile(DiffFileJson(file)) <==> IsSafe(file.additions) && IsSafe(file.deletions)
  {
    PanelTextRoundTrips();
  }

  lemma DiffAccepted(diff: DiffSnapshot)
    ensures IsDiff(DiffJson(diff)) <==>
            IsSafe(diff.revision) && forall i | 0 <= i < |diff.files| :: IsSafe(diff.files[i].additions) && IsSafe(diff.files[i].deletions)
  {
    hide DiffFileJson, IsDiffFile, IsSafe;
    AllMapped(IsDiffFile, DiffFileJson, diff.files);
    forall i | 0 <= i < |diff.files|
      ensures IsDiffFile(DiffFileJson(diff.files[i])) <==> IsSafe(diff.files[i].additions) && IsSafe(diff.files[i].deletions)
    {
      DiffFileAccepted(diff.files[i]);
    }
    SafeCounter(diff.revision);
  }

  lemma SafeCounter(n: nat)
    ensures IsNonNegative(JNum(n)) <==> IsSafe(n)
  {
  }

  lemma TestCaseAccepted(test: TestCase)
    ensures IsTestCase(TestCaseJson(test)) <==> IsSafe(test.durationMs)
  {
    PanelTextRoundTrips();
  }

  lemma TestsAccepted(tests: TestSnapshot)
    ensures IsTests(TestsJson(tests)) <==>
            IsSafe(tests.revision) && forall i | 0 <= i < |tests.cases| :: IsSafe(tests.cases[i].durationMs)
  {
    hide TestCaseJson, IsTestCase, IsSafe;
    PanelTextRoundTrips();
    AllMapped(IsTestCase, TestCaseJson, tests.cases);
    forall i | 0 <= i < |tests.cases| ensures IsTestCase(TestCaseJson(tests.cases[i])) <==> IsSafe(tests.cases[i].durationMs) {
      TestCaseAccepted(tests.cases[i]);
    }
    SafeCounter(tests.revision);
  }

  lemma TaskAccepted(task: Task)
    requires task.lastEventId > 0
    ensures IsTask(TaskJson(task)) <==> IsSafe(task.lastEventId)
  {
    TextRoundTrips(task.status, TaskQueued);
    TaskMembers(task);
    TaskOptionalsAccepted(task);
    hide TaskJson, StatusText, ParseStatus;
  }

  lemma TaskOptionalsAccepted(task: Task)
    ensures var j := TaskJson(task);
            && IsOptionalString(j.Get(KStartedAt)) && IsOptionalString(j.Get(KFinishedAt)) && IsOptionalString(j.Get(KRetryOf))
            && (j.Get(KFailure).JNull? || IsTaskFailure(j.Get(KFailure)))
  {
    hide StatusText;
  }

  lemma EventMembers(event: TaskEvent)
    ensures var j := EventJson(event);
            && j.JObj? && j.Get(KId) == JNum(event.id) && j.Get(KSchemaVersion) == JNum(event.schemaVersion)
            && j.Get(KTaskId) == JUuid(event.taskId) && j.Get(KKind) == JStr(KindText(event.payload.Kind()))
            && j.Get(KPayload) == PayloadJson(event.payload) && j.Get(KCreatedAt) == JTime(event.createdAt)
  {
    hide KindText, PayloadJson;
  }

  lemma KindTexts(kind: EventKind)
    ensures KindText(kind) != "" && KindText(kind) != "stream.reset" && KindText(kind) != "service.state"
    ensures ParseKind(KindText(kind)) == Some(kind)
  {
    TextRoundTrips(Queued, kind);
    assert "stream.reset"[1] == 't' && "service.state"[0] == 's' && "stream.reset"[0] == 's';
    match kind
    case TaskQueued => assert KindText(kind)[0] == 't';
    case TaskStarted => assert KindText(kind)[0] == 't';
    case TaskCompleted => assert KindText(kind)[0] == 't';
    case TaskFailed => assert KindText(kind)[0] == 't';
    case TaskCancelled => assert KindText(kind)[0] == 't';
    case TaskInterrupted => assert KindText(kind)[0] == 't';
    case PlanUpdated => assert KindText(kind)[0] == 'p';
    case ActivityAppended => assert KindText(kind)[0] == 'a';
    case DiffUpdated => assert KindText(kind)[0] == 'd';
    case TestUpdated => assert KindText(kind)[0] == 't';
  }

  lemma PayloadAccepted(event: TaskEvent, row: Option<Task>)
    requires event.id > 0 && LegalNext(row, event) && IsSafe(event.id)
    ensures IsKnownEvent(EventJson(event), event.payload.Kind()) <==> CountersAreSafe(event.payload)
  {
    hide EventJson, TaskJson, PlanJson, EntryJson, DiffJson, TestsJson, IsTask, IsPlan, IsActivityEntry, IsDiff, IsTests;
    EventMembers(event);
    match event.payload
    case Lifecycle(_, task) =>
      TaskAccepted(task);
      TaskMembers(task);
      LifecycleAccepted(event);
    case Plan(plan) => PlanAccepted(plan);
    case Activity(entry) => EntryAccepted(entry);
    case Diff(diff) => DiffAccepted(diff);
    case Tests(tests) => TestsAccepted(tests);
  }

  lemma LifecycleAccepted(event: TaskEvent)
    requires event.payload.Lifecycle? && event.id > 0
    requires var task := event.payload.task;
             && task.id == event.taskId && task.lastEventId == event.id && task.status == event.payload.next && IsTask(TaskJson(task))
    ensures IsConsistentLifecycle(EventJson(event), StatusText(event.payload.next))
  {
    hide IsTask, TaskJson, EventJson, StatusText;
    EventMembers(event);
    TaskMembers(event.payload.task);
    assert PayloadJson(event.payload).Get(KTask) == TaskJson(event.payload.task);
  }

  // The client accepts an event's frame as a message with that id if and only if its id and
  // counters fit into 53 bits; otherwise it is a malformed envelope.
  lemma FrameAccepted(event: TaskEvent, row: Option<Task>)
    requires event.id > 0 && LegalNext(row, event)
    ensures IsSafe(event.id) && CountersAreSafe(event.payload) <==>
            DecodeFrame(EventFrame(event), 1) == Ok(Message(EventJson(event), Some(event.id)))
    ensures !(IsSafe(event.id) && CountersAreSafe(event.payload)) ==> DecodeFrame(EventFrame(event), 1) == Err(MalformedEnvelope)
  {
    hide EventJson, IsKnownEvent, KindText, ParseKind, Decimal, Number, LegalNext, CountersAreSafe;
    assert event.schemaVersion == 1 by { SchemaIsOne(event, row); }
    EventMembers(event);
    KindTexts(event.payload.Kind());
    DecimalReadsBack(event.id);
    if IsSafe(event.id) { PayloadAccepted(event, row); }
  }

  lemma SchemaIsOne(event: TaskEvent, row: Option<Task>)
    requires LegalNext(row, event)
    ensures event.schemaVersion == 1
  {
  }

  // From the store to the browser: every event of a reachable log reads back as it was
  // written, and if its numbers fit, its frame is accepted.
  lemma LogIsAccepted(log: seq<TaskEvent>, n: nat)
    requires WellFormed(log) && n < |log|
    ensures EventFromRecord(ToRecord(log[n])) == Ok(log[n])
    ensures IsSafe(log[n].id) && CountersAreSafe(log[n].payload) <==>
            DecodeFrame(EventFrame(log[n]), 1) == Ok(Message(EventJson(log[n]), Some(log[n].id)))
    ensures PayloadFromValue(log[n].payload.Kind(), EventJson(log[n]).Get(KPayload), log[n].taskId, log[n].id) == Ok(log[n].payload)
  {
    hide PayloadFromValue, PayloadJson;
    EventMembers(log[n]);
    PayloadRoundTrips(log[n], Row(log[..n], log[n].taskId));
    hide EventFromRecord, DecodeFrame, EventJson, CountersAreSafe, LegalNext;
    RecordRoundTrips(log[n], Row(log[..n], log[n].taskId));
    FrameAccepted(log[n], Row(log[..n], log[n].taskId));
  }

  lemma ControlFramesAccepted(service: World.Service, latestEventId: nat)
    ensures DecodeFrame(ServiceFrame(service), 1).Ok? <==> IsSafe(service.generation)
    ensures IsSafe(latestEventId) ==> DecodeFrame(ResetFrame(latestEventId), 1) == Ok(Reset(latestEventId))
  {
    assert "stream.reset"[1] == 't' && "service.state"[1] == 'e';
  }
}
