/**
 * The client's validators and the server's reader were written apart, in two languages, and
 * decide about the same JSON. What one lets through, the other reads.
 */
module WireLaws {
  import opened Domain
  import opened EventLog
  import opened Codec
  import opened WireCodec
  import opened History
  import World

  // A text member holds a text, an id member an id, a time member a time: the validators see
  // strings only and cannot tell these apart.
  ghost predicate Plain(j: Json) { j.IsString() ==> j.JStr? }
  ghost predicate Identifier(j: Json) { j.IsString() ==> j.JUuid? }
  ghost predicate Instant(j: Json) { j.IsString() ==> j.JTime? }

  ghost predicate ItemSpelled(j: Json) { Plain(j.Get(KId)) && Plain(j.Get(KTitle)) }

  ghost predicate FileSpelled(j: Json) { Plain(j.Get(KPath)) && Plain(j.Get(KPatch)) }

  ghost predicate CaseSpelled(j: Json) { Plain(j.Get(KId)) && Plain(j.Get(KName)) && Plain(j.Get(KSummary)) }

  ghost predicate EntrySpelled(j: Json) { Plain(j.Get(KId)) && Plain(j.Get(KMessage)) && Instant(j.Get(KCreatedAt)) }

  ghost predicate FailureSpelled(j: Json) { Plain(j.Get(KCode)) && Plain(j.Get(KMessage)) }

  // The server counts attempts in 32 bits.
  ghost predicate TaskSpelled(j: Json) {
    && Identifier(j.Get(KId)) && Identifier(j.Get(KRepositoryId)) && Identifier(j.Get(KClientRequestId))
    && Identifier(j.Get(KRetryOf)) && Plain(j.Get(KPrompt)) && Instant(j.Get(KCreatedAt))
    && Instant(j.Get(KStartedAt)) && Instant(j.Get(KFinishedAt)) && FailureSpelled(j.Get(KFailure))
    && (j.Get(KAttempt).JNum? ==> j.Get(KAttempt).n < 0x1_0000_0000)
  }

  ghost predicate ListSpelled(j: Json, spelled: Json -> bool) {
    j.JArr? ==> forall i | 0 <= i < |j.items| :: spelled(j.items[i])
  }

  ghost predicate PayloadSpelled(kind: EventKind, payload: Json) {
    match kind
    case PlanUpdated => ListSpelled(payload.Get(KPlan).Get(KItems), j => ItemSpelled(j))
    case ActivityAppended => EntrySpelled(payload.Get(KEntry))
    case DiffUpdated => ListSpelled(payload.Get(KDiff).Get(KFiles), j => FileSpelled(j))
    case TestUpdated => ListSpelled(payload.Get(KTests).Get(KCases), j => CaseSpelled(j))
    case _ => TaskSpelled(payload.Get(KTask))
  }

  // ----- lists -----

  lemma {:induction false} TraverseReads<A, B>(read: A -> Option<B>, xs: seq<A>)
    ensures Traverse(read, xs).Some? <==> forall i | 0 <= i < |xs| :: read(xs[i]).Some?
    ensures Traverse(read, xs).Some? ==>
              |Traverse(read, xs).value| == |xs| && forall i | 0 <= i < |xs| :: read(xs[i]) == Some(Traverse(read, xs).value[i])
  {
    if xs != [] {
      TraverseReads(read, xs[1..]);
      assert xs == [xs[0]] + xs[1..];
    }
  }

  // ----- the snapshots of the panels -----

  lemma ItemAgrees(j: Json)
    requires ItemSpelled(j)
    ensures IsPlanItem(j) <==> ReadPlanItem(j).Some?
  {
  }

  lemma FileAgrees(j: Json)
    requires FileSpelled(j)
    ensures IsDiffFile(j) <==> ReadDiffFile(j).Some? && IsSafe(ReadDiffFile(j).value.additions) && IsSafe(ReadDiffFile(j).value.deletions)
  {
  }

  lemma CaseAgrees(j: Json)
    requires CaseSpelled(j)
    ensures IsTestCase(j) <==> ReadTestCase(j).Some? && IsSafe(ReadTestCase(j).value.durationMs)
  {
  }

  lemma EntryAgrees(j: Json)
    requires EntrySpelled(j)
    ensures IsActivityEntry(j) <==> ReadEntry(j).Some?
    ensures ReadEntry(j).Some? ==> j.JObj?
  {
  }

  lemma CounterAgrees(j: Json)
    ensures IsNonNegative(j) <==> ReadU64(j).Some? && IsSafe(ReadU64(j).value)
  {
  }

  lemma PlanAgrees(j: Json)
    requires ListSpelled(j.Get(KItems), j => ItemSpelled(j))
    ensures IsPlan(j) <==> ReadPlan(j).Some? && CountersAreSafe(Plan(ReadPlan(j).value))
    ensures ReadPlan(j).Some? ==> j.JObj?
  {
    hide IsPlanItem, ReadPlanItem, IsNonNegative, ReadU64, IsSafe, ItemSpelled;
    CounterAgrees(j.Get(KRevision));
    var list := j.Get(KItems);
    if list.JArr? {
      TraverseReads(ReadPlanItem, list.items);
      forall i | 0 <= i < |list.items| ensures IsPlanItem(list.items[i]) <==> ReadPlanItem(list.items[i]).Some?
      {
        ItemAgrees(list.items[i]);
      }
    }
  }

  lemma DiffAgrees(j: Json)
    requires ListSpelled(j.Get(KFiles), j => FileSpelled(j))
    ensures IsDiff(j) <==> ReadDiff(j).Some? && CountersAreSafe(Diff(ReadDiff(j).value))
    ensures ReadDiff(j).Some? ==> j.JObj?
  {
    hide IsDiffFile, ReadDiffFile, IsNonNegative, ReadU64, IsSafe, FileSpelled;
    CounterAgrees(j.Get(KRevision));
    var list := j.Get(KFiles);
    if list.JArr? {
      TraverseReads(ReadDiffFile, list.items);
      forall i | 0 <= i < |list.items|
        ensures var read := ReadDiffFile(list.items[i]);
                IsDiffFile(list.items[i]) <==> read.Some? && IsSafe(read.value.additions) && IsSafe(read.value.deletions)
      {
        FileAgrees(list.items[i]);
      }
    }
  }

  lemma TestsAgree(j: Json)
    requires ListSpelled(j.Get(KCases), j => CaseSpelled(j))
    ensures IsTests(j) <==> ReadTests(j).Some? && CountersAreSafe(Tests(ReadTests(j).value))
    ensures ReadTests(j).Some? ==> j.JObj?
  {
    hide IsTestCase, ReadTestCase, IsNonNegative, ReadU64, IsSafe, CaseSpelled, ParseTestStatus;
    CounterAgrees(j.Get(KRevision));
    var list := j.Get(KCases);
    if list.JArr? {
      TraverseReads(ReadTestCase, list.items);
      forall i | 0 <= i < |list.items|
        ensures var read := ReadTestCase(list.items[i]);
                IsTestCase(list.items[i]) <==> read.Some? && IsSafe(read.value.durationMs)
      {
        CaseAgrees(list.items[i]);
      }
    }
  }

  // ----- a task row -----

  lemma FailureAgrees(j: Json)
    requires FailureSpelled(j)
    ensures j.JNull? || IsTaskFailure(j) <==> ReadNullable(ReadFailure, j).Some?
  {
  }

  lemma OptionalAgrees(j: Json)
    ensures Instant(j) ==> (IsOptionalString(j) <==> ReadNullable(ReadTime, j).Some?)
    ensures Identifier(j) ==> (IsOptionalString(j) <==> ReadNullable(ReadUuid, j).Some?)
  {
  }

  lemma TaskAgrees(j: Json)
    requires TaskSpelled(j)
    ensures IsTask(j) && j.Get(KLastEventId) != JNum(0) <==> ReadTask(j).Some? && IsSafe(ReadTask(j).value.lastEventId)
    ensures ReadTask(j).Some? ==>
              && j.Get(KId) == JUuid(ReadTask(j).value.id) && j.Get(KLastEventId) == JNum(ReadTask(j).value.lastEventId)
              && j.Get(KStatus) == JStr(StatusText(ReadTask(j).value.status))
  {
    FailureAgrees(j.Get(KFailure));
    OptionalAgrees(j.Get(KStartedAt));
    OptionalAgrees(j.Get(KFinishedAt));
    OptionalAgrees(j.Get(KRetryOf));
    if j.Get(KStatus).JStr? { StatusParses(j.Get(KStatus).s); }
    hide IsTaskFailure, IsOptionalString, ReadNullable, ReadFailure, ParseStatus, StatusText, FailureSpelled;
  }

  lemma StatusParses(s: string)
    ensures ParseStatus(s).Some? ==> StatusText(ParseStatus(s).value) == s
  {
  }

  // ----- an event -----

  // What the two sides see of one event: the record the server stored, and its envelope.
  ghost predicate Envelops(value: Json, record: EventRecord) {
    && value.JObj? && value.Get(KId) == JNum(record.id) && value.Get(KSchemaVersion) == JNum(record.schemaVersion)
    && value.Get(KTaskId) == JUuid(record.taskId) && value.Get(KKind) == JStr(record.kind)
    && value.Get(KPayload) == record.payload && value.Get(KCreatedAt) == JTime(record.createdAt)
  }

  // The reader has rules of its own about attempts and time stamps, which the validators lack.
  predicate IsDomainViolation(read: Result<TaskEvent, ReadError>) {
    read.Err? && read.error.DomainViolation?
  }

  lemma LifecycleAgrees(value: Json, record: EventRecord, status: TaskStatus)
    requires Envelops(value, record) && record.id > 0 && IsSafe(record.id) && TaskSpelled(record.payload.Get(KTask))
    ensures var read := LifecyclePayload(record.payload, record.taskId, record.id, status);
            && (IsConsistentLifecycle(value, StatusText(status)) ==> read.Ok? || read.error.DomainViolation?)
            && (read.Ok? ==> record.payload.JObj? && IsConsistentLifecycle(value, StatusText(status)) && CountersAreSafe(read.value))
  {
    var task := record.payload.Get(KTask);
    TaskAgrees(task);
    hide IsTask, ReadTask, TaskSpelled, TryFromStored, StatusText;
    if ReadTask(task).Some? { StatusTextsDiffer(ReadTask(task).value.status, status); }
  }

  lemma StatusTextsDiffer(a: TaskStatus, b: TaskStatus)
    ensures StatusText(a) == StatusText(b) <==> a == b
  {
    TextRoundTrips(a, TaskQueued);
    TextRoundTrips(b, TaskQueued);
  }

  lemma LifecycleIsKnown(value: Json, status: TaskStatus)
    ensures IsKnownEvent(value, LifecycleKind(status)) <==>
            && IsPositive(value.Get(KId)) && IsPositive(value.Get(KSchemaVersion)) && value.Get(KTaskId).IsString()
            && value.Get(KCreatedAt).IsString() && value.Get(KPayload).JObj? && IsConsistentLifecycle(value, StatusText(status))
    ensures forall payload, t, id :: PayloadFromValue(LifecycleKind(status), payload, t, id) == LifecyclePayload(payload, t, id, status)
  {
    hide IsConsistentLifecycle, LifecyclePayload;
  }

  lemma PayloadAgrees(value: Json, record: EventRecord, kind: EventKind)
    requires Envelops(value, record) && record.schemaVersion == 1 && record.id > 0 && IsSafe(record.id)
    requires PayloadSpelled(kind, record.payload)
    ensures var read := PayloadFromValue(kind, record.payload, record.taskId, record.id);
            && (IsKnownEvent(value, kind) ==> (read.Ok? && CountersAreSafe(read.value)) || (read.Err? && read.error.DomainViolation?))
            && (read.Ok? && CountersAreSafe(read.value) ==> IsKnownEvent(value, kind))
  {
    hide IsPlan, ReadPlan, IsActivityEntry, ReadEntry, IsDiff, ReadDiff, IsTests, ReadTests, IsConsistentLifecycle;
    hide LifecyclePayload, StatusText, ListSpelled, EntrySpelled, TaskSpelled;
    match kind {
      case PlanUpdated => PlanAgrees(record.payload.Get(KPlan));
      case ActivityAppended => EntryAgrees(record.payload.Get(KEntry));
      case DiffUpdated => DiffAgrees(record.payload.Get(KDiff));
      case TestUpdated => TestsAgree(record.payload.Get(KTests));
      case _ =>
        var status := StatusOf(kind);
        LifecycleIsKnown(value, status);
        LifecycleAgrees(value, record, status);
    }
  }

  ghost function StatusOf(kind: EventKind): (status: TaskStatus)
    requires !IsPanel(kind)
    ensures LifecycleKind(status) == kind
  {
    match kind
    case TaskQueued => Queued
    case TaskStarted => Running
    case TaskCompleted => Completed
    case TaskFailed => TaskStatus.Failed
    case TaskCancelled => Cancelled
    case TaskInterrupted => Interrupted
  }

  // Whatever record the reader accepts becomes the event of its own columns; a lifecycle event
  // carries its own task's row, at its own id and status, with time stamps that fit the status.
  lemma ReadEventIsItsRecord(record: EventRecord)
    requires EventFromRecord(record).Ok?
    ensures var event := EventFromRecord(record).value;
            && event.id == record.id > 0 && event.schemaVersion == record.schemaVersion == 1
            && event.taskId == record.taskId && event.createdAt == record.createdAt
            && KindText(event.payload.Kind()) == record.kind
    ensures match EventFromRecord(record).value.payload
            case Lifecycle(next, task) =>
              && task.id == record.taskId && task.lastEventId == record.id && task.status == next && task.attempt > 0
              && (task.startedAt.Some? <== next in {Running, Completed, TaskStatus.Failed})
              && (task.startedAt.None? <== next == Queued)
              && (task.finishedAt.Some? <==> next !in {Queued, Running})
              && (task.failure.Some? <==> next in {TaskStatus.Failed, Interrupted})
            case _ => true
  {
    KindIsOfTheEvent(record.kind);
    hide ParseKind, KindText, ReadTask, ReadPlan, ReadEntry, ReadDiff, ReadTests;
  }

  lemma KindIsOfTheEvent(kind: string)
    ensures ParseKind(kind).Some? ==>
              kind == KindText(ParseKind(kind).value) && kind != "" && kind != "stream.reset" && kind != "service.state"
  {
    if ParseKind(kind).Some? {
      var known := ParseKind(kind).value;
      assert kind == KindText(known);
      KindTexts(known);
    }
  }

  // What the client lets through as a known event, the server's reader reads, with counters in
  // range, or refuses for the task's attempt or time stamps. What the reader reads, the client
  // lets through if and only if the id and the counters are in range.
  lemma ClientAgreesWithReader(frame: WireFrame, record: EventRecord)
    requires frame.data.Some? && Envelops(frame.data.value, record) && frame.event == record.kind
    requires record.id > 0 ==> frame.id == Some(Decimal(record.id))
    requires ParseKind(record.kind).Some? ==> PayloadSpelled(ParseKind(record.kind).value, record.payload)
    ensures var read := EventFromRecord(record);
            && (record.id > 0 && DecodeFrame(frame, 1) == Ok(Message(frame.data.value, Some(record.id))) ==>
                  (read.Ok? && CountersAreSafe(read.value.payload)) || IsDomainViolation(read))
            && (read.Ok? && IsSafe(record.id) && CountersAreSafe(read.value.payload) ==>
                  DecodeFrame(frame, 1) == Ok(Message(frame.data.value, Some(record.id))))
            && (read.Ok? && !(IsSafe(record.id) && CountersAreSafe(read.value.payload)) ==>
                  DecodeFrame(frame, 1) == Err(MalformedEnvelope))
  {
    KindIsOfTheEvent(record.kind);
    hide ParseKind, KindText, IsKnownEvent, PayloadFromValue, CountersAreSafe, PayloadSpelled, Decimal, Number;
    if record.id > 0 {
      DecimalReadsBack(record.id);
      if ParseKind(record.kind).Some? && IsSafe(record.id) && record.schemaVersion == 1 {
        PayloadAgrees(frame.data.value, record, ParseKind(record.kind).value);
      }
    }
  }

  // ----- the frames without an id -----

  // Apart from further members, the frame is `model` in schema version `schemaVersion`.
  ghost predicate Carries(frame: WireFrame, model: WireFrame, schemaVersion: nat) {
    && frame.event == model.event && frame.id == model.id && frame.data.Some? && model.data.Some?
    && frame.data.value.JObj? && model.data.value.JObj?
    && frame.data.value.Get(KSchemaVersion) == JNum(schemaVersion)
    && forall key | key in model.data.value.fields && key != KSchemaVersion :: frame.data.value.Get(key) == model.data.value.Get(key)
  }

  lemma ResetMembers(latestEventId: nat)
    ensures var model := ResetFrame(latestEventId);
            && model.event == "stream.reset" && model.id == None && model.data.Some? && model.data.value.JObj?
            && model.data.value.fields.Keys == {KSchemaVersion, KKind, KLatestEventId}
            && model.data.value.Get(KKind) == JStr("stream.reset") && model.data.value.Get(KLatestEventId) == JNum(latestEventId)
  {
  }

  lemma ServiceMembers(service: World.Service)
    ensures var model := ServiceFrame(service);
            && model.event == "service.state" && model.id == None && model.data.Some? && model.data.value.JObj?
            && model.data.value.fields.Keys == {KSchemaVersion, KKind, KState, KGeneration}
            && model.data.value.Get(KKind) == JStr("service.state") && model.data.value.Get(KGeneration) == JNum(service.generation)
            && model.data.value.Get(KState) == JStr(ServiceText(service.state))
  {
    hide ServiceText;
  }

  lemma KindsDiffer()
    ensures "stream.reset" != "service.state" && "stream.reset" != "" && "service.state" != ""
  {
    assert "stream.reset"[1] == 't' && "service.state"[1] == 'e';
  }

  // Anything else the decoder lets through has an id.
  lemma PersistedHasId(frame: WireFrame, value: Json, kind: string)
    requires DecodePersisted(frame, value, kind).Ok?
    ensures match DecodePersisted(frame, value, kind).value
            case Message(_, id) => id.Some?
            case Diagnostic(_, _) => true
            case Reset(_) => false
  {
    hide IsKnownEvent, ParseKind, ParsePersistedId;
  }

  lemma ResetIsRead(frame: WireFrame, schemaVersion: nat, latestEventId: nat)
    requires 0 < schemaVersion <= MAX_SAFE_INTEGER
    ensures DecodeFrame(frame, schemaVersion) == Ok(Decoded.Reset(latestEventId)) <==>
            IsSafe(latestEventId) && Carries(frame, ResetFrame(latestEventId), schemaVersion)
  {
    hide DecodePersisted, ResetFrame;
    ResetMembers(latestEventId);
    KindsDiffer();
    if frame.data.Some? && frame.data.value.Get(KKind).JStr? {
      var kind := frame.data.value.Get(KKind).s;
      if DecodePersisted(frame, frame.data.value, kind).Ok? { PersistedHasId(frame, frame.data.value, kind); }
    }
  }

  lemma ServiceIsRead(frame: WireFrame, schemaVersion: nat)
    requires 0 < schemaVersion <= MAX_SAFE_INTEGER
    ensures (exists value :: DecodeFrame(frame, schemaVersion) == Ok(Message(value, None))) <==>
            exists service: World.Service :: IsSafe(service.generation) && Carries(frame, ServiceFrame(service), schemaVersion)
  {
    hide DecodeFrame, Carries, ServiceFrame, IsSafe;
    if value :| DecodeFrame(frame, schemaVersion) == Ok(Message(value, None)) {
      ServiceRead(frame, schemaVersion);
    }
    if service: World.Service :| IsSafe(service.generation) && Carries(frame, ServiceFrame(service), schemaVersion) {
      ServiceCarried(frame, schemaVersion, service);
    }
  }

  lemma ServiceTexts(text: string)
    requires IsServiceText(text)
    ensures exists state :: ServiceText(state) == text
  {
    assert ServiceText(World.Ready) == "ready" && ServiceText(World.StoreDegraded) == "store_degraded"
        && ServiceText(World.Quiescing) == "quiescing";
  }

  lemma ServiceTextIsOne(state: World.ServiceState)
    ensures IsServiceText(ServiceText(state))
  {
  }

  lemma ServiceCarried(frame: WireFrame, schemaVersion: nat, service: World.Service)
    requires 0 < schemaVersion <= MAX_SAFE_INTEGER && IsSafe(service.generation)
    requires Carries(frame, ServiceFrame(service), schemaVersion)
    ensures DecodeFrame(frame, schemaVersion) == Ok(Message(frame.data.value, None))
  {
    hide DecodePersisted, ServiceFrame, ServiceText, IsServiceText;
    ServiceMembers(service);
    ServiceTextIsOne(service.state);
    KindsDiffer();
  }

  lemma ServiceRead(frame: WireFrame, schemaVersion: nat)
    requires DecodeFrame(frame, schemaVersion).Ok? && DecodeFrame(frame, schemaVersion).value.Message?
    requires DecodeFrame(frame, schemaVersion).value.persistedId.None?
    ensures exists service: World.Service :: IsSafe(service.generation) && Carries(frame, ServiceFrame(service), schemaVersion)
  {
    hide ServiceFrame, ServiceText, IsServiceText, Carries;
    ServiceChecks(frame, schemaVersion);
    var value := frame.data.value;
    ServiceTexts(value.Get(KState).s);
    var state :| ServiceText(state) == value.Get(KState).s;
    var service := World.Service(state, value.Get(KGeneration).n);
    CarriesService(frame, service, schemaVersion);
    assert IsSafe(service.generation);
  }

  lemma ServiceChecks(frame: WireFrame, schemaVersion: nat)
    requires DecodeFrame(frame, schemaVersion).Ok? && DecodeFrame(frame, schemaVersion).value.Message?
    requires DecodeFrame(frame, schemaVersion).value.persistedId.None?
    ensures frame.data.Some? && frame.data.value.JObj? && frame.id.None? && frame.event == "service.state"
    ensures var value := frame.data.value;
            && value.Get(KKind) == JStr("service.state") && value.Get(KSchemaVersion) == JNum(schemaVersion)
            && value.Get(KGeneration).JNum? && 0 <= value.Get(KGeneration).n <= MAX_SAFE_INTEGER
            && value.Get(KState).JStr? && IsServiceText(value.Get(KState).s)
  {
    hide DecodePersisted, IsServiceText;
    var value := frame.data.value;
    var kind := value.Get(KKind).s;
    if DecodePersisted(frame, value, kind).Ok? { PersistedHasId(frame, value, kind); }
    KindsDiffer();
  }

  lemma CarriesService(frame: WireFrame, service: World.Service, schemaVersion: nat)
    requires frame.data.Some? && frame.data.value.JObj? && frame.id.None? && frame.event == "service.state"
    requires var value := frame.data.value;
             && value.Get(KKind) == JStr("service.state") && value.Get(KSchemaVersion) == JNum(schemaVersion)
             && value.Get(KGeneration) == JNum(service.generation) && value.Get(KState) == JStr(ServiceText(service.state))
    ensures Carries(frame, ServiceFrame(service), schemaVersion)
  {
    hide ServiceFrame, ServiceText;
    ServiceMembers(service);
  }

  // ----- the id of a frame -----

  lemma {:induction false} DigitsAreDecimal(s: string)
    requires s != "" && '1' <= s[0] <= '9' && forall i | 0 <= i < |s| :: IsDigit(s[i])
    ensures Number(s) > 0 && s == Decimal(Number(s))
  {
    var front, last := s[..|s| - 1], s[|s| - 1];
    assert IsDigit(last) && s == front + [last];
    if front == [] {
      assert Number(s) == 10 * Number(front) + (last as int - '0' as int);
    } else {
      DigitsAreDecimal(front);
      assert Number(s) / 10 == Number(front) && Number(s) % 10 == last as int - '0' as int;
    }
  }

  // A frame's id is read exactly when it is the decimal text of a positive number in range.
  lemma IdIsRead(s: string, n: nat)
    ensures ParsePersistedId(Some(s)) == Some(n) <==> 0 < n <= MAX_SAFE_INTEGER && s == Decimal(n)
  {
    hide Decimal, Number;
    DecimalReadsBack(n);
    if s != "" && '1' <= s[0] <= '9' && forall i | 0 <= i < |s| :: IsDigit(s[i]) { DigitsAreDecimal(s); }
  }
}
