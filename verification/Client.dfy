/** The browser's state and its reducer. */
module Client {
  import opened Domain
  import opened EventLog
  import opened Projection
  import World

  const SUPPORTED_SCHEMA_VERSION := 1
  const MAX_DIAGNOSTICS := 100

  datatype Repository = Repository(id: RepositoryId, name: string)

  datatype Connection = Bootstrapping | Live | Reconnecting | Recovering | Unavailable | ProtocolError | SessionExpired

  datatype Diagnostic = Diagnostic(id: nat, kind: string, schemaVersion: nat)

  datatype CancelCommand = Pending | Failed(code: string)

  datatype AgentState = AgentState(
    repositoriesById: map<RepositoryId, Repository>,
    repositoryOrder: seq<RepositoryId>,
    tasksById: map<TaskId, Task>,
    taskOrder: seq<TaskId>,
    selectedTaskId: Option<TaskId>,
    selectedDetail: Option<TaskDetail>,
    selectionGeneration: nat,
    detailLoading: bool,
    detailError: Option<string>,
    liveBufferByTaskId: map<TaskId, seq<TaskEvent>>,
    appliedEventId: nat,
    serviceState: Option<World.ServiceState>,
    serviceGeneration: nat,
    diagnostics: seq<Diagnostic>,
    cancelByTaskId: map<TaskId, CancelCommand>,
    connection: Connection,
    recoveryReason: Option<string>)

  datatype Bootstrap = Bootstrap(
    repositories: seq<Repository>,
    tasks: seq<Task>,
    latestEventId: nat,
    serviceState: World.ServiceState,
    serviceGeneration: nat)

  datatype Action =
    | BootstrapStarted
    | BootstrapReceived(bootstrap: Bootstrap)
    | BootstrapFailed(reason: string, protocol: bool)
    | ConnectionChanged(connection: Connection, why: Option<string>)
    | ExpireSession
    | RepositoryUpserted(repository: Repository)
    | TaskUpserted(task: Task)
    | TaskSelected(t: TaskId)
    | DetailReceived(t: TaskId, generation: nat, detail: TaskDetail)
    | DetailFailed(t: TaskId, generation: nat, message: string)
    | EventReceived(event: TaskEvent)
    | EventUnknown(id: nat, kind: string, schemaVersion: nat)
    | ServiceReceived(state: World.ServiceState, generation: nat)
    | CancelStarted(t: TaskId)
    | CancelSucceeded(task: Task)
    | CancelFailed(t: TaskId, code: string)

  function InitialState(): AgentState {
    AgentState(map[], [], map[], [], None, None, 0, false, None, map[], 0, None, 0, [], map[], Bootstrapping, None)
  }

  // ----- normalizeById -----

  function Normalize<T>(id: T -> nat, values: seq<T>): (map<nat, T>, seq<nat>) {
    if values == [] then (map[], [])
    else
      var (byId, order) := Normalize(id, values[..|values| - 1]);
      var value := values[|values| - 1];
      (byId[id(value) := value], if id(value) in byId then order else order + [id(value)])
  }

  method NormalizeById<T>(id: T -> nat, values: seq<T>) returns (byId: map<nat, T>, order: seq<nat>)
    ensures (byId, order) == Normalize(id, values)
  {
    byId, order := map[], [];
    for n := 0 to |values|
      invariant (byId, order) == Normalize(id, values[..n])
    {
      var value := values[n];
      if id(value) !in byId { order := order + [id(value)]; }
      byId := byId[id(value) := value];
      assert values[..n + 1][..n] == values[..n];
    }
    assert values[..|values|] == values;
  }

  ghost predicate IsLast<T>(id: T -> nat, values: seq<T>, k: nat, value: T) {
    exists i :: 0 <= i < |values| && id(values[i]) == k && values[i] == value && forall j | i < j < |values| :: id(values[j]) != k
  }

  // The table holds the last value of every id, the order lists every id once.
  ghost predicate Tabulates<T>(id: T -> nat, values: seq<T>, byId: map<nat, T>, order: seq<nat>) {
    && (forall i | 0 <= i < |values| :: id(values[i]) in byId)
    && (forall k | k in byId :: IsLast(id, values, k, byId[k]))
    && (forall k :: k in order <==> k in byId)
    && (forall i, j | 0 <= i < j < |order| :: order[i] != order[j])
  }

  lemma {:induction false} NormalizedMeans<T>(id: T -> nat, values: seq<T>)
    ensures Tabulates(id, values, Normalize(id, values).0, Normalize(id, values).1)
  {
    if values != [] {
      var front, last := values[..|values| - 1], values[|values| - 1];
      var before := Normalize(id, front);
      NormalizedMeans(id, front);
      assert values == front + [last];
      hide Tabulates;
      TabulatesOneMore(id, front, last, before.0, before.1);
    }
  }

  lemma TabulatesOneMore<T>(id: T -> nat, front: seq<T>, last: T, byId: map<nat, T>, order: seq<nat>)
    requires Tabulates(id, front, byId, order)
    ensures Tabulates(id, front + [last], byId[id(last) := last], if id(last) in byId then order else order + [id(last)])
  {
    var values, after := front + [last], byId[id(last) := last];
    forall k | k in after ensures IsLast(id, values, k, after[k]) {
      if k == id(last) {
        assert values[|front|] == last;
      } else {
        LastStays(id, front, last, k, byId[k]);
      }
    }
    hide IsLast;
    forall i | 0 <= i < |values| ensures id(values[i]) in after { assert i < |front| ==> values[i] == front[i]; }
  }

  lemma LastStays<T>(id: T -> nat, front: seq<T>, last: T, k: nat, value: T)
    requires IsLast(id, front, k, value) && k != id(last)
    ensures IsLast(id, front + [last], k, value)
  {
    var i :| 0 <= i < |front| && id(front[i]) == k && front[i] == value && forall j | i < j < |front| :: id(front[j]) != k;
    assert (front + [last])[i] == front[i];
  }

  // The ids in the order in which they first appear.
  function FirstIds<T>(id: T -> nat, values: seq<T>): seq<nat> {
    if values == [] then []
    else
      var front, last := values[..|values| - 1], values[|values| - 1];
      FirstIds(id, front) + if exists i :: 0 <= i < |front| && id(front[i]) == id(last) then [] else [id(last)]
  }

  lemma {:induction false} OrderIsAppearance<T>(id: T -> nat, values: seq<T>)
    ensures Normalize(id, values).1 == FirstIds(id, values)
    ensures forall k :: k in Normalize(id, values).0 <==> exists i :: 0 <= i < |values| && id(values[i]) == k
  {
    if values != [] {
      var front, last := values[..|values| - 1], values[|values| - 1];
      OrderIsAppearance(id, front);
      assert values == front + [last];
      forall k ensures k in Normalize(id, values).0 <==> exists i :: 0 <= i < |values| && id(values[i]) == k {
        if i :| 0 <= i < |front| && id(front[i]) == k { assert id(values[i]) == k; }
        if k == id(last) { assert id(values[|front|]) == k; }
      }
    }
  }

  // ----- the table of tasks -----

  function WithTask(state: AgentState, value: Task): AgentState {
    state.(tasksById := state.tasksById[value.id := value],
           taskOrder := if value.id in state.tasksById then state.taskOrder else state.taskOrder + [value.id])
  }

  // `upsertRestTask`; `cancel.succeeded` guards its task the same way.
  function UpsertRestTask(state: AgentState, task: Task): AgentState {
    if task.id in state.tasksById
       && (task.lastEventId < state.tasksById[task.id].lastEventId
           || (state.tasksById[task.id].IsTerminal() && !task.IsTerminal()))
    then state
    else WithTask(state, task)
  }

  function UpdateSummary(state: AgentState, event: TaskEvent): AgentState {
    match event.payload
    case Lifecycle(_, task) =>
      if event.taskId in state.tasksById
         && (task.lastEventId <= state.tasksById[event.taskId].lastEventId
             || (state.tasksById[event.taskId].IsTerminal() && !task.IsTerminal()))
      then state
      else WithTask(state, task)
    case _ =>
      if event.taskId !in state.tasksById || state.tasksById[event.taskId].lastEventId >= event.id then state
      else state.(tasksById := state.tasksById[event.taskId := state.tasksById[event.taskId].(lastEventId := event.id)])
  }

  // ----- the selected detail -----

  function ClientTimelineEntry(event: TaskEvent, task: Task): TimelineEntry {
    TimelineEntry(event.id, event.payload.Kind(), TimelineLabel(event.payload.Kind()), event.createdAt, task.failure)
  }

  predicate OnTimeline(timeline: seq<TimelineEntry>, id: nat) {
    exists i :: 0 <= i < |timeline| && timeline[i].eventId == id
  }

  function ApplyEvent(detail: TaskDetail, event: TaskEvent): TaskDetail {
    if event.taskId != detail.task.id || event.id <= detail.eventCursor then detail
    else
      var next :=
        if detail.task.lastEventId >= event.id then detail
        else detail.(task := detail.task.(lastEventId := event.id));
      var shown :=
        match event.payload
        case Plan(plan) => next.(plan := Some(plan))
        case Activity(entry) =>
          if HasEntry(next.activity, entry.id) then next else next.(activity := next.activity + [entry])
        case Diff(diff) => next.(diff := Some(diff))
        case Tests(tests) => next.(tests := Some(tests))
        case Lifecycle(_, task) =>
          next.(task := task,
                timeline := if OnTimeline(next.timeline, event.id) then next.timeline
                            else next.timeline + [ClientTimelineEntry(event, task)]);
      shown.(eventCursor := event.id)
  }

  function ApplyAll(detail: TaskDetail, events: seq<TaskEvent>): TaskDetail {
    if events == [] then detail else ApplyEvent(ApplyAll(detail, events[..|events| - 1]), events[|events| - 1])
  }

  function After(events: seq<TaskEvent>, cursor: nat): seq<TaskEvent> {
    if events == [] then []
    else
      var before := After(events[..|events| - 1], cursor);
      if events[|events| - 1].id > cursor then before + [events[|events| - 1]] else before
  }

  function Buffered(state: AgentState, t: TaskId): seq<TaskEvent> {
    if t in state.liveBufferByTaskId then state.liveBufferByTaskId[t] else []
  }

  predicate IsCurrent(state: AgentState, t: TaskId, generation: nat) {
    state.selectedTaskId == Some(t) && state.selectionGeneration == generation
  }

  function Installed(state: AgentState, t: TaskId, detail: TaskDetail): TaskDetail {
    ApplyAll(detail, SortById(After(Buffered(state, t), detail.eventCursor)))
  }

  function Install(state: AgentState, t: TaskId, generation: nat, detail: TaskDetail): AgentState {
    if !IsCurrent(state, t, generation) then state
    else
      var installed := Installed(state, t, detail);
      var summary :=
        if t in state.tasksById && state.tasksById[t].lastEventId > installed.task.lastEventId then state
        else WithTask(state, installed.task);
      summary.(selectedDetail := Some(installed), detailLoading := false, detailError := None,
               liveBufferByTaskId := state.liveBufferByTaskId[t := []])
  }

  method InstallDetail(state: AgentState, t: TaskId, generation: nat, detail: TaskDetail) returns (next: AgentState)
    ensures next == Install(state, t, generation, detail)
  {
    if state.selectedTaskId != Some(t) || state.selectionGeneration != generation { return state; }
    var buffered := SortById(After(Buffered(state, t), detail.eventCursor));
    var installed := detail;
    for n := 0 to |buffered|
      invariant installed == ApplyAll(detail, buffered[..n])
    {
      installed := ApplyEvent(installed, buffered[n]);
      assert buffered[..n + 1][..n] == buffered[..n];
    }
    assert buffered[..|buffered|] == buffered;
    var summary := state;
    if t !in state.tasksById || state.tasksById[t].lastEventId <= installed.task.lastEventId {
      summary := WithTask(state, installed.task);
    }
    next := summary.(selectedDetail := Some(installed), detailLoading := false, detailError := None,
                     liveBufferByTaskId := state.liveBufferByTaskId[t := []]);
  }

  // ----- cancel commands -----

  function Reconcile(commands: map<TaskId, CancelCommand>, tasksById: map<TaskId, Task>): map<TaskId, CancelCommand> {
    map t | t in commands && t in tasksById && !tasksById[t].IsTerminal() :: commands[t]
  }

  method ReconcileCommands(commands: map<TaskId, CancelCommand>, tasksById: map<TaskId, Task>)
    returns (kept: map<TaskId, CancelCommand>)
    ensures kept == Reconcile(commands, tasksById)
  {
    kept := map[];
    var rest := commands.Keys;
    while rest != {}
      invariant rest <= commands.Keys
      invariant kept == map t | t in commands && t !in rest && t in tasksById && !tasksById[t].IsTerminal() :: commands[t]
    {
      var t :| t in rest;
      if t in tasksById && !tasksById[t].IsTerminal() { kept := kept[t := commands[t]]; }
      rest := rest - {t};
    }
  }

  // ----- agentReducer -----

  function ToProtocolError(state: AgentState, reason: string): AgentState {
    state.(connection := ProtocolError, recoveryReason := Some(reason))
  }

  predicate IsShown(state: AgentState, event: TaskEvent) {
    state.selectedTaskId == Some(event.taskId) && state.selectedDetail.Some? && state.selectedDetail.value.task.id == event.taskId
  }

  function DetailAfter(state: AgentState, event: TaskEvent): Option<TaskDetail> {
    if IsShown(state, event) then Some(ApplyEvent(state.selectedDetail.value, event)) else state.selectedDetail
  }

  function BufferAfter(state: AgentState, event: TaskEvent): map<TaskId, seq<TaskEvent>> {
    var buffered := Buffered(state, event.taskId);
    if state.selectedTaskId == Some(event.taskId) && !IsShown(state, event)
       && (forall i | 0 <= i < |buffered| :: buffered[i].id != event.id)
    then state.liveBufferByTaskId[event.taskId := buffered + [event]] else state.liveBufferByTaskId
  }

  function CommandsAfter(state: AgentState, event: TaskEvent): map<TaskId, CancelCommand> {
    if event.payload.Lifecycle? && event.payload.task.IsTerminal() then state.cancelByTaskId - {event.taskId}
    else state.cancelByTaskId
  }

  function ReducePersisted(state: AgentState, event: TaskEvent): AgentState {
    if event.schemaVersion != SUPPORTED_SCHEMA_VERSION then ToProtocolError(state, "unsupported_schema_version")
    else if event.id == state.appliedEventId then state
    else if event.id < state.appliedEventId then ToProtocolError(state, "non_monotonic_event_id")
    else
      UpdateSummary(state, event).(
        selectedDetail := DetailAfter(state, event),
        liveBufferByTaskId := BufferAfter(state, event),
        appliedEventId := event.id,
        cancelByTaskId := CommandsAfter(state, event))
  }

  function RepositoryKey(repository: Repository): nat { repository.id }

  function TaskKey(task: Task): nat { task.id }

  function LastOf<T>(s: seq<T>, limit: nat): seq<T> {
    if |s| <= limit then s else s[|s| - limit..]
  }

  function ReduceBootstrap(state: AgentState, bootstrap: Bootstrap): AgentState {
    var (repositoriesById, repositoryOrder) := Normalize(RepositoryKey, bootstrap.repositories);
    var (tasksById, taskOrder) := Normalize(TaskKey, bootstrap.tasks);
    var selected :=
      if state.selectedTaskId.Some? && state.selectedTaskId.value in tasksById then state.selectedTaskId else None;
    var accept := bootstrap.serviceGeneration >= state.serviceGeneration;
    state.(
      repositoriesById := repositoriesById,
      repositoryOrder := repositoryOrder,
      tasksById := tasksById,
      taskOrder := taskOrder,
      selectedTaskId := selected,
      selectedDetail := None,
      selectionGeneration := if selected.None? then state.selectionGeneration else state.selectionGeneration + 1,
      detailLoading := selected.Some?,
      detailError := None,
      liveBufferByTaskId := if selected.None? then map[] else map[selected.value := []],
      appliedEventId := bootstrap.latestEventId,
      serviceState := if accept then Some(bootstrap.serviceState) else state.serviceState,
      serviceGeneration := if accept then bootstrap.serviceGeneration else state.serviceGeneration,
      cancelByTaskId := Reconcile(state.cancelByTaskId, tasksById),
      connection := Live,
      recoveryReason := None)
  }

  function Reduce(state: AgentState, action: Action): AgentState {
    match action
    case BootstrapStarted => state.(connection := Bootstrapping, recoveryReason := None)
    case BootstrapReceived(bootstrap) => ReduceBootstrap(state, bootstrap)
    case BootstrapFailed(reason, protocol) =>
      state.(connection := if protocol then ProtocolError else Unavailable, recoveryReason := Some(reason))
    case ConnectionChanged(connection, why) => state.(connection := connection, recoveryReason := why)
    case ExpireSession =>
      state.(connection := SessionExpired, recoveryReason := Some("session_expired"), cancelByTaskId := map[])
    case RepositoryUpserted(repository) =>
      state.(repositoriesById := state.repositoriesById[repository.id := repository],
             repositoryOrder := if repository.id in state.repositoriesById then state.repositoryOrder
                                else state.repositoryOrder + [repository.id])
    case TaskUpserted(task) => UpsertRestTask(state, task)
    case TaskSelected(t) =>
      state.(selectedTaskId := Some(t), selectedDetail := None, selectionGeneration := state.selectionGeneration + 1,
             detailLoading := true, detailError := None, liveBufferByTaskId := map[t := []])
    case DetailReceived(t, generation, detail) => Install(state, t, generation, detail)
    case DetailFailed(t, generation, message) =>
      if !IsCurrent(state, t, generation) then state else state.(detailLoading := false, detailError := Some(message))
    case EventReceived(event) => ReducePersisted(state, event)
    case EventUnknown(id, kind, schemaVersion) =>
      if schemaVersion != SUPPORTED_SCHEMA_VERSION then ToProtocolError(state, "unsupported_schema_version")
      else if id == state.appliedEventId then state
      else if id < state.appliedEventId then ToProtocolError(state, "non_monotonic_event_id")
      else state.(appliedEventId := id,
                  diagnostics := LastOf(state.diagnostics + [Diagnostic(id, kind, schemaVersion)], MAX_DIAGNOSTICS))
    case ServiceReceived(service, generation) =>
      if generation <= state.serviceGeneration then state
      else state.(serviceState := Some(service), serviceGeneration := generation)
    case CancelStarted(t) => state.(cancelByTaskId := state.cancelByTaskId[t := Pending])
    case CancelSucceeded(task) =>
      var updated := UpsertRestTask(state, task);
      if task.id in updated.tasksById && updated.tasksById[task.id].IsTerminal()
      then updated.(cancelByTaskId := updated.cancelByTaskId - {task.id}) else updated
    case CancelFailed(t, code) =>
      if t in state.tasksById && state.tasksById[t].IsTerminal()
      then state.(cancelByTaskId := state.cancelByTaskId - {t})
      else state.(cancelByTaskId := state.cancelByTaskId[t := CancelCommand.Failed(code)])
  }

  function ReduceActions(state: AgentState, actions: seq<Action>): AgentState {
    if actions == [] then state else Reduce(ReduceActions(state, actions[..|actions| - 1]), actions[|actions| - 1])
  }

  lemma OneMoreAction(state: AgentState, actions: seq<Action>, action: Action)
    ensures ReduceActions(state, actions + [action]) == Reduce(ReduceActions(state, actions), action)
  {
    hide Reduce;
    assert (actions + [action])[..|actions|] == actions;
  }

  // ----- what every action keeps -----

  ghost predicate Lists<T>(order: seq<nat>, byId: map<nat, T>) {
    && (forall k :: k in order <==> k in byId)
    && (forall i, j | 0 <= i < j < |order| :: order[i] != order[j])
  }

  ghost predicate Orderly(state: AgentState) {
    && Lists(state.taskOrder, state.tasksById) && Lists(state.repositoryOrder, state.repositoriesById)
    && |state.diagnostics| <= MAX_DIAGNOSTICS
  }

  lemma ListsOneMore<T>(order: seq<nat>, byId: map<nat, T>, k: nat, value: T)
    requires Lists(order, byId)
    ensures Lists(if k in byId then order else order + [k], byId[k := value])
  {
    if k !in byId {
      var more := order + [k];
      assert forall j :: j in more <==> j in order || j == k;
      forall i, j | 0 <= i < j < |more| ensures more[i] != more[j] {
        if j == |order| { assert more[i] in order; }
      }
    }
  }

  lemma NormalizedLists<T>(id: T -> nat, values: seq<T>)
    ensures Lists(Normalize(id, values).1, Normalize(id, values).0)
  {
    NormalizedMeans(id, values);
  }

  lemma WithTaskIsOrderly(state: AgentState, task: Task)
    requires Orderly(state)
    ensures Orderly(WithTask(state, task))
  {
    ListsOneMore(state.taskOrder, state.tasksById, task.id, task);
    hide Lists;
  }

  lemma SummaryIsOrderly(state: AgentState, event: TaskEvent)
    requires Orderly(state)
    ensures Orderly(UpdateSummary(state, event))
  {
    if event.payload.Lifecycle? {
      WithTaskIsOrderly(state, event.payload.task);
    } else if event.taskId in state.tasksById {
      ListsOneMore(state.taskOrder, state.tasksById, event.taskId, state.tasksById[event.taskId].(lastEventId := event.id));
    }
    hide Lists;
  }

  lemma InstallIsOrderly(state: AgentState, t: TaskId, generation: nat, detail: TaskDetail)
    requires Orderly(state)
    ensures Orderly(Install(state, t, generation, detail))
  {
    hide Lists, Installed;
    WithTaskIsOrderly(state, Installed(state, t, detail).task);
  }

  lemma BootstrapIsOrderly(state: AgentState, bootstrap: Bootstrap)
    requires Orderly(state)
    ensures Orderly(ReduceBootstrap(state, bootstrap))
  {
    hide Lists, Normalize;
    NormalizedLists(RepositoryKey, bootstrap.repositories);
    NormalizedLists(TaskKey, bootstrap.tasks);
  }

  // A step keeps the state orderly, and no generation goes back.
  ghost predicate Advances(a: AgentState, b: AgentState) {
    Orderly(b) && a.serviceGeneration <= b.serviceGeneration && a.selectionGeneration <= b.selectionGeneration
  }

  lemma TableActionAdvances(state: AgentState, action: Action)
    requires Orderly(state) && (action.TaskUpserted? || action.CancelSucceeded? || action.RepositoryUpserted?)
    ensures Advances(state, Reduce(state, action))
  {
    hide Lists;
    match action
    case TaskUpserted(task) => WithTaskIsOrderly(state, task);
    case CancelSucceeded(task) => WithTaskIsOrderly(state, task);
    case RepositoryUpserted(repository) =>
      ListsOneMore(state.repositoryOrder, state.repositoriesById, repository.id, repository);
  }

  lemma SummaryTouchesTasksOnly(state: AgentState, event: TaskEvent)
    ensures var after := UpdateSummary(state, event);
            after == state.(tasksById := after.tasksById, taskOrder := after.taskOrder)
  {
  }

  // `a` and `b` have the same tables and counters.
  ghost predicate SameTables(a: AgentState, b: AgentState) {
    && a.tasksById == b.tasksById && a.taskOrder == b.taskOrder && a.repositoriesById == b.repositoriesById
    && a.repositoryOrder == b.repositoryOrder && a.diagnostics == b.diagnostics
    && a.serviceGeneration == b.serviceGeneration && a.selectionGeneration == b.selectionGeneration
  }

  predicate IsNew(state: AgentState, event: TaskEvent) {
    event.schemaVersion == SUPPORTED_SCHEMA_VERSION && event.id > state.appliedEventId
  }

  lemma NewTables(state: AgentState, event: TaskEvent)
    requires IsNew(state, event)
    ensures SameTables(ReducePersisted(state, event), UpdateSummary(state, event))
  {
    hide UpdateSummary, DetailAfter, BufferAfter, CommandsAfter;
  }

  lemma OldTables(state: AgentState, event: TaskEvent)
    requires !IsNew(state, event)
    ensures SameTables(ReducePersisted(state, event), state)
  {
    hide UpdateSummary, DetailAfter, BufferAfter, CommandsAfter, ToProtocolError, SameTables;
    SameTablesItself(state);
    ProtocolErrorTables(state, "unsupported_schema_version");
    ProtocolErrorTables(state, "non_monotonic_event_id");
  }

  lemma SameTablesItself(state: AgentState)
    ensures SameTables(state, state)
  {
  }

  lemma ProtocolErrorTables(state: AgentState, reason: string)
    ensures SameTables(ToProtocolError(state, reason), state)
  {
  }

  lemma TablesAdvance(a: AgentState, b: AgentState, c: AgentState)
    requires Orderly(b) && SameTables(c, b) && a.serviceGeneration <= b.serviceGeneration && a.selectionGeneration <= b.selectionGeneration
    ensures Advances(a, c)
  {
  }

  lemma EventActionAdvances(state: AgentState, action: Action)
    requires Orderly(state) && action.EventReceived?
    ensures Advances(state, Reduce(state, action))
  {
    hide Orderly, SameTables, UpdateSummary, ReducePersisted, Advances;
    SummaryIsOrderly(state, action.event);
    SummaryTouchesTasksOnly(state, action.event);
    if !IsNew(state, action.event) {
      OldTables(state, action.event);
      TablesAdvance(state, state, ReducePersisted(state, action.event));
    } else {
      NewTables(state, action.event);
      TablesAdvance(state, UpdateSummary(state, action.event), ReducePersisted(state, action.event));
    }
  }

  lemma DetailActionAdvances(state: AgentState, action: Action)
    requires Orderly(state) && (action.DetailReceived? || action.DetailFailed? || action.TaskSelected?)
    ensures Advances(state, Reduce(state, action))
  {
    hide Lists, Installed;
    if action.DetailReceived? { InstallIsOrderly(state, action.t, action.generation, action.detail); }
  }

  lemma BootstrapActionAdvances(state: AgentState, action: Action)
    requires Orderly(state)
    requires action.BootstrapStarted? || action.BootstrapReceived? || action.BootstrapFailed?
    ensures Advances(state, Reduce(state, action))
  {
    hide Lists, Normalize;
    if action.BootstrapReceived? { BootstrapIsOrderly(state, action.bootstrap); }
  }

  lemma LastOfIsBounded<T>(s: seq<T>, limit: nat)
    ensures |LastOf(s, limit)| <= limit
  {
  }

  lemma DiagnosticAdvances(state: AgentState, id: nat, diagnostics: seq<Diagnostic>)
    requires Orderly(state) && |diagnostics| <= MAX_DIAGNOSTICS
    ensures Advances(state, state.(appliedEventId := id, diagnostics := diagnostics))
  {
    hide Lists;
  }

  lemma UnknownActionAdvances(state: AgentState, action: Action)
    requires Orderly(state) && action.EventUnknown?
    ensures Advances(state, Reduce(state, action))
  {
    hide Orderly, Advances, SameTables, ToProtocolError, LastOf;
    SameTablesItself(state);
    ProtocolErrorTables(state, "unsupported_schema_version");
    ProtocolErrorTables(state, "non_monotonic_event_id");
    TablesAdvance(state, state, state);
    TablesAdvance(state, state, ToProtocolError(state, "unsupported_schema_version"));
    TablesAdvance(state, state, ToProtocolError(state, "non_monotonic_event_id"));
    var diagnostics := LastOf(state.diagnostics + [Diagnostic(action.id, action.kind, action.schemaVersion)], MAX_DIAGNOSTICS);
    LastOfIsBounded(state.diagnostics + [Diagnostic(action.id, action.kind, action.schemaVersion)], MAX_DIAGNOSTICS);
    DiagnosticAdvances(state, action.id, diagnostics);
  }

  lemma QuietActionAdvances(state: AgentState, action: Action)
    requires Orderly(state)
    requires action.ConnectionChanged? || action.ExpireSession? || action.ServiceReceived? || action.CancelStarted? || action.CancelFailed?
    ensures Advances(state, Reduce(state, action))
  {
    hide Lists;
  }

  // Every action keeps the orders in step with the tables and the diagnostics bounded, and
  // neither the service generation nor the selection generation ever goes back.
  lemma ReduceKeepsOrder(state: AgentState, action: Action)
    requires Orderly(state)
    ensures Advances(state, Reduce(state, action))
  {
    hide Orderly, Advances, Reduce;
    if action.TaskUpserted? || action.CancelSucceeded? || action.RepositoryUpserted? {
      TableActionAdvances(state, action);
    } else if action.EventReceived? {
      EventActionAdvances(state, action);
    } else if action.DetailReceived? || action.DetailFailed? || action.TaskSelected? {
      DetailActionAdvances(state, action);
    } else if action.EventUnknown? {
      UnknownActionAdvances(state, action);
    } else if action.BootstrapStarted? || action.BootstrapReceived? || action.BootstrapFailed? {
      BootstrapActionAdvances(state, action);
    } else {
      QuietActionAdvances(state, action);
    }
  }
}
