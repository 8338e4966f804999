/**
 * Whole runs of the client. `log` is every event the run will ever commit and `now` how many
 * are committed; a response read by the server at some moment is a prefix of the log. Live
 * events arrive in order without gap; everything else arrives in any order.
 */
module ClientRun {
  import opened Domain
  import opened EventLog
  import opened Projection
  import opened History
  import opened Client
  import opened ClientView

  // A detail request in flight: its task, and how many events were applied when it was sent.
  datatype Fetch = Fetch(t: TaskId, sentAt: nat)

  // `applied` counts the events behind `appliedEventId`, `base` those behind it when the
  // current selection began; `best` is the greatest version of each task delivered so far.
  datatype Run = Run(
    now: nat,
    applied: nat,
    base: nat,
    state: AgentState,
    fetches: map<nat, Fetch>,
    best: map<TaskId, nat>)

  datatype ClientStep =
    | Commit
    | Deliver
    | Redeliver
    | Select(t: TaskId)
    | SendFetch
    | FetchAnswers(generation: nat, readAt: nat)
    | FetchFails(generation: nat, message: string)
    | Recover(readAt: nat, bootstrap: Bootstrap)
    | RestTask(t: TaskId, readAt: nat)
    | CancelAnswers(t: TaskId, readAt: nat)
    | Elsewhere(action: Action)

  // Actions that carry neither tasks nor events.
  predicate IsElsewhere(action: Action) {
    || action.BootstrapStarted? || action.BootstrapFailed? || action.ConnectionChanged? || action.ExpireSession?
    || action.RepositoryUpserted? || action.ServiceReceived? || action.CancelStarted? || action.CancelFailed?
  }

  // `GET /bootstrap` answered when the log was `prefix`.
  ghost predicate IsSnapshot(prefix: seq<TaskEvent>, bootstrap: Bootstrap) {
    && bootstrap.latestEventId == LastId(prefix)
    && (forall t :: Row(prefix, t).Some? <==> exists i :: 0 <= i < |bootstrap.tasks| && bootstrap.tasks[i].id == t)
    && (forall i | 0 <= i < |bootstrap.tasks| :: Row(prefix, bootstrap.tasks[i].id) == Some(bootstrap.tasks[i]))
  }

  function Newest(best: map<TaskId, nat>, t: TaskId, version: nat): map<TaskId, nat> {
    if t in best && version <= best[t] then best else best[t := version]
  }

  ghost function Versions(tasksById: map<TaskId, Task>): map<TaskId, nat> {
    map t | t in tasksById :: tasksById[t].lastEventId
  }

  function Start(): Run {
    Run(0, 0, 0, InitialState(), map[], map[])
  }

  ghost function StepRun(log: seq<TaskEvent>, r: Run, step: ClientStep): Run {
    match step
    case Commit => if r.now < |log| then r.(now := r.now + 1) else r
    case Deliver =>
      if r.applied < r.now && r.now <= |log| then
        var event := log[r.applied];
        r.(state := Reduce(r.state, EventReceived(event)), applied := r.applied + 1,
           best := Newest(r.best, event.taskId, event.id))
      else r
    case Redeliver =>
      if 0 < r.applied <= |log| then r.(state := Reduce(r.state, EventReceived(log[r.applied - 1]))) else r
    case Select(t) => r.(state := Reduce(r.state, TaskSelected(t)), base := r.applied)
    case SendFetch =>
      if r.state.detailLoading && r.state.selectedTaskId.Some? && r.state.selectionGeneration !in r.fetches
      then r.(fetches := r.fetches[r.state.selectionGeneration := Fetch(r.state.selectedTaskId.value, r.applied)])
      else r
    case FetchAnswers(generation, readAt) =>
      if generation in r.fetches && r.fetches[generation].sentAt <= readAt <= r.now && r.now <= |log|
         && DetailOf(log[..readAt], r.fetches[generation].t).Some?
      then
        var t := r.fetches[generation].t;
        var detail := DetailOf(log[..readAt], t).value;
        r.(state := Reduce(r.state, DetailReceived(t, generation, detail)),
           fetches := r.fetches - {generation},
           best := if IsCurrent(r.state, t, generation)
                   then Newest(r.best, t, Installed(r.state, t, detail).task.lastEventId) else r.best)
      else r
    case FetchFails(generation, message) =>
      if generation in r.fetches
      then r.(state := Reduce(r.state, DetailFailed(r.fetches[generation].t, generation, message)),
              fetches := r.fetches - {generation})
      else r
    case Recover(readAt, bootstrap) =>
      if readAt <= r.now <= |log| && IsSnapshot(log[..readAt], bootstrap) then
        var state := Reduce(r.state, BootstrapReceived(bootstrap));
        r.(state := state, applied := readAt, base := readAt, best := Versions(state.tasksById))
      else r
    case RestTask(t, readAt) =>
      if readAt <= r.now <= |log| && Row(log[..readAt], t).Some? then
        var task := Row(log[..readAt], t).value;
        r.(state := Reduce(r.state, TaskUpserted(task)), best := Newest(r.best, t, task.lastEventId))
      else r
    case CancelAnswers(t, readAt) =>
      if readAt <= r.now <= |log| && Row(log[..readAt], t).Some? then
        var task := Row(log[..readAt], t).value;
        r.(state := Reduce(r.state, CancelSucceeded(task)), best := Newest(r.best, t, task.lastEventId))
      else r
    case Elsewhere(action) => if IsElsewhere(action) then r.(state := Reduce(r.state, action)) else r
  }

  // ----- the invariant -----

  ghost predicate IsVersion(log: seq<TaskEvent>, now: nat, t: TaskId, row: Task) {
    exists k :: 0 <= k <= now && k <= |log| && Row(log[..k], t) == Some(row)
  }

  // The table is a join: each row is a version of its task, the greatest delivered so far, and
  // no row is behind the events already applied.
  ghost predicate TableJoined(log: seq<TaskEvent>, now: nat, applied: nat, tasksById: map<TaskId, Task>, best: map<TaskId, nat>)
    requires applied <= |log|
  {
    && best.Keys == tasksById.Keys
    && (forall t | t in tasksById :: IsVersion(log, now, t, tasksById[t]) && best[t] == tasksById[t].lastEventId)
    && (forall t | Row(log[..applied], t).Some? ::
          t in tasksById && Row(log[..applied], t).value.lastEventId <= tasksById[t].lastEventId)
  }

  // The detail shows the server's projection of whichever is longer: its own prefix or the
  // events applied. Until it is loaded, the buffer holds the task's events since selection.
  ghost predicate DetailTracks(log: seq<TaskEvent>, r: Run)
    requires r.base <= r.applied <= r.now <= |log|
  {
    && (r.state.detailLoading ==> r.state.selectedDetail.None? && r.state.selectedTaskId.Some?)
    && (r.state.selectedDetail.Some? ==>
          var d := r.state.selectedDetail.value;
          && r.state.selectedTaskId == Some(d.task.id) && Pos(log, d.eventCursor) <= r.now
          && Shows(log, Max(r.applied, Pos(log, d.eventCursor)), d.task.id, d))
    && (r.state.selectedDetail.None? && r.state.selectedTaskId.Some? ==>
          var t := r.state.selectedTaskId.value;
          Buffered(r.state, t) == EventsOf(log[r.base..r.applied], t))
  }

  // A response can only be installed once, and only one read after the selection began.
  ghost predicate FetchesTrack(r: Run) {
    forall g | g in r.fetches ::
      && g <= r.state.selectionGeneration
      && (IsCurrent(r.state, r.fetches[g].t, g) ==> r.state.detailLoading && r.base <= r.fetches[g].sentAt)
  }

  ghost predicate RunInv(log: seq<TaskEvent>, r: Run) {
    && r.base <= r.applied <= r.now <= |log|
    && r.state.appliedEventId == LastId(log[..r.applied])
    && TableJoined(log, r.now, r.applied, r.state.tasksById, r.best)
    && DetailTracks(log, r)
    && FetchesTrack(r)
  }

  lemma InvBounds(log: seq<TaskEvent>, r: Run)
    requires RunInv(log, r)
    ensures r.base <= r.applied <= r.now <= |log| && r.state.appliedEventId == LastId(log[..r.applied])
    ensures r.state.selectedDetail.Some? ==> r.state.selectedTaskId == Some(r.state.selectedDetail.value.task.id)
  {
    hide TableJoined, Shows, EventsOf, FetchesTrack, Pos;
  }

  // ----- the table -----

  lemma VersionsCompare(log: seq<TaskEvent>, now: nat, t: TaskId, a: Task, b: Task)
    requires WellFormed(log) && IsVersion(log, now, t, a) && IsVersion(log, now, t, b)
    ensures a.lastEventId == b.lastEventId ==> a == b
    ensures a.lastEventId < b.lastEventId ==> !a.IsTerminal()
    ensures a.id == t && b.id == t
  {
    var i :| 0 <= i <= now && i <= |log| && Row(log[..i], t) == Some(a);
    var j :| 0 <= j <= now && j <= |log| && Row(log[..j], t) == Some(b);
    WellFormedPrefix(log, i);
    WellFormedPrefix(log, j);
    RowIsStored(log[..i], t);
    RowIsStored(log[..j], t);
    VersionsAreOrdered(log, i, j, t);
  }

  // Taking in a version: the row with the greater `last_event_id` stays.
  lemma JoinKeepsTable(log: seq<TaskEvent>, now: nat, applied: nat, before: map<TaskId, Task>, best: map<TaskId, nat>,
                       t: TaskId, version: Task, after: map<TaskId, Task>)
    requires applied <= |log| && TableJoined(log, now, applied, before, best)
    requires IsVersion(log, now, t, version)
    requires t in before && version.lastEventId <= before[t].lastEventId ==> after == before || version == before[t]
    requires after == before || after == before[t := version]
    requires after == before ==> t in before && version.lastEventId <= before[t].lastEventId
    ensures TableJoined(log, now, applied, after, Newest(best, t, version.lastEventId))
  {
    hide IsVersion, Row;
    assert after != before ==> (t in before ==> before[t].lastEventId <= version.lastEventId);
  }

  lemma UpsertJoins(log: seq<TaskEvent>, now: nat, applied: nat, state: AgentState, best: map<TaskId, nat>, t: TaskId, version: Task)
    requires applied <= |log| && WellFormed(log) && TableJoined(log, now, applied, state.tasksById, best) && IsVersion(log, now, t, version)
    ensures TableJoined(log, now, applied, UpsertRestTask(state, version).tasksById, Newest(best, t, version.lastEventId))
  {
    var current := if t in state.tasksById then state.tasksById[t] else version;
    VersionsCompare(log, now, t, current, version);
    VersionsCompare(log, now, t, version, current);
    JoinKeepsTable(log, now, applied, state.tasksById, best, t, version, UpsertRestTask(state, version).tasksById);
  }

  // The next event of the log makes the next version of its row.
  lemma NextRow(log: seq<TaskEvent>, now: nat, applied: nat)
    requires WellFormed(log) && applied < now <= |log|
    ensures var event := log[applied];
            var before, next := Row(log[..applied], event.taskId), Row(log[..applied + 1], event.taskId);
            && next.Some? && next.value.lastEventId == event.id && next.value.id == event.taskId
            && IsVersion(log, now, event.taskId, next.value)
            && (event.payload.Lifecycle? ==> next.value == event.payload.task)
            && (!event.payload.Lifecycle? ==> before.Some? && next.value == before.value.(lastEventId := event.id))
  {
    var event := log[applied];
    assert log[..applied + 1][..applied] == log[..applied];
    assert LegalNext(Row(log[..applied], event.taskId), event);
    WellFormedPrefix(log, applied + 1);
    RowIsStored(log[..applied + 1], event.taskId);
  }

  // A table that has applied everything before the event is at the version before it, or
  // already at the event's or a later one.
  lemma CurrentAgainstNext(log: seq<TaskEvent>, now: nat, applied: nat, current: Task)
    requires WellFormed(log) && applied < now <= |log| && IsVersion(log, now, log[applied].taskId, current)
    requires Row(log[..applied], log[applied].taskId).Some? ==>
               Row(log[..applied], log[applied].taskId).value.lastEventId <= current.lastEventId
    ensures var event, next := log[applied], Row(log[..applied + 1], log[applied].taskId);
            && next.Some?
            && (current.lastEventId < event.id ==> Row(log[..applied], event.taskId) == Some(current))
            && (current.lastEventId < event.id ==> !current.IsTerminal())
            && (current.lastEventId == event.id ==> current == next.value)
  {
    hide WellFormed;
    NextRow(log, now, applied);
    var next := Row(log[..applied + 1], log[applied].taskId).value;
    VersionsCompare(log, now, log[applied].taskId, current, next);
    if current.lastEventId < log[applied].id { CurrentIsBefore(log, now, applied, current); }
  }

  lemma CurrentIsBefore(log: seq<TaskEvent>, now: nat, applied: nat, current: Task)
    requires WellFormed(log) && applied < now <= |log|
    requires var t := log[applied].taskId;
             && IsVersion(log, now, t, current) && current.lastEventId < log[applied].id
             && Row(log[..applied + 1], t).Some? && Row(log[..applied + 1], t).value.lastEventId == log[applied].id
             && (Row(log[..applied], t).Some? ==> Row(log[..applied], t).value.lastEventId <= current.lastEventId)
    ensures Row(log[..applied], log[applied].taskId) == Some(current)
  {
    var t := log[applied].taskId;
    var k :| 0 <= k <= now && k <= |log| && Row(log[..k], t) == Some(current);
    hide WellFormed;
    if k > applied {
      RowsOnlyMoveForward(log, applied + 1, k, t);
    } else {
      RowsOnlyMoveForward(log, k, applied, t);
      VersionsAreOrdered(log, k, applied, t);
    }
  }

  // What `updateSummaryForEvent` does to the table is to take in the next version.
  lemma SummaryTakesNext(log: seq<TaskEvent>, now: nat, applied: nat, state: AgentState, best: map<TaskId, nat>)
    requires WellFormed(log) && applied < now <= |log| && TableJoined(log, now, applied, state.tasksById, best)
    ensures var t := log[applied].taskId;
            var after := UpdateSummary(state, log[applied]).tasksById;
            && Row(log[..applied + 1], t).Some? && IsVersion(log, now, t, Row(log[..applied + 1], t).value)
            && Row(log[..applied + 1], t).value.lastEventId == log[applied].id
            && (after == state.tasksById || after == state.tasksById[t := Row(log[..applied + 1], t).value])
            && (after == state.tasksById <==> t in state.tasksById && log[applied].id <= state.tasksById[t].lastEventId)
  {
    hide WellFormed, IsVersion, Row, LegalNext;
    var t := log[applied].taskId;
    NextRow(log, now, applied);
    if t in state.tasksById { CurrentAgainstNext(log, now, applied, state.tasksById[t]); }
  }

  lemma TableAdvances(log: seq<TaskEvent>, now: nat, applied: nat, tasksById: map<TaskId, Task>, best: map<TaskId, nat>)
    requires applied < |log| && TableJoined(log, now, applied, tasksById, best)
    requires var t := log[applied].taskId;
             t in tasksById && Row(log[..applied + 1], t).Some? && Row(log[..applied + 1], t).value.lastEventId <= tasksById[t].lastEventId
    ensures TableJoined(log, now, applied + 1, tasksById, best)
  {
    RowsAfter(log, applied);
    hide Row, IsVersion;
  }

  lemma EventJoins(log: seq<TaskEvent>, now: nat, applied: nat, state: AgentState, best: map<TaskId, nat>)
    requires WellFormed(log) && applied < now <= |log| && TableJoined(log, now, applied, state.tasksById, best)
    ensures TableJoined(log, now, applied + 1, UpdateSummary(state, log[applied]).tasksById,
                        Newest(best, log[applied].taskId, log[applied].id))
  {
    hide WellFormed, IsVersion, Row, UpdateSummary, LegalNext, TableJoined;
    var event := log[applied];
    var after := UpdateSummary(state, event).tasksById;
    SummaryTakesNext(log, now, applied, state, best);
    var next := Row(log[..applied + 1], event.taskId).value;
    JoinKeepsTable(log, now, applied, state.tasksById, best, event.taskId, next, after);
    TableAdvances(log, now, applied, after, Newest(best, event.taskId, event.id));
  }

  lemma RowsAfter(log: seq<TaskEvent>, applied: nat)
    requires applied < |log|
    ensures forall t | t != log[applied].taskId :: Row(log[..applied + 1], t) == Row(log[..applied], t)
  {
    assert log[..applied + 1][..applied] == log[..applied];
  }

  // ----- every step keeps the invariant -----

  // A step that touches nothing the invariant reads.
  ghost predicate SameView(a: AgentState, b: AgentState) {
    && b.tasksById == a.tasksById && b.selectedTaskId == a.selectedTaskId && b.selectedDetail == a.selectedDetail
    && b.selectionGeneration == a.selectionGeneration && b.detailLoading == a.detailLoading
    && b.liveBufferByTaskId == a.liveBufferByTaskId && b.appliedEventId == a.appliedEventId
  }

  lemma SameViewKeepsInv(log: seq<TaskEvent>, r: Run, state: AgentState)
    requires RunInv(log, r) && SameView(r.state, state)
    ensures RunInv(log, r.(state := state))
  {
    hide TableJoined, Shows;
  }

  lemma NowGrows(log: seq<TaskEvent>, r: Run)
    requires RunInv(log, r) && r.now < |log|
    ensures RunInv(log, r.(now := r.now + 1))
  {
    hide Shows, Row;
    forall t | t in r.state.tasksById ensures IsVersion(log, r.now + 1, t, r.state.tasksById[t]) {
      assert IsVersion(log, r.now, t, r.state.tasksById[t]);
    }
  }

  lemma DeliveredDetail(log: seq<TaskEvent>, applied: nat, d: TaskDetail)
    requires WellFormed(log) && applied < |log| && Shows(log, Max(applied, Pos(log, d.eventCursor)), d.task.id, d)
    ensures var after := ApplyEvent(d, log[applied]);
            && after.task.id == d.task.id && Shows(log, Max(applied + 1, Pos(log, after.eventCursor)), d.task.id, after)
            && Pos(log, after.eventCursor) <= Max(applied + 1, Pos(log, d.eventCursor))
  {
    var event := log[applied];
    WellFormedAscends(log);
    PosSplits(log, d.eventCursor);
    hide WellFormed, Shows, Ascending, Pos;
    if d.eventCursor < event.id {
      if event.taskId == d.task.id {
        ShowsApply(log, applied, d.task.id, d);
        ShowsTask(log, applied + 1, d.task.id, ApplyEvent(d, event));
        WellFormedAscends(log);
        EventPos(log, applied);
      } else {
        ShowsSkip(log, applied, d.task.id, d);
      }
    }
  }

  lemma DeliveredBuffer(log: seq<TaskEvent>, base: nat, applied: nat, t: TaskId)
    requires WellFormed(log) && base <= applied < |log| && log[applied].taskId == t
    ensures var buffered := EventsOf(log[base..applied], t);
            forall i | 0 <= i < |buffered| :: buffered[i].id != log[applied].id
  {
    WellFormedAscends(log);
    var buffered := EventsOf(log[base..applied], t);
    SliceAscending(log, base, applied);
    EventsOfAreOwn(log[base..applied], t);
    forall i | 0 <= i < |buffered| ensures buffered[i].id != log[applied].id {
      assert buffered[i] in log[base..applied];
      var k :| 0 <= k < applied - base && log[base..applied][k] == buffered[i];
      assert log[base + k].id < log[applied].id;
    }
  }

  // What a newer event does to the fields the detail depends on.
  lemma NewerEventReduces(state: AgentState, event: TaskEvent)
    requires event.schemaVersion == SUPPORTED_SCHEMA_VERSION && event.id > state.appliedEventId
    ensures var after := Reduce(state, EventReceived(event));
            && after.tasksById == UpdateSummary(state, event).tasksById && after.appliedEventId == event.id
            && after.selectedTaskId == state.selectedTaskId && after.selectionGeneration == state.selectionGeneration
            && after.detailLoading == state.detailLoading
            && (state.selectedDetail.None? ==> after.selectedDetail.None?)
            && (state.selectedDetail.Some? && state.selectedTaskId == Some(state.selectedDetail.value.task.id) ==>
                  after.selectedDetail == Some(ApplyEvent(state.selectedDetail.value, event)))
            && (state.selectedDetail.None? && state.selectedTaskId.Some? ==>
                  var t := state.selectedTaskId.value;
                  && (event.taskId != t ==> Buffered(after, t) == Buffered(state, t))
                  && (event.taskId == t && (forall i | 0 <= i < |Buffered(state, t)| :: Buffered(state, t)[i].id != event.id) ==>
                        Buffered(after, t) == Buffered(state, t) + [event]))
  {
  }

  lemma DeliveryReduces(log: seq<TaskEvent>, r: Run)
    requires WellFormed(log) && RunInv(log, r) && r.applied < r.now
    ensures var event, after := log[r.applied], Reduce(r.state, EventReceived(log[r.applied]));
            && after.tasksById == UpdateSummary(r.state, event).tasksById
            && after.appliedEventId == LastId(log[..r.applied + 1])
            && after.selectedTaskId == r.state.selectedTaskId && after.selectionGeneration == r.state.selectionGeneration
            && after.detailLoading == r.state.detailLoading
            && after.selectedDetail == (match r.state.selectedDetail case None => None case Some(d) => Some(ApplyEvent(d, event)))
            && (r.state.selectedDetail.None? && r.state.selectedTaskId.Some? ==>
                  Buffered(after, r.state.selectedTaskId.value)
                  == EventsOf(log[r.base..r.applied + 1], r.state.selectedTaskId.value))
  {
    var event := log[r.applied];
    InvBounds(log, r);
    LegalDelivery(log, r.applied);
    DeliveredBuffers(log, r);
    hide WellFormed, RunInv, EventsOf, LastId, ApplyEvent, Reduce, UpdateSummary, Buffered, Ascending, LegalNext;
    NewerEventReduces(r.state, event);
  }

  lemma LegalDelivery(log: seq<TaskEvent>, applied: nat)
    requires WellFormed(log) && applied < |log|
    ensures log[applied].schemaVersion == SUPPORTED_SCHEMA_VERSION
    ensures LastId(log[..applied]) < log[applied].id == LastId(log[..applied + 1])
  {
    PrefixEnd(log, applied, applied + 1);
    assert LegalNext(Row(log[..applied], log[applied].taskId), log[applied]);
  }

  // While the selected task's detail is on its way, its buffer takes the event in exactly if it
  // is one of its own, and it cannot be there yet.
  lemma DeliveredBuffers(log: seq<TaskEvent>, r: Run)
    requires WellFormed(log) && RunInv(log, r) && r.applied < r.now
    ensures r.state.selectedDetail.None? && r.state.selectedTaskId.Some? ==>
              var event, t := log[r.applied], r.state.selectedTaskId.value;
              && EventsOf(log[r.base..r.applied + 1], t) == Buffered(r.state, t) + (if event.taskId == t then [event] else [])
              && (event.taskId == t ==> forall i | 0 <= i < |Buffered(r.state, t)| :: Buffered(r.state, t)[i].id != event.id)
  {
    hide WellFormed, TableJoined, Shows, EventsOf, LastId, Buffered, FetchesTrack, Pos;
    if r.state.selectedTaskId.Some? && r.state.selectedDetail.None? {
      var t := r.state.selectedTaskId.value;
      EventsOfSlice(log, r.base, r.applied + 1, t);
      if log[r.applied].taskId == t { DeliveredBuffer(log, r.base, r.applied, t); }
    }
  }

  lemma DeliverKeepsInv(log: seq<TaskEvent>, r: Run)
    requires WellFormed(log) && RunInv(log, r) && r.applied < r.now
    ensures RunInv(log, StepRun(log, r, Deliver))
  {
    hide WellFormed, TableJoined, Shows, EventsOf, LastId, ApplyEvent, Reduce, Newest, UpdateSummary, Buffered, Pos;
    DeliveryReduces(log, r);
    EventJoins(log, r.now, r.applied, r.state, r.best);
    if r.state.selectedDetail.Some? { DeliveredDetail(log, r.applied, r.state.selectedDetail.value); }
  }

  // ----- installing a detail -----

  lemma InstalledPosition(log: seq<TaskEvent>, readAt: nat, applied: nat, cursor: nat)
    requires Ascending(log) && readAt <= |log| && applied <= |log|
    requires LastId(log[..readAt]) <= cursor <= LastId(log[..Max(readAt, applied)])
    ensures Max(applied, Pos(log, cursor)) == Max(readAt, applied)
  {
    PosOfPrefix(log, readAt);
    PosOfPrefix(log, Max(readAt, applied));
    PosMonotone(log, LastId(log[..readAt]), cursor);
    PosMonotone(log, cursor, LastId(log[..Max(readAt, applied)]));
  }

  lemma InstallJoins(log: seq<TaskEvent>, r: Run, t: TaskId, installed: TaskDetail, m: nat)
    requires WellFormed(log) && RunInv(log, r) && m <= r.now && Shows(log, m, t, installed)
    ensures var keep := t in r.state.tasksById && r.state.tasksById[t].lastEventId > installed.task.lastEventId;
            var after := if keep then r.state.tasksById else r.state.tasksById[t := installed.task];
            TableJoined(log, r.now, r.applied, after, Newest(r.best, t, installed.task.lastEventId))
    ensures installed.task.id == t
  {
    ShowsTask(log, m, t, installed);
    assert IsVersion(log, r.now, t, installed.task);
    if t in r.state.tasksById { VersionsCompare(log, r.now, t, r.state.tasksById[t], installed.task); }
    hide Shows, IsVersion, WellFormed, DetailTracks, FetchesTrack;
    var keep := t in r.state.tasksById && r.state.tasksById[t].lastEventId > installed.task.lastEventId;
    var after := if keep then r.state.tasksById else r.state.tasksById[t := installed.task];
    JoinKeepsTable(log, r.now, r.applied, r.state.tasksById, r.best, t, installed.task, after);
  }

  lemma InstallReduces(state: AgentState, t: TaskId, generation: nat, detail: TaskDetail)
    requires IsCurrent(state, t, generation) && Installed(state, t, detail).task.id == t
    ensures var after := Reduce(state, DetailReceived(t, generation, detail));
            var installed := Installed(state, t, detail);
            && after.tasksById == (if t in state.tasksById && state.tasksById[t].lastEventId > installed.task.lastEventId
                                   then state.tasksById else state.tasksById[t := installed.task])
            && after.selectedDetail == Some(installed) && !after.detailLoading
            && after.selectedTaskId == state.selectedTaskId && after.selectionGeneration == state.selectionGeneration
            && after.appliedEventId == state.appliedEventId
  {
    hide Installed;
  }

  lemma AnswerInstalls(log: seq<TaskEvent>, r: Run, generation: nat, readAt: nat)
    requires WellFormed(log) && RunInv(log, r) && generation in r.fetches
    requires r.fetches[generation].sentAt <= readAt <= r.now && DetailOf(log[..readAt], r.fetches[generation].t).Some?
    requires IsCurrent(r.state, r.fetches[generation].t, generation)
    ensures RunInv(log, StepRun(log, r, FetchAnswers(generation, readAt)))
  {
    hide WellFormed, TableJoined, Shows, EventsOf, LastId, Reduce, Newest, Installed, Ascending, DetailOf, Pos, Buffered;
    var t := r.fetches[generation].t;
    var detail := DetailOf(log[..readAt], t).value;
    InstalledShows(log, r.base, readAt, r.applied, r.state, t);
    var installed := Installed(r.state, t, detail);
    WellFormedAscends(log);
    InstalledPosition(log, readAt, r.applied, installed.eventCursor);
    InstallJoins(log, r, t, installed, Max(readAt, r.applied));
    InstallReduces(r.state, t, generation, detail);
  }

  lemma StaleAnswer(log: seq<TaskEvent>, r: Run, generation: nat, readAt: nat)
    requires RunInv(log, r) && generation in r.fetches && !IsCurrent(r.state, r.fetches[generation].t, generation)
    ensures RunInv(log, StepRun(log, r, FetchAnswers(generation, readAt)))
  {
    hide TableJoined, Shows, DetailOf, Pos;
  }

  lemma AnswerKeepsInv(log: seq<TaskEvent>, r: Run, generation: nat, readAt: nat)
    requires WellFormed(log) && RunInv(log, r)
    ensures RunInv(log, StepRun(log, r, FetchAnswers(generation, readAt)))
  {
    hide WellFormed, RunInv, IsCurrent, Installed, Newest, DetailOf;
    if generation in r.fetches && r.fetches[generation].sentAt <= readAt <= r.now && r.now <= |log|
       && DetailOf(log[..readAt], r.fetches[generation].t).Some? {
      if IsCurrent(r.state, r.fetches[generation].t, generation) {
        AnswerInstalls(log, r, generation, readAt);
      } else {
        StaleAnswer(log, r, generation, readAt);
      }
    }
  }

  // ----- recovery -----

  lemma SnapshotTable(log: seq<TaskEvent>, readAt: nat, now: nat, bootstrap: Bootstrap)
    requires readAt <= now <= |log| && IsSnapshot(log[..readAt], bootstrap)
    ensures var tasksById := Normalize(TaskKey, bootstrap.tasks).0;
            TableJoined(log, now, readAt, tasksById, Versions(tasksById))
  {
    hide Row, Normalize;
    var prefix := log[..readAt];
    var tasksById := Normalize(TaskKey, bootstrap.tasks).0;
    NormalizedMeans(TaskKey, bootstrap.tasks);
    forall t | t in tasksById ensures Row(prefix, t) == Some(tasksById[t]) && IsVersion(log, now, t, tasksById[t]) {
      assert IsLast(TaskKey, bootstrap.tasks, t, tasksById[t]);
      var i :| 0 <= i < |bootstrap.tasks| && TaskKey(bootstrap.tasks[i]) == t && bootstrap.tasks[i] == tasksById[t];
    }
    forall t | Row(prefix, t).Some? ensures t in tasksById {
      var i :| 0 <= i < |bootstrap.tasks| && bootstrap.tasks[i].id == t;
      assert TaskKey(bootstrap.tasks[i]) in tasksById;
    }
  }

  lemma BootstrapReduces(state: AgentState, bootstrap: Bootstrap)
    ensures var after := Reduce(state, BootstrapReceived(bootstrap));
            && after.tasksById == Normalize(TaskKey, bootstrap.tasks).0 && after.appliedEventId == bootstrap.latestEventId
            && after.selectedDetail.None? && after.detailLoading == after.selectedTaskId.Some?
            && (after.selectedTaskId.Some? ==> after.selectionGeneration == state.selectionGeneration + 1)
            && (after.selectedTaskId.Some? ==> Buffered(after, after.selectedTaskId.value) == [])
            && after.selectionGeneration >= state.selectionGeneration
  {
    hide Normalize;
  }

  lemma RecoverKeepsInv(log: seq<TaskEvent>, r: Run, readAt: nat, bootstrap: Bootstrap)
    requires WellFormed(log) && RunInv(log, r)
    ensures RunInv(log, StepRun(log, r, Recover(readAt, bootstrap)))
  {
    hide WellFormed, TableJoined, Shows, Normalize, Row, Reduce, Pos, Buffered;
    if readAt <= r.now && IsSnapshot(log[..readAt], bootstrap) {
      BootstrapReduces(r.state, bootstrap);
      SnapshotTable(log, readAt, r.now, bootstrap);
      assert log[readAt..readAt] == [];
    }
  }

  // ----- all steps -----

  lemma UpsertReduces(state: AgentState, task: Task)
    ensures SameView(state.(tasksById := UpsertRestTask(state, task).tasksById), Reduce(state, TaskUpserted(task)))
    ensures SameView(state.(tasksById := UpsertRestTask(state, task).tasksById), Reduce(state, CancelSucceeded(task)))
  {
  }

  lemma UpsertKeepsInv(log: seq<TaskEvent>, r: Run, t: TaskId, readAt: nat, step: ClientStep)
    requires WellFormed(log) && RunInv(log, r) && (step == RestTask(t, readAt) || step == CancelAnswers(t, readAt))
    ensures RunInv(log, StepRun(log, r, step))
  {
    hide WellFormed, TableJoined, Shows, Newest, Reduce, UpsertRestTask, Row, Pos, Buffered;
    if readAt <= r.now && Row(log[..readAt], t).Some? {
      var task := Row(log[..readAt], t).value;
      assert IsVersion(log, r.now, t, task);
      UpsertReduces(r.state, task);
      UpsertJoins(log, r.now, r.applied, r.state, r.best, t, task);
      var table := r.state.(tasksById := UpsertRestTask(r.state, task).tasksById);
      var updated := r.(state := table, best := Newest(r.best, t, task.lastEventId));
      UpdatedTable(log, r, table.tasksById, updated.best);
      SameViewKeepsInv(log, updated, StepRun(log, r, step).state);
    }
  }

  lemma UpdatedTable(log: seq<TaskEvent>, r: Run, tasksById: map<TaskId, Task>, best: map<TaskId, nat>)
    requires RunInv(log, r) && TableJoined(log, r.now, r.applied, tasksById, best)
    ensures RunInv(log, r.(state := r.state.(tasksById := tasksById), best := best))
  {
    hide TableJoined, Shows, Pos;
  }

  lemma StepKeepsInv(log: seq<TaskEvent>, r: Run, step: ClientStep)
    requires WellFormed(log) && RunInv(log, r)
    ensures RunInv(log, StepRun(log, r, step))
  {
    hide RunInv, Newest, DetailTracks, TableJoined, Reduce, DetailOf, Installed;
    match step
    case Commit => CommitKeepsInv(log, r);
    case Deliver => if r.applied < r.now && r.now <= |log| { DeliverKeepsInv(log, r); }
    case Redeliver => RedeliverKeepsInv(log, r);
    case FetchAnswers(generation, readAt) => AnswerKeepsInv(log, r, generation, readAt);
    case Recover(readAt, bootstrap) => RecoverKeepsInv(log, r, readAt, bootstrap);
    case RestTask(t, readAt) => UpsertKeepsInv(log, r, t, readAt, step);
    case CancelAnswers(t, readAt) => UpsertKeepsInv(log, r, t, readAt, step);
    case Select(_) => SelectionKeepsInv(log, r, step);
    case SendFetch => SelectionKeepsInv(log, r, step);
    case FetchFails(_, _) => SelectionKeepsInv(log, r, step);
    case Elsewhere(action) => ElsewhereKeepsInv(log, r, action);
  }

  lemma ElsewhereKeepsInv(log: seq<TaskEvent>, r: Run, action: Action)
    requires RunInv(log, r)
    ensures RunInv(log, StepRun(log, r, Elsewhere(action)))
  {
    hide RunInv;
    if IsElsewhere(action) { SameViewKeepsInv(log, r, Reduce(r.state, action)); }
  }

  lemma CommitKeepsInv(log: seq<TaskEvent>, r: Run)
    requires RunInv(log, r)
    ensures RunInv(log, StepRun(log, r, Commit))
  {
    if r.now < |log| { NowGrows(log, r); }
  }

  lemma RedeliverKeepsInv(log: seq<TaskEvent>, r: Run)
    requires WellFormed(log) && RunInv(log, r)
    ensures RunInv(log, StepRun(log, r, Redeliver)) && StepRun(log, r, Redeliver) == r
  {
    if 0 < r.applied {
      assert LegalNext(Row(log[..r.applied - 1], log[r.applied - 1].taskId), log[r.applied - 1]);
      assert LastId(log[..r.applied]) == log[r.applied - 1].id;
    }
    hide TableJoined, DetailTracks, FetchesTrack;
  }

  lemma SelectionKeepsInv(log: seq<TaskEvent>, r: Run, step: ClientStep)
    requires RunInv(log, r) && (step.Select? || step.SendFetch? || step.FetchFails?)
    ensures RunInv(log, StepRun(log, r, step))
  {
    hide RunInv, StepRun;
    match step
    case Select(t) => SelectKeepsInv(log, r, t);
    case SendFetch => SendKeepsInv(log, r);
    case FetchFails(generation, message) => FailureKeepsInv(log, r, generation, message);
  }

  lemma SelectKeepsInv(log: seq<TaskEvent>, r: Run, t: TaskId)
    requires RunInv(log, r)
    ensures RunInv(log, StepRun(log, r, Select(t)))
  {
    hide TableJoined, Shows, EventsOf, Pos;
    NothingApplied(log, r.applied);
  }

  lemma SendKeepsInv(log: seq<TaskEvent>, r: Run)
    requires RunInv(log, r)
    ensures RunInv(log, StepRun(log, r, SendFetch))
  {
    hide TableJoined, Shows, EventsOf, Pos;
  }

  lemma FailureKeepsInv(log: seq<TaskEvent>, r: Run, generation: nat, message: string)
    requires RunInv(log, r)
    ensures RunInv(log, StepRun(log, r, FetchFails(generation, message)))
  {
    hide TableJoined, Shows, EventsOf, Pos;
  }

  lemma NothingApplied(log: seq<TaskEvent>, applied: nat)
    requires applied <= |log|
    ensures forall t :: EventsOf(log[applied..applied], t) == []
  {
    assert log[applied..applied] == [];
  }

  // ----- the main results -----

  ghost predicate IsClientRun(log: seq<TaskEvent>, runs: seq<Run>, steps: seq<ClientStep>) {
    && |runs| == |steps| + 1 && runs[0] == Start()
    && forall i | 0 <= i < |steps| :: runs[i + 1] == StepRun(log, runs[i], steps[i])
  }

  lemma StartIsFine(log: seq<TaskEvent>)
    ensures RunInv(log, Start())
  {
  }

  lemma {:induction false} EveryClientRunKeepsInv(log: seq<TaskEvent>, runs: seq<Run>, steps: seq<ClientStep>, n: nat)
    requires WellFormed(log) && IsClientRun(log, runs, steps) && n < |runs|
    ensures RunInv(log, runs[n])
  {
    hide RunInv, WellFormed;
    if n == 0 {
      StartIsFine(log);
    } else {
      EveryClientRunKeepsInv(log, runs, steps, n - 1);
      StepKeepsInv(log, runs[n - 1], steps[n - 1]);
    }
  }

  lemma PosOfMax(log: seq<TaskEvent>, applied: nat, cursor: nat)
    requires Ascending(log) && applied <= |log|
    ensures Pos(log, Max(cursor, LastId(log[..applied]))) == Max(applied, Pos(log, cursor))
  {
    PosOfPrefix(log, applied);
    if cursor <= LastId(log[..applied]) {
      PosMonotone(log, cursor, LastId(log[..applied]));
    } else {
      PosMonotone(log, LastId(log[..applied]), cursor);
    }
  }

  // In every run, a loaded detail is what the server would answer for the longer of the prefix
  // it was read at and the events applied, up to the cursor it reports.
  lemma SelectedDetailIsProjection(log: seq<TaskEvent>, runs: seq<Run>, steps: seq<ClientStep>, n: nat)
    requires WellFormed(log) && IsClientRun(log, runs, steps) && n < |runs| && runs[n].state.selectedDetail.Some?
    ensures var d := runs[n].state.selectedDetail.value;
            var k := Pos(log, Max(d.eventCursor, runs[n].state.appliedEventId));
            && k <= runs[n].now && DetailOf(log[..k], d.task.id).Some?
            && d == DetailOf(log[..k], d.task.id).value.(eventCursor := d.eventCursor)
  {
    hide WellFormed, TableJoined, FetchesTrack, DetailOf, Pos, LastId, IsClientRun;
    EveryClientRunKeepsInv(log, runs, steps, n);
    var r := runs[n];
    var d := r.state.selectedDetail.value;
    WellFormedAscends(log);
    PosOfMax(log, r.applied, d.eventCursor);
    var k := Max(r.applied, Pos(log, d.eventCursor));
    SameButCursor(d, DetailOf(log[..k], d.task.id).value);
  }

  lemma SameButCursor(a: TaskDetail, b: TaskDetail)
    requires a.(eventCursor := 0) == b.(eventCursor := 0)
    ensures a == b.(eventCursor := a.eventCursor)
  {
    assert a.(eventCursor := 0).(eventCursor := a.eventCursor) == b.(eventCursor := 0).(eventCursor := a.eventCursor);
  }

  lemma TableStepsForward(log: seq<TaskEvent>, r: Run, step: ClientStep, t: TaskId)
    requires WellFormed(log) && RunInv(log, r) && !step.Recover? && t in r.state.tasksById
    ensures var after := StepRun(log, r, step).state.tasksById;
            && t in after && r.state.tasksById[t].lastEventId <= after[t].lastEventId
            && (r.state.tasksById[t].IsTerminal() ==> after[t] == r.state.tasksById[t])
  {
    StepKeepsInv(log, r, step);
    var next := StepRun(log, r, step);
    BestOnlyGrows(log, r, step, t);
    assert IsVersion(log, next.now, t, r.state.tasksById[t]) by {
      assert IsVersion(log, r.now, t, r.state.tasksById[t]);
    }
    VersionsCompare(log, next.now, t, r.state.tasksById[t], next.state.tasksById[t]);
  }

  // Over any stretch of a run without a recovery no row goes backwards, and a final row never
  // changes again.
  lemma {:induction false} TableOnlyMovesForward(log: seq<TaskEvent>, runs: seq<Run>, steps: seq<ClientStep>, m: nat, n: nat, t: TaskId)
    requires WellFormed(log) && IsClientRun(log, runs, steps) && m <= n < |runs|
    requires forall i | m <= i < n :: !steps[i].Recover?
    requires t in runs[m].state.tasksById
    ensures t in runs[n].state.tasksById
    ensures runs[m].state.tasksById[t].lastEventId <= runs[n].state.tasksById[t].lastEventId
    ensures runs[m].state.tasksById[t].IsTerminal() ==> runs[n].state.tasksById[t] == runs[m].state.tasksById[t]
    decreases n
  {
    hide WellFormed, RunInv, StepRun;
    if m < n {
      TableOnlyMovesForward(log, runs, steps, m, n - 1, t);
      EveryClientRunKeepsInv(log, runs, steps, n - 1);
      TableStepsForward(log, runs[n - 1], steps[n - 1], t);
    }
  }

  lemma BestOnlyGrows(log: seq<TaskEvent>, r: Run, step: ClientStep, t: TaskId)
    requires !step.Recover? && t in r.best
    ensures var next := StepRun(log, r, step);
            t in next.best && r.best[t] <= next.best[t] && r.now <= next.now
  {
    hide Reduce, DetailOf, Installed, Row;
  }
}
