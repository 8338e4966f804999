/** What whole runs of the reducer come to, said about the actions alone. */
module ClientLaws {
  import opened Domain
  import opened EventLog
  import opened Projection
  import opened Client
  import opened ClientView
  import opened ClientRun
  import World

  // ----- the parts of the state an action rebuilds -----

  lemma EventRebuilds(state: AgentState, event: TaskEvent)
    ensures var after := ReducePersisted(state, event);
            && after == state.(tasksById := after.tasksById, taskOrder := after.taskOrder, selectedDetail := after.selectedDetail,
                               liveBufferByTaskId := after.liveBufferByTaskId, appliedEventId := after.appliedEventId,
                               cancelByTaskId := after.cancelByTaskId, connection := after.connection,
                               recoveryReason := after.recoveryReason)
            && after.cancelByTaskId == (if event.schemaVersion == 1 && event.id > state.appliedEventId
                                        then CommandsAfter(state, event) else state.cancelByTaskId)
            && (if event.schemaVersion == 1 && event.id >= state.appliedEventId
                then after.connection == state.connection && after.recoveryReason == state.recoveryReason
                     && after.appliedEventId == event.id
                else after == ToProtocolError(state, if event.schemaVersion != 1 then "unsupported_schema_version" else "non_monotonic_event_id"))
            && (event.schemaVersion == 1 && event.id == state.appliedEventId ==> after == state)
  {
    hide UpdateSummary, DetailAfter, BufferAfter, CommandsAfter;
    SummaryTouchesTasksOnly(state, event);
  }

  lemma InstallRebuilds(state: AgentState, t: TaskId, generation: nat, detail: TaskDetail)
    ensures var after := Install(state, t, generation, detail);
            after == state.(tasksById := after.tasksById, taskOrder := after.taskOrder, selectedDetail := after.selectedDetail,
                            detailLoading := after.detailLoading, detailError := after.detailError,
                            liveBufferByTaskId := after.liveBufferByTaskId)
  {
    hide Installed;
  }

  lemma UpsertRebuilds(state: AgentState, task: Task)
    ensures var after := UpsertRestTask(state, task);
            && after == state.(tasksById := after.tasksById, taskOrder := after.taskOrder)
            && task.id in after.tasksById
            && (after.tasksById[task.id] == task || (task.id in state.tasksById && after.tasksById[task.id] == state.tasksById[task.id]))
            && (task.id !in state.tasksById ==> after.tasksById[task.id] == task)
  {
  }

  lemma BootstrapRebuilds(state: AgentState, bootstrap: Bootstrap)
    ensures var after := ReduceBootstrap(state, bootstrap);
            && after.tasksById == Normalize(TaskKey, bootstrap.tasks).0 && after.connection == Live && after.recoveryReason == None
            && after.diagnostics == state.diagnostics
            && after.cancelByTaskId == Reconcile(state.cancelByTaskId, after.tasksById)
            && after.selectedTaskId == (if state.selectedTaskId.Some? && state.selectedTaskId.value in after.tasksById
                                        then state.selectedTaskId else None)
            && (if bootstrap.serviceGeneration >= state.serviceGeneration
                then after.serviceState == Some(bootstrap.serviceState) && after.serviceGeneration == bootstrap.serviceGeneration
                else after.serviceState == state.serviceState && after.serviceGeneration == state.serviceGeneration)
  {
    hide Normalize, Reconcile;
  }

  // Each action by itself.

  lemma StartedIs(state: AgentState)
    ensures Reduce(state, BootstrapStarted) == state.(connection := Bootstrapping, recoveryReason := None)
  {
  }

  lemma FailedIs(state: AgentState, reason: string, protocol: bool)
    ensures Reduce(state, BootstrapFailed(reason, protocol))
         == state.(connection := if protocol then ProtocolError else Unavailable, recoveryReason := Some(reason))
  {
  }

  lemma ConnectionIs(state: AgentState, connection: Connection, why: Option<string>)
    ensures Reduce(state, ConnectionChanged(connection, why)) == state.(connection := connection, recoveryReason := why)
  {
  }

  lemma ExpiredIs(state: AgentState)
    ensures Reduce(state, ExpireSession)
         == state.(connection := SessionExpired, recoveryReason := Some("session_expired"), cancelByTaskId := map[])
  {
  }

  lemma RepositoryIs(state: AgentState, repository: Repository)
    ensures var after := Reduce(state, RepositoryUpserted(repository));
            after == state.(repositoriesById := after.repositoriesById, repositoryOrder := after.repositoryOrder)
  {
  }

  lemma SelectIs(state: AgentState, t: TaskId)
    ensures var after := Reduce(state, TaskSelected(t));
            after == state.(selectedTaskId := Some(t), selectedDetail := None, selectionGeneration := after.selectionGeneration,
                            detailLoading := true, detailError := None, liveBufferByTaskId := after.liveBufferByTaskId)
  {
  }

  lemma DetailIs(state: AgentState, t: TaskId, generation: nat, detail: TaskDetail)
    ensures Reduce(state, DetailReceived(t, generation, detail)) == Install(state, t, generation, detail)
  {
    hide Install;
  }

  lemma DetailFailedIs(state: AgentState, t: TaskId, generation: nat, message: string)
    ensures var after := Reduce(state, DetailFailed(t, generation, message));
            after == state.(detailLoading := after.detailLoading, detailError := after.detailError)
  {
  }

  lemma EventIs(state: AgentState, event: TaskEvent)
    ensures Reduce(state, EventReceived(event)) == ReducePersisted(state, event)
  {
    hide ReducePersisted;
  }

  lemma UnknownIs(state: AgentState, id: nat, kind: string, schemaVersion: nat)
    ensures var after := Reduce(state, EventUnknown(id, kind, schemaVersion));
            if schemaVersion != 1 || id < state.appliedEventId
            then after == state.(connection := ProtocolError, recoveryReason := after.recoveryReason) && after.recoveryReason.Some?
            else if id == state.appliedEventId then after == state
            else after == state.(appliedEventId := id,
                                 diagnostics := LastOf(state.diagnostics + [Diagnostic(id, kind, schemaVersion)], MAX_DIAGNOSTICS))
  {
    hide LastOf;
  }

  lemma ServiceIs(state: AgentState, service: World.ServiceState, generation: nat)
    ensures Reduce(state, ServiceReceived(service, generation))
         == if generation <= state.serviceGeneration then state else state.(serviceState := Some(service), serviceGeneration := generation)
  {
  }

  lemma UpsertIs(state: AgentState, task: Task)
    ensures Reduce(state, TaskUpserted(task)) == UpsertRestTask(state, task)
  {
    hide UpsertRestTask;
  }

  lemma CancelStartedIs(state: AgentState, t: TaskId)
    ensures Reduce(state, CancelStarted(t)) == state.(cancelByTaskId := state.cancelByTaskId[t := Pending])
  {
  }

  lemma CancelAnswerIs(state: AgentState, task: Task)
    ensures var after := Reduce(state, CancelSucceeded(task));
            && after == state.(tasksById := after.tasksById, taskOrder := after.taskOrder, cancelByTaskId := after.cancelByTaskId)
            && task.id in after.tasksById
            && after.cancelByTaskId == if after.tasksById[task.id].IsTerminal() then state.cancelByTaskId - {task.id} else state.cancelByTaskId
  {
    hide UpsertRestTask;
    UpsertRebuilds(state, task);
  }

  lemma CancelFailedIs(state: AgentState, t: TaskId, code: string)
    ensures Reduce(state, CancelFailed(t, code))
         == state.(cancelByTaskId := if t in state.tasksById && state.tasksById[t].IsTerminal() then state.cancelByTaskId - {t}
                                     else state.cancelByTaskId[t := CancelCommand.Failed(code)])
  {
  }

  // The parts that only five actions change: selection, service state, unknown events, repositories.
  ghost predicate SameControl(a: AgentState, b: AgentState) {
    && b.selectedTaskId == a.selectedTaskId && b.selectionGeneration == a.selectionGeneration
    && b.serviceState == a.serviceState && b.serviceGeneration == a.serviceGeneration
    && b.diagnostics == a.diagnostics && b.repositoriesById == a.repositoriesById && b.repositoryOrder == a.repositoryOrder
  }

  predicate IsControl(action: Action) {
    action.BootstrapReceived? || action.RepositoryUpserted? || action.TaskSelected? || action.EventUnknown? || action.ServiceReceived?
  }

  lemma KeepsControl(state: AgentState, action: Action)
    requires !IsControl(action)
    ensures SameControl(state, Reduce(state, action))
  {
    hide Reduce, Install, ReducePersisted, UpsertRestTask;
    match action
    case BootstrapStarted => StartedIs(state);
    case BootstrapFailed(reason, protocol) => FailedIs(state, reason, protocol);
    case ConnectionChanged(connection, why) => ConnectionIs(state, connection, why);
    case ExpireSession => ExpiredIs(state);
    case TaskUpserted(task) =>
      UpsertIs(state, task);
      UpsertRebuilds(state, task);
    case DetailReceived(t, generation, detail) =>
      DetailIs(state, t, generation, detail);
      InstallRebuilds(state, t, generation, detail);
    case DetailFailed(t, generation, message) => DetailFailedIs(state, t, generation, message);
    case EventReceived(event) =>
      EventIs(state, event);
      EventRebuilds(state, event);
    case CancelStarted(t) => CancelStartedIs(state, t);
    case CancelSucceeded(task) => CancelAnswerIs(state, task);
    case CancelFailed(t, code) => CancelFailedIs(state, t, code);
  }

  // What the other five leave alone.
  lemma OthersKeep(state: AgentState, action: Action)
    requires action.RepositoryUpserted? || action.TaskSelected? || action.EventUnknown? || action.ServiceReceived?
    ensures var after := Reduce(state, action);
            && (!action.TaskSelected? ==> after.selectedTaskId == state.selectedTaskId && after.selectionGeneration == state.selectionGeneration)
            && (!action.ServiceReceived? ==> after.serviceState == state.serviceState && after.serviceGeneration == state.serviceGeneration)
            && (!action.EventUnknown? ==> after.diagnostics == state.diagnostics)
            && (!action.RepositoryUpserted? ==> after.repositoriesById == state.repositoriesById && after.repositoryOrder == state.repositoryOrder)
  {
    hide Reduce, LastOf;
    match action
    case RepositoryUpserted(repository) => RepositoryIs(state, repository);
    case TaskSelected(t) => SelectIs(state, t);
    case EventUnknown(id, kind, schemaVersion) => UnknownIs(state, id, kind, schemaVersion);
    case ServiceReceived(service, generation) => ServiceIs(state, service, generation);
  }

  lemma BootstrapControls(state: AgentState, bootstrap: Bootstrap)
    ensures Reduce(state, BootstrapReceived(bootstrap)) == ReduceBootstrap(state, bootstrap)
  {
    hide ReduceBootstrap;
  }

  // ----- the selection -----

  // A bootstrap in which the task does not occur.
  ghost predicate Drops(action: Action, t: TaskId) {
    action.BootstrapReceived? && forall i | 0 <= i < |action.bootstrap.tasks| :: action.bootstrap.tasks[i].id != t
  }

  ghost predicate LeavesSelection(action: Action, t: TaskId) {
    !action.TaskSelected? && !Drops(action, t)
  }

  lemma SelectionStays(state: AgentState, action: Action, t: TaskId)
    requires state.selectedTaskId == Some(t) && LeavesSelection(action, t)
    ensures Reduce(state, action).selectedTaskId == Some(t)
  {
    hide Reduce, ReduceBootstrap, Normalize, Tabulates;
    if action.BootstrapReceived? {
      BootstrapControls(state, action.bootstrap);
      BootstrapRebuilds(state, action.bootstrap);
      BootstrapLists(action.bootstrap, t);
    } else if IsControl(action) {
      OthersKeep(state, action);
    } else {
      KeepsControl(state, action);
    }
  }

  lemma BootstrapLists(bootstrap: Bootstrap, t: TaskId)
    ensures t in Normalize(TaskKey, bootstrap.tasks).0 <==> exists i :: 0 <= i < |bootstrap.tasks| && bootstrap.tasks[i].id == t
  {
    hide Normalize;
    NormalizedMeans(TaskKey, bootstrap.tasks);
    if t in Normalize(TaskKey, bootstrap.tasks).0 {
      assert IsLast(TaskKey, bootstrap.tasks, t, Normalize(TaskKey, bootstrap.tasks).0[t]);
    }
    if i :| 0 <= i < |bootstrap.tasks| && bootstrap.tasks[i].id == t { assert TaskKey(bootstrap.tasks[i]) == t; }
  }

  lemma SelectionComesFrom(state: AgentState, action: Action, t: TaskId)
    requires Reduce(state, action).selectedTaskId == Some(t)
    ensures action == TaskSelected(t) || (state.selectedTaskId == Some(t) && LeavesSelection(action, t))
  {
    hide Reduce, ReduceBootstrap, Normalize, Tabulates;
    if action.BootstrapReceived? {
      BootstrapControls(state, action.bootstrap);
      BootstrapRebuilds(state, action.bootstrap);
      BootstrapLists(action.bootstrap, t);
    } else if action.TaskSelected? {
      SelectsAtOnce(state, action.t);
    } else if IsControl(action) {
      OthersKeep(state, action);
    } else {
      KeepsControl(state, action);
    }
  }

  // `t` is the task that was selected last, and no bootstrap since has dropped it.
  ghost predicate SelectedLast(actions: seq<Action>, t: TaskId) {
    exists k :: 0 <= k < |actions| && actions[k] == TaskSelected(t) && forall i | k < i < |actions| :: LeavesSelection(actions[i], t)
  }

  // In every run the selected task is the one that was selected last.
  lemma {:induction false} SelectionIsLast(actions: seq<Action>, t: TaskId)
    ensures ReduceActions(InitialState(), actions).selectedTaskId == Some(t) <==> SelectedLast(actions, t)
    decreases |actions|
  {
    hide Reduce, LeavesSelection;
    if actions != [] {
      var front, last := actions[..|actions| - 1], actions[|actions| - 1];
      var before := ReduceActions(InitialState(), front);
      SelectionIsLast(front, t);
      SelectsAtOnce(before, t);
      assert actions == front + [last];
      SelectedNow(front, t);
      if before.selectedTaskId == Some(t) && LeavesSelection(last, t) {
        SelectionStays(before, last, t);
        LastStaysLast(front, last, t);
      }
      if Reduce(before, last).selectedTaskId == Some(t) { SelectionComesFrom(before, last, t); }
      if SelectedLast(actions, t) { LastWasLast(front, last, t); }
    }
  }

  lemma SelectsAtOnce(state: AgentState, t: TaskId)
    ensures Reduce(state, TaskSelected(t)).selectedTaskId == Some(t)
  {
  }

  lemma SelectedNow(front: seq<Action>, t: TaskId)
    ensures SelectedLast(front + [TaskSelected(t)], t)
  {
    assert (front + [TaskSelected(t)])[|front|] == TaskSelected(t);
  }

  lemma LastStaysLast(front: seq<Action>, last: Action, t: TaskId)
    requires SelectedLast(front, t) && LeavesSelection(last, t)
    ensures SelectedLast(front + [last], t)
  {
    hide LeavesSelection;
    var k :| 0 <= k < |front| && front[k] == TaskSelected(t) && forall i | k < i < |front| :: LeavesSelection(front[i], t);
    assert (front + [last])[k] == TaskSelected(t);
  }

  lemma LastWasLast(front: seq<Action>, last: Action, t: TaskId)
    requires SelectedLast(front + [last], t)
    ensures last == TaskSelected(t) || (LeavesSelection(last, t) && SelectedLast(front, t))
  {
    hide LeavesSelection;
    var all := front + [last];
    var k :| 0 <= k < |all| && all[k] == TaskSelected(t) && forall i | k < i < |all| :: LeavesSelection(all[i], t);
    if k < |front| {
      assert front[k] == all[k] && LeavesSelection(all[|front|], t);
      forall i | k < i < |front| ensures LeavesSelection(front[i], t) { assert LeavesSelection(all[i], t); }
    }
  }

  // ----- a selected task is shown -----

  // Select, ask, answer: afterwards the detail is there, and it is the server's projection of
  // what was committed when the answer was read or applied since.
  lemma SelectedIsShown(log: seq<TaskEvent>, r: Run, t: TaskId, readAt: nat)
    requires WellFormed(log) && RunInv(log, r) && r.applied <= readAt <= r.now && DetailOf(log[..readAt], t).Some?
    ensures var selected := StepRun(log, r, Select(t));
            var asked := StepRun(log, selected, SendFetch);
            var shown := StepRun(log, asked, FetchAnswers(asked.state.selectionGeneration, readAt));
            && selected.state.selectedTaskId == Some(t) && selected.state.detailLoading && selected.state.selectedDetail.None?
            && shown.state.selectedTaskId == Some(t) && !shown.state.detailLoading && shown.state.detailError.None?
            && shown.state.selectedDetail.Some? && RunInv(log, shown)
            && shown.state.selectedDetail.value.task.id == t
  {
    hide WellFormed, RunInv, Installed, DetailOf;
    InvBounds(log, r);
    var selected := StepRun(log, r, Select(t));
    StepKeepsInv(log, r, Select(t));
    FreshSelection(log, r, t);
    var asked := StepRun(log, selected, SendFetch);
    StepKeepsInv(log, selected, SendFetch);
    var answer := FetchAnswers(asked.state.selectionGeneration, readAt);
    StepKeepsInv(log, asked, answer);
    ShownOne(log, StepRun(log, asked, answer), t);
  }

  // The new selection has a new generation, so no request of it is under way.
  lemma FreshSelection(log: seq<TaskEvent>, r: Run, t: TaskId)
    requires RunInv(log, r)
    ensures StepRun(log, r, Select(t)).state.selectionGeneration !in r.fetches
  {
    hide TableJoined, DetailTracks;
  }

  lemma ShownOne(log: seq<TaskEvent>, r: Run, t: TaskId)
    requires RunInv(log, r) && r.state.selectedTaskId == Some(t) && r.state.selectedDetail.Some?
    ensures r.state.selectedDetail.value.task.id == t
  {
    InvBounds(log, r);
  }

  // ----- the service state -----

  // The state and generation that an action reports, if it reports one.
  function Reported(action: Action): Option<World.Service> {
    match action
    case BootstrapReceived(b) => Some(World.Service(b.serviceState, b.serviceGeneration))
    case ServiceReceived(state, generation) => Some(World.Service(state, generation))
    case _ => None
  }

  ghost predicate WasReported(actions: seq<Action>, service: World.Service) {
    exists i :: 0 <= i < |actions| && Reported(actions[i]) == Some(service)
  }

  lemma ServiceStep(state: AgentState, action: Action)
    ensures var after := Reduce(state, action);
            && (Reported(action).None? ==> after.serviceState == state.serviceState && after.serviceGeneration == state.serviceGeneration)
            && (Reported(action).Some? ==>
                  && after.serviceGeneration >= Reported(action).value.generation && after.serviceGeneration >= state.serviceGeneration
                  && ((after.serviceState == state.serviceState && after.serviceGeneration == state.serviceGeneration
                       && Reported(action).value.generation <= state.serviceGeneration)
                      || (after.serviceState == Some(Reported(action).value.state)
                          && after.serviceGeneration == Reported(action).value.generation)))
  {
    hide Reduce, ReduceBootstrap;
    match action
    case BootstrapReceived(bootstrap) =>
      BootstrapControls(state, bootstrap);
      BootstrapRebuilds(state, bootstrap);
    case ServiceReceived(service, generation) => ServiceIs(state, service, generation);
    case _ => if IsControl(action) { OthersKeep(state, action); } else { KeepsControl(state, action); }
  }

  // In every run the service state shown is one that was reported, with the greatest generation
  // that was reported. Generation 0 counts only in a bootstrap.
  lemma {:induction false} ServiceIsNewest(actions: seq<Action>)
    ensures var state := ReduceActions(InitialState(), actions);
            && (forall i | 0 <= i < |actions| && Reported(actions[i]).Some? ::
                  Reported(actions[i]).value.generation <= state.serviceGeneration)
            && (state.serviceState.Some? ==> WasReported(actions, World.Service(state.serviceState.value, state.serviceGeneration)))
            && (state.serviceState.None? ==> state.serviceGeneration == 0)
    decreases |actions|
  {
    hide Reduce;
    if actions != [] {
      var front, last := actions[..|actions| - 1], actions[|actions| - 1];
      var before := ReduceActions(InitialState(), front);
      ServiceIsNewest(front);
      ServiceStep(before, last);
      assert actions[|front|] == last;
      forall i | 0 <= i < |actions| && Reported(actions[i]).Some?
        ensures Reported(actions[i]).value.generation <= Reduce(before, last).serviceGeneration {
        if i < |front| { assert front[i] == actions[i]; }
      }
      if before.serviceState.Some? {
        var i :| 0 <= i < |front| && Reported(front[i]) == Some(World.Service(before.serviceState.value, before.serviceGeneration));
        assert actions[i] == front[i];
      }
    }
  }

  // ----- unknown events -----

  // What an action adds to the unknown events of a run.
  function Unknown(state: AgentState, action: Action): seq<Diagnostic> {
    match action
    case EventUnknown(id, kind, schemaVersion) =>
      if schemaVersion == 1 && id > state.appliedEventId then [Diagnostic(id, kind, schemaVersion)] else []
    case _ => []
  }

  ghost function Unknowns(actions: seq<Action>): seq<Diagnostic> {
    if actions == [] then []
    else
      var front := actions[..|actions| - 1];
      Unknowns(front) + Unknown(ReduceActions(InitialState(), front), actions[|actions| - 1])
  }

  // `kept` are the last 100 of `all`.
  ghost predicate LastHundred(kept: seq<Diagnostic>, all: seq<Diagnostic>) {
    exists dropped :: dropped + kept == all && |kept| <= 100 && (dropped != [] ==> |kept| == 100)
  }

  // In every run the diagnostics are the last hundred unknown events.
  lemma {:induction false} DiagnosticsAreTheLast(actions: seq<Action>)
    ensures LastHundred(ReduceActions(InitialState(), actions).diagnostics, Unknowns(actions))
    decreases |actions|
  {
    hide Reduce, Unknown;
    if actions == [] {
      assert [] + InitialState().diagnostics == Unknowns([]);
    } else {
      var front, last := actions[..|actions| - 1], actions[|actions| - 1];
      DiagnosticsAreTheLast(front);
      DiagnosticStep(ReduceActions(InitialState(), front), last, Unknowns(front));
    }
  }

  lemma DiagnosticStep(state: AgentState, action: Action, all: seq<Diagnostic>)
    requires LastHundred(state.diagnostics, all)
    ensures LastHundred(Reduce(state, action).diagnostics, all + Unknown(state, action))
  {
    hide Reduce, ReduceBootstrap, LastHundred, LastOf;
    match action {
      case BootstrapReceived(bootstrap) =>
        BootstrapControls(state, bootstrap);
        BootstrapRebuilds(state, bootstrap);
      case EventUnknown(id, kind, schemaVersion) => UnknownIs(state, id, kind, schemaVersion);
      case _ => if IsControl(action) { OthersKeep(state, action); } else { KeepsControl(state, action); }
    }
    if Unknown(state, action) != [] {
      LastHundredMore(state.diagnostics, all, Unknown(state, action)[0]);
      assert Unknown(state, action) == [Unknown(state, action)[0]];
    } else {
      assert all + [] == all;
    }
  }

  lemma LastHundredMore(kept: seq<Diagnostic>, all: seq<Diagnostic>, one: Diagnostic)
    requires LastHundred(kept, all)
    ensures LastHundred(LastOf(kept + [one], MAX_DIAGNOSTICS), all + [one])
  {
    var dropped :| dropped + kept == all && |kept| <= 100 && (dropped != [] ==> |kept| == 100);
    var more := kept + [one];
    if |more| <= 100 {
      assert dropped + more == all + [one];
    } else {
      assert (dropped + [more[0]]) + more[1..] == all + [one];
    }
  }

  // ----- what an action leaves alone, and what it settles -----

  // The table of tasks and the cursor.
  lemma TableIsTouched(state: AgentState, action: Action)
    requires !action.BootstrapReceived? && !action.EventReceived?
    ensures var after := Reduce(state, action);
            && (action.TaskUpserted? || action.DetailReceived? || action.CancelSucceeded?
                || (after.tasksById == state.tasksById && after.taskOrder == state.taskOrder))
            && (action.EventUnknown? || after.appliedEventId == state.appliedEventId)
  {
    hide Reduce, Install, UpsertRestTask, LastOf;
    match action
    case BootstrapStarted => StartedIs(state);
    case BootstrapFailed(reason, protocol) => FailedIs(state, reason, protocol);
    case ConnectionChanged(connection, why) => ConnectionIs(state, connection, why);
    case ExpireSession => ExpiredIs(state);
    case RepositoryUpserted(repository) => RepositoryIs(state, repository);
    case TaskUpserted(task) =>
      UpsertIs(state, task);
      UpsertRebuilds(state, task);
    case TaskSelected(t) => SelectIs(state, t);
    case DetailReceived(t, generation, detail) =>
      DetailIs(state, t, generation, detail);
      InstallRebuilds(state, t, generation, detail);
    case DetailFailed(t, generation, message) => DetailFailedIs(state, t, generation, message);
    case EventUnknown(id, kind, schemaVersion) => UnknownIs(state, id, kind, schemaVersion);
    case ServiceReceived(service, generation) => ServiceIs(state, service, generation);
    case CancelStarted(t) => CancelStartedIs(state, t);
    case CancelSucceeded(task) => CancelAnswerIs(state, task);
    case CancelFailed(t, code) => CancelFailedIs(state, t, code);
  }

  // Between bootstraps the orders only grow at their end: nothing moves in a list.
  lemma OrdersAppend(state: AgentState, action: Action)
    requires !action.BootstrapReceived?
    ensures state.taskOrder <= Reduce(state, action).taskOrder
    ensures state.repositoryOrder <= Reduce(state, action).repositoryOrder
  {
    hide Reduce, Install, ReducePersisted, UpsertRestTask, LastOf;
    if action.EventReceived? {
      EventIs(state, action.event);
      EventRebuilds(state, action.event);
      EventAppends(state, action.event);
    } else if action.DetailReceived? {
      DetailIs(state, action.t, action.generation, action.detail);
      InstallRebuilds(state, action.t, action.generation, action.detail);
      InstallAppends(state, action.t, action.generation, action.detail);
    } else if action.TaskUpserted? {
      UpsertIs(state, action.task);
      UpsertRebuilds(state, action.task);
      UpsertAppends(state, action.task);
    } else if action.CancelSucceeded? {
      CancelAnswerIs(state, action.task);
      CancelAppends(state, action.task);
    } else if action.RepositoryUpserted? {
      RepositoryAppends(state, action.repository);
    } else {
      TableIsTouched(state, action);
      if IsControl(action) { OthersKeep(state, action); } else { KeepsControl(state, action); }
    }
  }

  lemma EventAppends(state: AgentState, event: TaskEvent)
    ensures state.taskOrder <= ReducePersisted(state, event).taskOrder
  {
    hide ReducePersisted, UpdateSummary;
    SummaryAppends(state, event);
    if IsNew(state, event) { NewTables(state, event); } else { OldTables(state, event); }
  }

  lemma SummaryAppends(state: AgentState, event: TaskEvent)
    ensures state.taskOrder <= UpdateSummary(state, event).taskOrder
  {
  }

  lemma InstallAppends(state: AgentState, t: TaskId, generation: nat, detail: TaskDetail)
    ensures state.taskOrder <= Install(state, t, generation, detail).taskOrder
  {
    hide Installed;
  }

  lemma UpsertAppends(state: AgentState, task: Task)
    ensures state.taskOrder <= UpsertRestTask(state, task).taskOrder
  {
  }

  lemma CancelAppends(state: AgentState, task: Task)
    ensures state.taskOrder <= Reduce(state, CancelSucceeded(task)).taskOrder
  {
    hide UpsertRestTask;
    UpsertAppends(state, task);
  }

  lemma RepositoryAppends(state: AgentState, repository: Repository)
    ensures var after := Reduce(state, RepositoryUpserted(repository));
            state.repositoryOrder <= after.repositoryOrder && after.taskOrder == state.taskOrder
  {
  }

  // The detail, its loading state and the live buffer.
  lemma DetailIsTouched(state: AgentState, action: Action)
    requires !action.BootstrapReceived? && !action.TaskSelected? && !action.DetailReceived? && !action.EventReceived?
    ensures var after := Reduce(state, action);
            && after.selectedDetail == state.selectedDetail && after.liveBufferByTaskId == state.liveBufferByTaskId
            && (action.DetailFailed? || (after.detailLoading == state.detailLoading && after.detailError == state.detailError))
  {
    hide Reduce, UpsertRestTask, LastOf;
    match action
    case BootstrapStarted => StartedIs(state);
    case BootstrapFailed(reason, protocol) => FailedIs(state, reason, protocol);
    case ConnectionChanged(connection, why) => ConnectionIs(state, connection, why);
    case ExpireSession => ExpiredIs(state);
    case RepositoryUpserted(repository) => RepositoryIs(state, repository);
    case TaskUpserted(task) =>
      UpsertIs(state, task);
      UpsertRebuilds(state, task);
    case DetailFailed(t, generation, message) => DetailFailedIs(state, t, generation, message);
    case EventUnknown(id, kind, schemaVersion) => UnknownIs(state, id, kind, schemaVersion);
    case ServiceReceived(service, generation) => ServiceIs(state, service, generation);
    case CancelStarted(t) => CancelStartedIs(state, t);
    case CancelSucceeded(task) => CancelAnswerIs(state, task);
    case CancelFailed(t, code) => CancelFailedIs(state, t, code);
  }

  // A stream action is refused exactly if its schema is another one or its id is behind the
  // cursor; then only the connection says so. The id at the cursor is dropped.
  lemma StreamActionSettles(state: AgentState, action: Action)
    requires action.EventReceived? || action.EventUnknown?
    ensures var id := if action.EventReceived? then action.event.id else action.id;
            var schemaVersion := if action.EventReceived? then action.event.schemaVersion else action.schemaVersion;
            var after := Reduce(state, action);
            if schemaVersion != 1 || id < state.appliedEventId
            then after == state.(connection := ProtocolError, recoveryReason := after.recoveryReason) && after.recoveryReason.Some?
            else if id == state.appliedEventId then after == state
            else after.appliedEventId == id && after.connection == state.connection && after.recoveryReason == state.recoveryReason
  {
    hide Reduce, ReducePersisted, LastOf;
    match action
    case EventReceived(event) =>
      EventIs(state, event);
      EventRebuilds(state, event);
    case EventUnknown(id, kind, schemaVersion) => UnknownIs(state, id, kind, schemaVersion);
  }

  // What the connection says after an action that is not a stream action.
  lemma ConnectionSettles(state: AgentState, action: Action)
    requires !action.EventReceived? && !action.EventUnknown?
    ensures var after := Reduce(state, action);
            match action
            case BootstrapStarted => after.connection == Bootstrapping && after.recoveryReason == None
            case BootstrapReceived(_) => after.connection == Live && after.recoveryReason == None
            case BootstrapFailed(reason, protocol) =>
              after.connection == (if protocol then ProtocolError else Unavailable) && after.recoveryReason == Some(reason)
            case ConnectionChanged(connection, why) => after.connection == connection && after.recoveryReason == why
            case ExpireSession => after.connection == SessionExpired && after.recoveryReason == Some("session_expired")
            case _ => after.connection == state.connection && after.recoveryReason == state.recoveryReason
  {
    hide Reduce, Install, UpsertRestTask, ReduceBootstrap;
    match action
    case BootstrapStarted => StartedIs(state);
    case BootstrapFailed(reason, protocol) => FailedIs(state, reason, protocol);
    case ConnectionChanged(connection, why) => ConnectionIs(state, connection, why);
    case ExpireSession => ExpiredIs(state);
    case RepositoryUpserted(repository) => RepositoryIs(state, repository);
    case TaskUpserted(task) =>
      UpsertIs(state, task);
      UpsertRebuilds(state, task);
    case BootstrapReceived(bootstrap) =>
      BootstrapControls(state, bootstrap);
      BootstrapRebuilds(state, bootstrap);
    case TaskSelected(t) => SelectIs(state, t);
    case DetailReceived(t, generation, detail) =>
      DetailIs(state, t, generation, detail);
      InstallRebuilds(state, t, generation, detail);
    case DetailFailed(t, generation, message) => DetailFailedIs(state, t, generation, message);
    case ServiceReceived(service, generation) => ServiceIs(state, service, generation);
    case CancelStarted(t) => CancelStartedIs(state, t);
    case CancelSucceeded(task) => CancelAnswerIs(state, task);
    case CancelFailed(t, code) => CancelFailedIs(state, t, code);
  }

  // An answer about the detail ends the loading if it is for the present selection, and changes
  // nothing otherwise.
  lemma DetailSettles(state: AgentState, action: Action)
    requires action.DetailReceived? || action.DetailFailed?
    ensures var after := Reduce(state, action);
            if state.selectedTaskId != Some(action.t) || state.selectionGeneration != action.generation then after == state
            else if action.DetailFailed? then
              !after.detailLoading && after.detailError == Some(action.message) && after.selectedDetail == state.selectedDetail
            else
              !after.detailLoading && after.detailError == None && after.selectedDetail.Some?
              && after.liveBufferByTaskId == state.liveBufferByTaskId[action.t := []]
  {
    hide Installed;
  }

  // A repository that was reported is in the table as it was reported, and no other one changes.
  lemma RepositorySettles(state: AgentState, repository: Repository)
    ensures var after := Reduce(state, RepositoryUpserted(repository));
            && repository.id in after.repositoriesById && after.repositoriesById[repository.id] == repository
            && (forall k | k != repository.id :: k in after.repositoriesById <==> k in state.repositoriesById)
            && (forall k | k in state.repositoriesById && k != repository.id :: after.repositoriesById[k] == state.repositoriesById[k])
  {
  }

  // ----- cancel commands -----

  // A command is only ever about the task of its action, except that a bootstrap drops the
  // commands of unknown and final tasks and an expired session drops all.
  lemma CommandsSettle(state: AgentState, action: Action, t: TaskId)
    ensures var before, after := Command(state, t), Command(Reduce(state, action), t);
            match action
            case BootstrapReceived(_) =>
              after == (if t in Reduce(state, action).tasksById && !Reduce(state, action).tasksById[t].IsTerminal() then before else None)
            case ExpireSession => after == None
            case CancelStarted(u) => after == if u == t then Some(Pending) else before
            case CancelFailed(u, code) =>
              after == if u != t then before
                       else if t in state.tasksById && state.tasksById[t].IsTerminal() then None else Some(CancelCommand.Failed(code))
            case CancelSucceeded(task) =>
              after == if task.id == t && Reduce(state, action).tasksById[t].IsTerminal() then None else before
            case EventReceived(event) =>
              after == if event.taskId == t && event.schemaVersion == 1 && event.id > state.appliedEventId && event.payload.Lifecycle?
                          && event.payload.task.IsTerminal()
                       then None else before
            case _ => after == before
  {
    hide Reduce, ReducePersisted, Install, UpsertRestTask, ReduceBootstrap, Normalize;
    match action
    case BootstrapReceived(bootstrap) =>
      BootstrapControls(state, bootstrap);
      BootstrapRebuilds(state, bootstrap);
    case EventReceived(event) =>
      EventIs(state, event);
      EventRebuilds(state, event);
    case CancelSucceeded(task) => CancelAnswerIs(state, task);
    case _ => OtherCommands(state, action, t);
  }

  lemma OtherCommands(state: AgentState, action: Action, t: TaskId)
    requires !action.BootstrapReceived? && !action.EventReceived? && !action.CancelSucceeded?
    ensures var before, after := Command(state, t), Command(Reduce(state, action), t);
            match action
            case ExpireSession => after == None
            case CancelStarted(u) => after == if u == t then Some(Pending) else before
            case CancelFailed(u, code) =>
              after == if u != t then before
                       else if t in state.tasksById && state.tasksById[t].IsTerminal() then None else Some(CancelCommand.Failed(code))
            case _ => after == before
  {
    hide Reduce, Install, UpsertRestTask, LastOf;
    match action
    case BootstrapStarted => StartedIs(state);
    case BootstrapFailed(reason, protocol) => FailedIs(state, reason, protocol);
    case ConnectionChanged(connection, why) => ConnectionIs(state, connection, why);
    case ExpireSession => ExpiredIs(state);
    case RepositoryUpserted(repository) => RepositoryIs(state, repository);
    case TaskUpserted(task) =>
      UpsertIs(state, task);
      UpsertRebuilds(state, task);
    case TaskSelected(u) => SelectIs(state, u);
    case DetailReceived(u, generation, detail) =>
      DetailIs(state, u, generation, detail);
      InstallRebuilds(state, u, generation, detail);
    case DetailFailed(u, generation, message) => DetailFailedIs(state, u, generation, message);
    case EventUnknown(id, kind, schemaVersion) => UnknownIs(state, id, kind, schemaVersion);
    case ServiceReceived(service, generation) => ServiceIs(state, service, generation);
    case CancelStarted(u) => CancelStartedIs(state, u);
    case CancelFailed(u, code) => CancelFailedIs(state, u, code);
  }

  function Command(state: AgentState, t: TaskId): Option<CancelCommand> {
    if t in state.cancelByTaskId then Some(state.cancelByTaskId[t]) else None
  }

  // A cancel answer leaves its task in the table, as it was answered or as it stood.
  lemma CancelAnswerSettles(state: AgentState, task: Task)
    ensures var after := Reduce(state, CancelSucceeded(task));
            && task.id in after.tasksById
            && (after.tasksById[task.id] == task || (task.id in state.tasksById && after.tasksById[task.id] == state.tasksById[task.id]))
            && (task.id !in state.tasksById ==> after.tasksById[task.id] == task)
  {
  }
}
