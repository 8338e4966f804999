/**
 * What the task manager shares with the rest of the process: the store behind its FIFO
 * writer, the mutation gate, the service state, the shutdown flag and the degraded-recovery
 * coordinator. The other actors move in steps; `Rely` is what any number of them may do
 * between two actions of the manager.
 */
module World {
  import opened Domain
  import opened EventLog
  import opened TaskOrder
  import opened StoreModel

  datatype ServiceState = Ready | StoreDegraded | Quiescing
  datatype Service = Service(state: ServiceState, generation: nat)

  // `ServiceStateController::set`: idempotent, and Quiescing is absorbing.
  function SetService(service: Service, next: ServiceState): Result<Service, ServiceState> {
    if service.state == next then Ok(service)
    else if service.state == Quiescing then Err(service.state)
    else Ok(Service(next, service.generation + 1))
  }

  // Commands of the other actors in the writer's queue.
  datatype Command =
    | CreateCommand(request: RequestId, repository: RepositoryId, prompt: string, newId: TaskId, now: Timestamp)
    | RetryCommand(source: TaskId, newId: TaskId, newRequest: RequestId, now: Timestamp)
    | RegisterCommand(repository: RepositoryId)
    | RecoverCommand(now: Timestamp, failure: TaskFailure)

  // `run`: recover, flush, finalize; `Checked` has passed the Quiescing test of its retry
  // loop but not yet sent its command.
  datatype Coordinator =
    | Absent
    | Trying
    | Checked
    | Submitted
    | Recovered(highWatermark: nat)
    | Finalizing(highWatermark: nat)

  // The writer is FIFO. While a command of the manager waits (`ownPending`), `queue` holds
  // what was sent before it and `behind` what was sent after it.
  datatype Shared = Shared(
    db: Db,
    queue: seq<Command>,
    ownPending: bool,
    behind: seq<Command>,
    gateClosed: bool,
    gateActive: nat,
    service: Service,
    frozenFlag: bool,
    coordinator: Coordinator,
    published: nat)

  // How a write that answers `Err` may have ended.
  datatype WriteEnd = Succeeds | RollsBack | CommitsButFails

  datatype EnvStep =
    | EnterGate
    | LeaveGate
    | Enqueue(command: Command)
    | RunWriter(end: WriteEnd)
    | CloseGate
    | RaiseFreezeFlag
    | CoordinatorChecks
    | CoordinatorSends(now: Timestamp, failure: TaskFailure)
    | CoordinatorFlushed
    | CoordinatorGivesUp
    | Publish
    | BurnIds(ids: nat)

  // ----- the mutation gate -----

  // `MutationGate::enter_data_mutation`; a refusal leaves the world unchanged.
  predicate GateAdmits(w: Shared) {
    !w.gateClosed && w.service.state == Ready
  }

  // `begin_quiescing`
  function BeginQuiescing(w: Shared): Shared {
    if w.gateClosed then w
    else
      var service := match SetService(w.service, Quiescing) case Ok(s) => s case Err(_) => w.service;
      w.(gateClosed := true, service := service)
  }

  // ----- the writer -----

  predicate DrawsNew(db: Db, command: Command) {
    match command
    case CreateCommand(_, _, _, newId, _) => newId !in db.rows
    case RetryCommand(_, newId, newRequest, _) => newId !in db.rows && forall t | t in db.rows :: !HasRequest(db, newRequest, t)
    case _ => true
  }

  predicate Grows(command: Command) {
    command.CreateCommand? || command.RetryCommand?
  }

  ghost function OrderOf(db: Db): (ids: seq<TaskId>)
    ensures Lists(db.rows, Incomplete(db), ids)
  {
    ListingExists(db.rows, Incomplete(db));
    var ids :| Lists(db.rows, Incomplete(db), ids);
    ids
  }

  lemma {:induction false} ListingExists(rows: map<TaskId, Task>, wanted: set<TaskId>)
    requires wanted <= rows.Keys
    ensures exists ids :: Lists(rows, wanted, ids)
  {
    if wanted == {} {
      assert Lists(rows, wanted, []);
    } else {
      OldestExists(rows, wanted);
      var t :| t in wanted && forall u | u in wanted && u != t :: Before(rows, t, u);
      ListingExists(rows, wanted - {t});
      var rest :| Lists(rows, wanted - {t}, rest);
      assert forall u :: u in [t] + rest <==> u == t || u in rest;
      assert Lists(rows, wanted, [t] + rest);
    }
  }

  ghost function RecoverAll(db: Db, now: Timestamp, failure: TaskFailure): Db {
    Recover(db, OrderOf(db), now, failure)
  }

  // The effect of one queued command on the store, if it commits.
  ghost function Effect(db: Db, command: Command): Db
    requires Inv(db)
  {
    if !DrawsNew(db, command) then db
    else
      match command
      case CreateCommand(request, repository, prompt, newId, now) => Create(db, request, repository, prompt, newId, now).0
      case RetryCommand(source, newId, newRequest, now) => Retry(db, source, newId, newRequest, now).0
      case RegisterCommand(repository) => db.(repositories := db.repositories + {repository})
      case RecoverCommand(now, failure) => RecoverAll(db, now, failure)
  }

  function Send(w: Shared, command: Command): Shared {
    if w.ownPending then w.(behind := w.behind + [command]) else w.(queue := w.queue + [command])
  }

  ghost function RunHead(w: Shared, end: WriteEnd): Shared
    requires Inv(w.db)
  {
    if w.queue == [] then w
    else
      var db := if end == RollsBack then w.db else Effect(w.db, w.queue[0]);
      var coordinator :=
        if !w.queue[0].RecoverCommand? then w.coordinator
        else if end == Succeeds then Recovered(LastId(db.log)) else Trying;
      w.(db := db, queue := w.queue[1..], coordinator := coordinator)
  }

  // One step of the other actors; a step that is not enabled does nothing.
  ghost function Step(w: Shared, step: EnvStep): Shared
    requires Inv(w.db)
  {
    match step
    case EnterGate => if GateAdmits(w) then w.(gateActive := w.gateActive + 1) else w
    case LeaveGate => if w.gateActive > 0 then w.(gateActive := w.gateActive - 1) else w
    case Enqueue(command) =>
      if (Grows(command) && w.gateActive > 0) || command.RegisterCommand? then Send(w, command) else w
    case RunWriter(end) => RunHead(w, end)
    case CloseGate => BeginQuiescing(w)
    case RaiseFreezeFlag => w.(frozenFlag := true)
    case CoordinatorChecks =>
      if w.coordinator.Trying? && w.service.state != Quiescing then w.(coordinator := Checked) else w
    case CoordinatorSends(now, failure) =>
      if w.coordinator.Checked? then Send(w, RecoverCommand(now, failure)).(coordinator := Submitted) else w
    case CoordinatorFlushed =>
      if w.coordinator.Recovered? && w.service.state != Quiescing && w.coordinator.highWatermark <= w.published
      then w.(coordinator := Finalizing(w.coordinator.highWatermark)) else w
    case CoordinatorGivesUp =>
      if (w.coordinator.Trying? || w.coordinator.Recovered?) && w.service.state == Quiescing
      then w.(coordinator := Absent) else w
    case Publish =>
      var p := Pos(w.db.log, w.published);
      if p < |w.db.log| then w.(published := w.db.log[p].id) else w
    case BurnIds(ids) => w.(db := w.db.(counter := w.db.counter + ids))
  }

  // The moves of the coordinator's own code, given the service state and the dispatcher's cursor
  // it meets: check, send, learn the outcome, flush, finalize, or give up. A recovery that
  // succeeded names the log's last event.
  predicate CoordinatorMoves(from: Coordinator, service: ServiceState, published: nat, to: Coordinator) {
    match from
    case Trying => (to == Checked && service != Quiescing) || (to == Absent && service == Quiescing)
    case Checked => to == Submitted
    case Submitted => to == Trying || to.Recovered?
    case Recovered(high) =>
      (to == Finalizing(high) && service != Quiescing && high <= published) || (to == Absent && service == Quiescing)
    case _ => false
  }

  // Every such move is a step of this world.
  lemma CoordinatorMovesAreSteps(w: Shared, to: Coordinator, now: Timestamp, failure: TaskFailure)
    requires Inv(w.db) && CoordinatorMoves(w.coordinator, w.service.state, w.published, to)
    ensures to == Checked ==> Step(w, CoordinatorChecks) == w.(coordinator := to)
    ensures to == Submitted ==> Step(w, CoordinatorSends(now, failure)) == Send(w, RecoverCommand(now, failure)).(coordinator := to)
    ensures to.Finalizing? ==> Step(w, CoordinatorFlushed) == w.(coordinator := to)
    ensures to == Absent ==> Step(w, CoordinatorGivesUp) == w.(coordinator := to)
    ensures w.coordinator == Submitted && w.queue != [] && w.queue[0].RecoverCommand? ==>
              && Step(w, RunWriter(RollsBack)).coordinator == Trying
              && Step(w, RunWriter(CommitsButFails)).coordinator == Trying
              && Step(w, RunWriter(Succeeds)).coordinator == Recovered(LastId(Effect(w.db, w.queue[0]).log))
  {
    hide Inv, Effect;
  }

  // And no step moves the coordinator otherwise. Only the writer can make it `Recovered`, by
  // running a recovery to success.
  lemma StepsMoveCoordinator(w: Shared, step: EnvStep)
    requires WInv(w)
    ensures var next := Step(w, step);
            && (next.coordinator == w.coordinator || CoordinatorMoves(w.coordinator, w.service.state, w.published, next.coordinator))
            && (next.coordinator.Recovered? && next.coordinator != w.coordinator ==>
                  && step == RunWriter(Succeeds) && w.queue != [] && w.queue[0].RecoverCommand?
                  && next.coordinator.highWatermark == LastId(next.db.log) && Incomplete(next.db) == {})
            && (next.coordinator == w.coordinator || IsOwnStep(step) || w.coordinator == Submitted)
  {
    hide Step, WInv, Inv, Incomplete, CoordinatorMoves;
    InvOf(w);
    if step.RunWriter? { HeadMovesCoordinator(w, step.end); } else { OthersMoveCoordinator(w, step); }
  }

  lemma OthersMoveCoordinator(w: Shared, step: EnvStep)
    requires Inv(w.db) && !step.RunWriter?
    ensures var next := Step(w, step);
            && (next.coordinator == w.coordinator ||
                  (IsOwnStep(step) && CoordinatorMoves(w.coordinator, w.service.state, w.published, next.coordinator)))
            && (next.coordinator.Recovered? ==> next.coordinator == w.coordinator)
  {
    hide Inv, RunHead, Pos, Grows;
  }

  lemma HeadMovesCoordinator(w: Shared, end: WriteEnd)
    requires WInv(w) && Inv(w.db)
    ensures var next := Step(w, RunWriter(end));
            && (next.coordinator == w.coordinator ||
                  (w.coordinator == Submitted && CoordinatorMoves(w.coordinator, w.service.state, w.published, next.coordinator)))
            && (next.coordinator.Recovered? && next.coordinator != w.coordinator ==>
                  && end == Succeeds && w.queue != [] && w.queue[0].RecoverCommand?
                  && next.coordinator.highWatermark == LastId(next.db.log) && Incomplete(next.db) == {})
  {
    hide Inv, Effect, RecoverCommands, Extends, Incomplete, SettledAfterRecovery, DrawsNew;
    if w.queue != [] {
      RecoverySettles(w.db, w.queue[0]);
      RecoverCommandsHead(w.queue);
    }
  }

  lemma RecoverySettles(db: Db, command: Command)
    requires Inv(db)
    ensures command.RecoverCommand? ==> Incomplete(Effect(db, command)) == {}
  {
    hide Inv, Effect, Extends, Incomplete;
    EffectStands(db, command);
  }

  // The steps of the coordinator's own code.
  predicate IsOwnStep(step: EnvStep) {
    step.CoordinatorChecks? || step.CoordinatorSends? || step.CoordinatorFlushed? || step.CoordinatorGivesUp?
  }

  // ----- runs of the other actors -----

  ghost function After(w: Shared, steps: seq<EnvStep>): (r: Shared)
    requires WInv(w)
    ensures WInv(r) && Rely(w, r)
  {
    if steps == [] then
      RelyReflexive(w);
      w
    else
      var before := After(w, steps[..|steps| - 1]);
      StepIsAllowed(before, steps[|steps| - 1]);
      RelyTransitive(w, before, Step(before, steps[|steps| - 1]));
      Step(before, steps[|steps| - 1])
  }

  lemma AfterOneMore(w: Shared, steps: seq<EnvStep>, step: EnvStep)
    requires WInv(w)
    ensures After(w, steps + [step]) == Step(After(w, steps), step)
  {
    hide WInv, Rely, Step;
    assert (steps + [step])[..|steps|] == steps;
  }

  // Step number `k` of a run is the writer running a recovery to success.
  ghost predicate RecoversAt(w: Shared, steps: seq<EnvStep>, k: nat, highWatermark: nat)
    requires WInv(w) && k < |steps|
  {
    var before, after := After(w, steps[..k]), After(w, steps[..k + 1]);
    && steps[k] == RunWriter(Succeeds) && before.queue != [] && before.queue[0].RecoverCommand?
    && after.coordinator == Recovered(highWatermark) && highWatermark == LastId(after.db.log) && Incomplete(after.db) == {}
  }

  // Behind a coordinator that has recovered or asks to finalize stands a recovery that the
  // writer committed, and its high watermark is the last event the log had at that moment.
  lemma {:induction false} RecoveryIsBehind(w: Shared, steps: seq<EnvStep>) returns (k: nat)
    requires WInv(w) && w.coordinator == Trying
    requires After(w, steps).coordinator.Recovered? || After(w, steps).coordinator.Finalizing?
    ensures k < |steps| && RecoversAt(w, steps, k, After(w, steps).coordinator.highWatermark)
    decreases |steps|
  {
    hide WInv, Rely, Step, Incomplete, LastId;
    var n := |steps| - 1;
    var before := After(w, steps[..n]);
    StepsMoveCoordinator(before, steps[n]);
    assert steps[..n + 1] == steps;
    if before.coordinator.Recovered? || before.coordinator.Finalizing? {
      k := RecoveryIsBehind(w, steps[..n]);
      assert steps[..n][..k] == steps[..k] && steps[..n][..k + 1] == steps[..k + 1];
    } else {
      k := n;
    }
  }

  // ----- what holds of every shared state -----

  function RecoverCommands(queue: seq<Command>): nat {
    if queue == [] then 0 else RecoverCommands(queue[..|queue| - 1]) + if queue[|queue| - 1].RecoverCommand? then 1 else 0
  }

  ghost predicate NoneRunning(db: Db) {
    forall t | t in db.rows :: db.rows[t].status != Running
  }

  ghost predicate Control(w: Shared) {
    && RecoverCommands(w.queue) + RecoverCommands(w.behind) == (if w.coordinator.Submitted? then 1 else 0)
    && (!w.ownPending ==> w.behind == [])
    && (w.gateClosed ==> w.service.state == Quiescing)
    && (w.coordinator.Finalizing? ==> w.coordinator.highWatermark <= w.published)
    && w.published <= LastId(w.db.log)
  }

  // From a successful recovery until the manager has finalized, no row is running.
  ghost predicate SettledAfterRecovery(w: Shared) {
    w.coordinator.Recovered? || w.coordinator.Finalizing? ==> NoneRunning(w.db)
  }

  ghost predicate WInv(w: Shared) {
    Inv(w.db) && Control(w) && SettledAfterRecovery(w)
  }

  lemma InvOf(w: Shared)
    requires WInv(w)
    ensures Inv(w.db)
  {
  }

  // Nobody is left who could make the log grow: shutdown's state after a durable quiesce.
  ghost predicate Drained(w: Shared) {
    w.gateClosed && w.gateActive == 0
  }

  ghost predicate NoGrowth(queue: seq<Command>) {
    forall i | 0 <= i < |queue| :: !Grows(queue[i])
  }

  ghost predicate Sealed(w: Shared) {
    Drained(w) && NoGrowth(w.queue) && NoGrowth(w.behind) && Incomplete(w.db) == {}
  }

  // A row either stands, or was incomplete and recovery interrupted it.
  ghost predicate RowsStand(a: Shared, b: Shared) {
    && (forall t | t in a.db.rows && t in b.db.rows ::
          || b.db.rows[t] == a.db.rows[t]
          || (a.coordinator != Absent && a.db.rows[t].status.IsIncomplete() && b.db.rows[t].status == Interrupted))
    && (forall t | t in b.db.rows && t !in a.db.rows ::
          || b.db.rows[t].status == Queued
          || (a.coordinator != Absent && b.db.rows[t].status == Interrupted))
  }

  ghost predicate FlagsRely(a: Shared, b: Shared) {
    && (a.frozenFlag ==> b.frozenFlag)
    && (a.gateClosed ==> b.gateClosed)
    && (b.service == a.service || (b.service.state == Quiescing && a.service.state != Quiescing))
    && (a.coordinator.Absent? ==> b.coordinator.Absent?)
    && (a.coordinator.Finalizing? ==> b.coordinator == a.coordinator)
    && (Drained(a) ==> Drained(b))
    && a.ownPending == b.ownPending
    && (a.ownPending ==> |b.queue| <= |a.queue|)
    && (Drained(a) && NoGrowth(a.behind) ==> NoGrowth(b.behind))
  }

  ghost predicate SealRely(a: Shared, b: Shared) {
    Sealed(a) ==> Sealed(b) && b.db.log == a.db.log
  }

  // Any number of steps of the others.
  ghost predicate Rely(a: Shared, b: Shared) {
    Extends(a.db, b.db) && RowsStand(a, b) && FlagsRely(a, b) && SealRely(a, b)
  }

  lemma RelyReflexive(w: Shared)
    ensures Rely(w, w)
  {
    ExtendsReflexive(w.db);
  }

  lemma RelyTransitive(a: Shared, b: Shared, c: Shared)
    requires Rely(a, b) && Rely(b, c)
    ensures Rely(a, c)
  {
    ExtendsTransitive(a.db, b.db, c.db);
  }

  lemma {:induction false} RecoverCommandsHead(queue: seq<Command>)
    requires queue != []
    ensures RecoverCommands(queue) == RecoverCommands(queue[1..]) + if queue[0].RecoverCommand? then 1 else 0
  {
    if |queue| > 1 {
      var front := queue[..|queue| - 1];
      RecoverCommandsHead(front);
      assert front[1..] == queue[1..][..|queue[1..]| - 1];
    } else {
      assert queue[..0] == [] && queue[1..] == [];
    }
  }

  lemma RecoverCommandsPush(queue: seq<Command>, command: Command)
    ensures RecoverCommands(queue + [command]) == RecoverCommands(queue) + if command.RecoverCommand? then 1 else 0
  {
    assert (queue + [command])[..|queue|] == queue;
  }

  // What a queued command of another actor may do: create queued rows, or, if it is a
  // recovery, interrupt every incomplete row.
  ghost predicate Stands(db: Db, command: Command, after: Db) {
    && Inv(after) && Extends(db, after)
    && (forall t | t in db.rows && t in after.rows ::
          || after.rows[t] == db.rows[t]
          || (command.RecoverCommand? && db.rows[t].status.IsIncomplete() && after.rows[t].status == Interrupted))
    && (forall t | t in after.rows && t !in db.rows :: after.rows[t].status == Queued)
    && (command.RecoverCommand? ==> Incomplete(after) == {})
    && (!Grows(command) && Incomplete(db) == {} ==> after.log == db.log && Incomplete(after) == {})
  }

  lemma EffectStands(db: Db, command: Command)
    requires Inv(db)
    ensures Stands(db, command, Effect(db, command))
  {
    if !DrawsNew(db, command) {
      ExtendsReflexive(db);
      assert !command.RecoverCommand?;
    } else {
      match command
      case CreateCommand(request, repository, prompt, newId, now) => CreateStands(db, request, repository, prompt, newId, now);
      case RetryCommand(source, newId, newRequest, now) => RetryStands(db, source, newId, newRequest, now);
      case RegisterCommand(_) =>
      case RecoverCommand(now, failure) => RecoverStands(db, now, failure);
    }
  }

  lemma InsertStands(db: Db, command: Command, row: Task, now: Timestamp)
    requires Inv(AppendLifecycle(db, row.id, row, now)) && Extends(db, AppendLifecycle(db, row.id, row, now))
    requires row.id !in db.rows && row.status == Queued && Grows(command)
    ensures Stands(db, command, AppendLifecycle(db, row.id, row, now))
  {
    hide Inv, Extends;
  }

  lemma CreateStands(db: Db, request: RequestId, repository: RepositoryId, prompt: string, newId: TaskId, now: Timestamp)
    requires Inv(db) && newId !in db.rows
    ensures Stands(db, CreateCommand(request, repository, prompt, newId, now), Create(db, request, repository, prompt, newId, now).0)
  {
    hide TryNewPrompt;
    var command := CreateCommand(request, repository, prompt, newId, now);
    CreateKeepsInv(db, request, repository, prompt, newId, now);
    if TryNewPrompt(prompt).Ok? && FindRequest(db, request).None? && repository in db.repositories {
      InsertStands(db, command, NewRow(newId, request, repository, TryNewPrompt(prompt).value, 1, None, now), now);
    } else {
      ExtendsReflexive(db);
      assert Stands(db, command, db);
    }
    hide Stands, Inv, Extends;
  }

  lemma RetryStands(db: Db, source: TaskId, newId: TaskId, newRequest: RequestId, now: Timestamp)
    requires Inv(db) && newId !in db.rows && forall t | t in db.rows :: !HasRequest(db, newRequest, t)
    ensures Stands(db, RetryCommand(source, newId, newRequest, now), Retry(db, source, newId, newRequest, now).0)
  {
    var command := RetryCommand(source, newId, newRequest, now);
    RetryKeepsInv(db, source, newId, newRequest, now);
    if source in db.rows && db.rows[source].status.IsRetryable() && FindRetry(db, source).None?
       && db.rows[source].attempt != MAX_ATTEMPT {
      var row := db.rows[source];
      InsertStands(db, command,
        NewRow(newId, newRequest, row.repositoryId, row.prompt, row.attempt + 1, Some(source), now), now);
    } else {
      ExtendsReflexive(db);
      assert Stands(db, command, db);
    }
    hide Stands, Inv, Extends;
  }

  lemma RecoverStands(db: Db, now: Timestamp, failure: TaskFailure)
    requires Inv(db)
    ensures Stands(db, RecoverCommand(now, failure), RecoverAll(db, now, failure))
  {
    hide Inv, Extends;
    var ids := OrderOf(db);
    RecoverInterrupts(db, ids, now, failure);
    assert ids != [] ==> ids[0] in Incomplete(db);
  }

  // ----- every step keeps the invariant and is allowed by Rely -----

  lemma RunHeadStore(w: Shared, command: Command, db: Db, next: Shared)
    requires WInv(w) && (command.RecoverCommand? ==> w.coordinator.Submitted?)
    requires db == w.db || Stands(w.db, command, db)
    requires next.db == db
    requires next.coordinator.Recovered? ==>
               (w.coordinator.Recovered? && !command.RecoverCommand?) || (command.RecoverCommand? && Stands(w.db, command, db))
    requires next.coordinator.Finalizing? ==> w.coordinator.Finalizing? && !command.RecoverCommand?
    ensures Inv(next.db) && Extends(w.db, next.db) && RowsStand(w, next) && SettledAfterRecovery(next)
    ensures !Grows(command) && Incomplete(w.db) == {} ==> next.db.log == w.db.log && Incomplete(next.db) == {}
  {
    ExtendsReflexive(w.db);
    hide Inv, Extends;
    if next.coordinator.Recovered? && command.RecoverCommand? {
      assert forall t | t in db.rows && db.rows[t].status == Running :: t in Incomplete(db);
    }
  }

  lemma RunHeadControl(w: Shared, db: Db, coordinator: Coordinator, end: WriteEnd)
    requires Control(w) && w.queue != [] && LastId(w.db.log) <= LastId(db.log)
    requires coordinator == if !w.queue[0].RecoverCommand? then w.coordinator
                            else if end == Succeeds then Recovered(LastId(db.log)) else Trying
    ensures Control(w.(db := db, queue := w.queue[1..], coordinator := coordinator))
    ensures FlagsRely(w, w.(db := db, queue := w.queue[1..], coordinator := coordinator))
    ensures w.queue[0].RecoverCommand? ==> w.coordinator.Submitted?
  {
    RecoverCommandsHead(w.queue);
  }

  lemma RunHeadIsAllowed(w: Shared, end: WriteEnd)
    requires WInv(w)
    ensures WInv(RunHead(w, end)) && Rely(w, RunHead(w, end))
  {
    if w.queue == [] {
      RelyReflexive(w);
    } else {
      EffectStands(w.db, w.queue[0]);
      ExtendsReflexive(w.db);
      var next := RunHead(w, end);
      assert Extends(w.db, next.db) && Inv(next.db);
      LogOnlyGrows(w.db, next.db);
      hide Inv, Extends, Effect, Stands, RowsStand, Incomplete, NoneRunning, Control, FlagsRely, LastId;
      RunHeadControl(w, next.db, next.coordinator, end);
      RunHeadStore(w, w.queue[0], next.db, next);
    }
  }

  lemma LogOnlyGrows(a: Db, b: Db)
    requires Inv(b) && Extends(a, b)
    ensures LastId(a.log) <= LastId(b.log)
  {
    if a.log != [] { assert b.log[|a.log| - 1] == a.log[|a.log| - 1]; }
  }

  // Steps that leave the store alone.
  lemma ControlStep(w: Shared, next: Shared)
    requires WInv(w) && Control(next) && FlagsRely(w, next) && SettledAfterRecovery(next)
    requires next.db == w.db && (Sealed(w) ==> NoGrowth(next.queue) && NoGrowth(next.behind))
    ensures WInv(next) && Rely(w, next)
  {
    RelyReflexive(w);
    hide Inv, Extends, Control;
  }

  lemma GateStepIsAllowed(w: Shared, step: EnvStep)
    requires WInv(w)
    requires step.EnterGate? || step.LeaveGate? || step.CloseGate? || step.RaiseFreezeFlag?
    ensures WInv(Step(w, step)) && Rely(w, Step(w, step))
  {
    hide Inv, Extends, RowsStand, Incomplete, NoneRunning, RunHead, RecoverCommands;
    ControlStep(w, Step(w, step));
  }

  lemma CoordinatorStepIsAllowed(w: Shared, step: EnvStep)
    requires WInv(w)
    requires step.CoordinatorChecks? || step.CoordinatorFlushed? || step.CoordinatorGivesUp?
    ensures WInv(Step(w, step)) && Rely(w, Step(w, step))
  {
    hide Inv, Extends, RowsStand, Incomplete, NoneRunning, RunHead, RecoverCommands;
    ControlStep(w, Step(w, step));
  }

  lemma SendKeepsCount(w: Shared, command: Command)
    ensures RecoverCommands(Send(w, command).queue) + RecoverCommands(Send(w, command).behind)
         == RecoverCommands(w.queue) + RecoverCommands(w.behind) + if command.RecoverCommand? then 1 else 0
  {
    RecoverCommandsPush(w.queue, command);
    RecoverCommandsPush(w.behind, command);
  }

  lemma EnqueueIsAllowed(w: Shared, command: Command)
    requires WInv(w)
    ensures WInv(Step(w, Enqueue(command))) && Rely(w, Step(w, Enqueue(command)))
  {
    SendKeepsCount(w, command);
    hide Inv, Extends, RowsStand, Incomplete, NoneRunning, RunHead, RecoverCommands;
    ControlStep(w, Step(w, Enqueue(command)));
  }

  lemma SendsIsAllowed(w: Shared, now: Timestamp, failure: TaskFailure)
    requires WInv(w)
    ensures WInv(Step(w, CoordinatorSends(now, failure))) && Rely(w, Step(w, CoordinatorSends(now, failure)))
  {
    SendKeepsCount(w, RecoverCommand(now, failure));
    hide Inv, Extends, RowsStand, Incomplete, NoneRunning, RunHead, RecoverCommands;
    ControlStep(w, Step(w, CoordinatorSends(now, failure)));
  }

  lemma StepIsAllowed(w: Shared, step: EnvStep)
    requires WInv(w)
    ensures WInv(Step(w, step)) && Rely(w, Step(w, step))
  {
    hide Rely, Control, SettledAfterRecovery, Inv;
    match step
    case RunWriter(end) => RunHeadIsAllowed(w, end);
    case BurnIds(ids) => BurnIsAllowed(w, ids);
    case Publish => PublishIsAllowed(w);
    case Enqueue(command) => EnqueueIsAllowed(w, command);
    case CoordinatorSends(now, failure) => SendsIsAllowed(w, now, failure);
    case CoordinatorChecks => CoordinatorStepIsAllowed(w, step);
    case CoordinatorFlushed => CoordinatorStepIsAllowed(w, step);
    case CoordinatorGivesUp => CoordinatorStepIsAllowed(w, step);
    case _ => GateStepIsAllowed(w, step);
  }

  lemma PublishedStaysInside(log: seq<TaskEvent>, published: nat)
    requires Ascending(log) && Pos(log, published) < |log|
    ensures published < log[Pos(log, published)].id <= LastId(log)
  {
    PosSplits(log, published);
  }

  lemma PublishIsAllowed(w: Shared)
    requires WInv(w)
    ensures WInv(Step(w, Publish)) && Rely(w, Step(w, Publish))
  {
    if Pos(w.db.log, w.published) < |w.db.log| { PublishedStaysInside(w.db.log, w.published); }
    hide Inv, Extends, RowsStand, Incomplete, NoneRunning, RunHead, RecoverCommands;
    ControlStep(w, Step(w, Publish));
  }

  lemma BurnIsAllowed(w: Shared, ids: nat)
    requires WInv(w)
    ensures WInv(w.(db := w.db.(counter := w.db.counter + ids))) && Rely(w, w.(db := w.db.(counter := w.db.counter + ids)))
  {
  }
}
