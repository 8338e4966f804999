/**
 * The degraded-recovery coordinator: recover the store, flush the dispatcher, ask the manager to
 * finalize. It runs in the world that it shares with the manager: each of its own moves is a step
 * of that world, the others' steps come at every point where it waits, and the dispatcher sends
 * what the world's store holds.
 */
module DegradedRecovery {
  import opened Domain
  import opened EventLog
  import opened StoreModel
  import opened World
  import Process
  import Events = Dispatcher
  import ServerComposition

  // What happens while the coordinator waits.
  datatype Disturbance =
    | OthersStep(step: EnvStep)
    | ManagerCloses
    | SomebodyFlushes(target: nat)
    | DispatcherWakes
    | DispatcherCloses

  // How a run of the coordinator ends. `StillWaiting` is a run observed only so far.
  datatype CoordinatorEnd = FinalizeSent(highWatermark: nat) | LostToQuiescing | ManagerClosed | StillWaiting

  // `degraded_recovery_failure`
  function DegradedRecoveryFailure(): TaskFailure {
    TaskFailure("STORE_WRITE_FAILED", "task was interrupted while recovering the task store", true)
  }

  predicate SendsRecovery(step: EnvStep) {
    step.CoordinatorSends? && step.failure == DegradedRecoveryFailure()
  }

  // While the coordinator waits, it can only be moved by the answer to its recovery.
  predicate Waited(before: Coordinator, after: Coordinator) {
    after == before || (before == Submitted && (after == Trying || after.Recovered?))
  }

  // The world `w` is where the steps lead, and the store holds a prefix of the whole log.
  ghost predicate InStep(first: Shared, steps: seq<EnvStep>, w: Shared, log: seq<TaskEvent>, stored: nat) {
    WInv(first) && w == After(first, steps) && stored == |w.db.log| && w.db.log <= log
  }

  lemma WorldIsRight(first: Shared, steps: seq<EnvStep>, w: Shared, log: seq<TaskEvent>, stored: nat)
    requires InStep(first, steps, w, log, stored)
    ensures WInv(w)
  {
    hide WInv, Rely;
  }

  class DegradedCoordinator {
    const env: Process.Env
    // Its log is every event the run will ever commit.
    const dispatcher: Events.Dispatcher
    var managerClosed: bool
    var script: seq<Disturbance>
    var nextId: nat
    // The world in which the episode began, and every step since.
    ghost const first: Shared
    ghost var steps: seq<EnvStep>

    ghost predicate Valid()
      reads this, env, dispatcher
    {
      && dispatcher.Valid() && InStep(first, steps, env.w, dispatcher.log, dispatcher.stored)
      && env.w.published == dispatcher.cursor
      && forall id | id in dispatcher.targets :: id < nextId
    }

    constructor (env: Process.Env, dispatcher: Events.Dispatcher, script: seq<Disturbance>, nextId: nat)
      requires dispatcher.Valid() && forall id | id in dispatcher.targets :: id < nextId
      requires WInv(env.w) && dispatcher.stored == |env.w.db.log| && env.w.db.log <= dispatcher.log
      requires env.w.published == dispatcher.cursor
      ensures Valid() && this.env == env && this.dispatcher == dispatcher && first == env.w && steps == []
    {
      this.env, this.dispatcher, this.script, this.nextId := env, dispatcher, script, nextId;
      managerClosed, first, steps := false, env.w, [];
    }

    // A step of the world. A step that would commit an event other than the next one of the log
    // is not one of this run and is not taken.
    method TakeStep(step: EnvStep) returns (taken: bool)
      requires Valid() && !step.Publish?
      modifies env`w, this`steps, dispatcher`stored
      ensures Valid()
      ensures env.w == if taken then Step(old(env.w), step) else old(env.w)
      ensures steps == if taken then old(steps) + [step] else old(steps)
      ensures WInv(old(env.w)) && (Step(old(env.w), step).db == old(env.w).db ==> taken)
    {
      hide WInv, Rely, Step, After, Pos, Extends;
      var before := env.w;
      AfterOneMore(first, steps, step);
      StepKeepsCursor(before, step);
      env.RunStep(step);
      taken := env.w.db.log <= dispatcher.log;
      if taken {
        dispatcher.StoreGrows(|env.w.db.log|);
        steps := steps + [step];
      } else {
        env.w := before;
      }
    }

    // A turn of the dispatcher: what it sends is published in the world, event by event.
    method DispatcherTurn(turn: Events.Turn)
      requires Valid() && !dispatcher.closed
      requires turn.Receive? && turn.command.Flush? ==> turn.command.id !in dispatcher.targets && turn.command.id < nextId
      modifies this`steps, env`w, dispatcher
      ensures Valid() && Later(old(dispatcher.cursor), old(dispatcher.targets), old(dispatcher.answers))
      ensures dispatcher.targets == if turn.Receive? && turn.command.Flush?
                                    then old(dispatcher.targets)[turn.command.id := turn.command.target]
                                    else old(dispatcher.targets)
      ensures dispatcher.closed <==> turn.ChannelGone? || (turn.Receive? && turn.command.Close?)
      ensures env.w == old(env.w).(published := env.w.published) && old(steps) <= steps
    {
      hide WInv, Rely, Step, After, Pos, Extends, LastId, Ascending, Between, Events.Booked, Events.AllLate;
      dispatcher.TakeTurn(turn);
      PublishSent();
    }

    method PublishSent()
      requires dispatcher.Valid() && InStep(first, steps, env.w, dispatcher.log, dispatcher.stored)
      requires IsCursor(dispatcher.log, env.w.published) && env.w.published <= dispatcher.cursor
      modifies this`steps, env`w
      ensures InStep(first, steps, env.w, dispatcher.log, dispatcher.stored) && old(steps) <= steps
      ensures env.w == old(env.w).(published := dispatcher.cursor)
    {
      hide WInv, Rely, Step, After, Pos, Extends, LastId, Ascending, Between, Events.Booked, Events.AllLate;
      PosMonotone(dispatcher.log, env.w.published, dispatcher.cursor);
      while env.w.published != dispatcher.cursor
        invariant InStep(first, steps, env.w, dispatcher.log, dispatcher.stored) && old(steps) <= steps
        invariant env.w == old(env.w).(published := env.w.published)
        invariant IsCursor(dispatcher.log, env.w.published) && env.w.published <= dispatcher.cursor
        invariant Pos(dispatcher.log, env.w.published) <= Pos(dispatcher.log, dispatcher.cursor)
        decreases Pos(dispatcher.log, dispatcher.cursor) - Pos(dispatcher.log, env.w.published)
      {
        NextCursor(dispatcher.log, dispatcher.committed, env.w.published, dispatcher.cursor);
        NextIsPublished(dispatcher.log, dispatcher.stored, env.w);
        AfterOneMore(first, steps, Publish);
        env.RunStep(Publish);
        steps := steps + [Publish];
      }
    }

    // Nothing the dispatcher sent or answered is undone.
    ghost predicate Later(cursor: nat, targets: map<nat, nat>, answers: seq<Events.Reply>)
      reads this, dispatcher
    {
      && cursor <= dispatcher.cursor && answers <= dispatcher.answers
      && forall id | id in targets :: id in dispatcher.targets && dispatcher.targets[id] == targets[id]
    }

    method SendFlush(target: nat) returns (id: nat)
      requires Valid() && !dispatcher.closed
      modifies this`nextId, this`steps, env`w, dispatcher
      ensures Valid() && Later(old(dispatcher.cursor), old(dispatcher.targets), old(dispatcher.answers))
      ensures env.w == old(env.w).(published := env.w.published) && old(steps) <= steps
      ensures id in dispatcher.targets && dispatcher.targets[id] == target && !dispatcher.closed
      ensures id !in old(dispatcher.targets)
    {
      hide InStep;
      id := nextId;
      nextId := nextId + 1;
      DispatcherTurn(Events.Receive(Events.Flush(id, target)));
    }

    // What others do meanwhile.
    method Disturb()
      requires Valid()
      modifies this`managerClosed, this`script, this`nextId, this`steps, env`w, dispatcher
      ensures Valid() && Later(old(dispatcher.cursor), old(dispatcher.targets), old(dispatcher.answers))
      ensures Waited(old(env.w).coordinator, env.w.coordinator) && old(steps) <= steps
      ensures old(script) == [] ==> script == []
      ensures old(script) != [] ==> |script| < |old(script)|
      ensures old(dispatcher.closed) ==> dispatcher.closed
    {
      hide InStep, WInv, Rely, Step;
      if script == [] { return; }
      var disturbance := script[0];
      script := script[1..];
      match disturbance {
        case OthersStep(step) =>
          if !IsOwnStep(step) && !step.Publish? {
            var _ := TakeStep(step);
            StepsMoveCoordinator(old(env.w), step);
          }
        case ManagerCloses => managerClosed := true;
        case SomebodyFlushes(target) => if !dispatcher.closed { var _ := SendFlush(target); }
        case DispatcherWakes => if !dispatcher.closed { DispatcherTurn(Events.WakeOrPoll); }
        case DispatcherCloses => if !dispatcher.closed { DispatcherTurn(Events.Receive(Events.Close)); }
      }
    }

    // A move of the coordinator's own code.
    method Move(step: EnvStep)
      requires Valid() && IsOwnStep(step)
      modifies env`w, this`steps, dispatcher`stored
      ensures Valid() && WInv(old(env.w)) && env.w == Step(old(env.w), step) && steps == old(steps) + [step]
    {
      hide InStep, WInv, Rely;
      var taken := TakeStep(step);
    }

    // `ensure_not_quiescing`
    method EnsureNotQuiescing() returns (error: Option<CoordinatorEnd>)
      requires Valid() && (env.w.coordinator == Trying || env.w.coordinator.Recovered?)
      modifies this`managerClosed, this`script, this`nextId, this`steps, env`w, dispatcher
      ensures Valid() && Later(old(dispatcher.cursor), old(dispatcher.targets), old(dispatcher.answers)) && old(steps) <= steps
      ensures old(script) == [] ==> script == []
      ensures old(script) != [] ==> |script| < |old(script)|
      ensures error.None? ==> env.w.coordinator == old(env.w).coordinator && env.w.service.state != Quiescing && !managerClosed
      ensures error.Some? ==> error.value in {LostToQuiescing, ManagerClosed} && (error.value == ManagerClosed ==> managerClosed)
      ensures error == Some(LostToQuiescing) ==> env.w.coordinator == Absent && env.w.service.state == Quiescing
      ensures old(dispatcher.closed) ==> dispatcher.closed
    {
      hide InStep, WInv, Rely, Step, After, RecoversAt;
      Disturb();
      if managerClosed { return Some(ManagerClosed); }
      if env.w.service.state == Quiescing {
        WorldIsRight(first, steps, env.w, dispatcher.log, dispatcher.stored);
        GivesUpGoes(env.w);
        Move(CoordinatorGivesUp);
        return Some(LostToQuiescing);
      }
      error := None;
    }

    // `wait_to_retry`: the retry interval passes, or the service state or the manager changes.
    method WaitToRetry() returns (error: Option<CoordinatorEnd>)
      requires Valid() && (env.w.coordinator == Trying || env.w.coordinator.Recovered?)
      modifies this`managerClosed, this`script, this`nextId, this`steps, env`w, dispatcher
      ensures Valid() && Later(old(dispatcher.cursor), old(dispatcher.targets), old(dispatcher.answers))
      ensures old(steps) <= steps && |script| <= |old(script)|
      ensures error.None? ==> env.w.coordinator == old(env.w).coordinator
      ensures error.Some? ==> error.value in {LostToQuiescing, ManagerClosed} && (error.value == ManagerClosed ==> managerClosed)
      ensures error == Some(LostToQuiescing) ==> env.w.coordinator == Absent && env.w.service.state == Quiescing
      ensures old(dispatcher.closed) ==> dispatcher.closed
    {
      if managerClosed { return Some(ManagerClosed); }
      error := EnsureNotQuiescing();
    }

    // One attempt of `recover_store`: the command goes to the writer, which runs it when its
    // turn comes, and the coordinator waits for the answer.
    method TryRecover()
      requires Valid() && env.w.coordinator == Trying && env.w.service.state != Quiescing
      modifies this`managerClosed, this`script, this`nextId, this`steps, env, dispatcher
      ensures Valid() && old(steps) <= steps && |script| <= |old(script)|
      ensures env.w.coordinator == Trying || env.w.coordinator.Recovered? || (env.w.coordinator == Submitted && script == [])
      ensures exists k :: |old(steps)| <= k < |steps| && SendsRecovery(steps[k])
    {
      hide InStep, WInv, Rely, Step, After, RecoversAt;
      WorldIsRight(first, steps, env.w, dispatcher.log, dispatcher.stored);
      OwnStepsGo(env.w, 0);
      Move(CoordinatorChecks);
      Disturb();
      var now := env.Choose();
      WorldIsRight(first, steps, env.w, dispatcher.log, dispatcher.stored);
      OwnStepsGo(env.w, now);
      ghost var k := |steps|;
      Move(CoordinatorSends(now, DegradedRecoveryFailure()));
      while env.w.coordinator == Submitted && script != []
        invariant |old(steps)| <= k < |steps| && SendsRecovery(steps[k])
        invariant Valid() && Waited(Submitted, env.w.coordinator) && old(steps) <= steps && |script| <= |old(script)|
        decreases |script|
      {
        Disturb();
      }
    }

    // `recover_store`: tries until a recovery commits, and answers its high watermark.
    method RecoverStore() returns (r: Result<nat, CoordinatorEnd>)
      requires Valid() && env.w.coordinator == Trying && first.coordinator == Trying
      modifies this`managerClosed, this`script, this`nextId, this`steps, env, dispatcher
      ensures Valid() && old(steps) <= steps
      ensures r.Ok? ==> env.w.coordinator == Recovered(r.value) && WasRecovered(r.value)
      ensures r.Err? ==> !r.error.FinalizeSent? && (r.error == LostToQuiescing ==> env.w.coordinator == Absent)
      ensures r.Err? ==> GivesUpBecause(r.error)
      // It goes on trying: while there is time left, a recovery has been sent.
      ensures r == Err(StillWaiting) && old(script) != [] ==> exists k :: |old(steps)| <= k < |steps| && SendsRecovery(steps[k])
    {
      hide InStep, WInv, Rely, Step, After, RecoversAt, SendsRecovery;
      while script != []
        invariant Valid() && env.w.coordinator == Trying && old(steps) <= steps
        invariant script == old(script) || exists k :: |old(steps)| <= k < |steps| && SendsRecovery(steps[k])
        decreases |script|
      {
        var error := EnsureNotQuiescing();
        if error.Some? { return Err(error.value); }
        TryRecover();
        match env.w.coordinator {
          case Recovered(highWatermark) =>
            Recovery();
            return Ok(highWatermark);
          case Submitted => return Err(StillWaiting);
          case _ =>
        }
        error := WaitToRetry();
        if error.Some? { return Err(error.value); }
      }
      r := Err(StillWaiting);
    }

    // Why a run ends without a finalize: shutdown, a manager that is gone, or nothing more seen of it.
    ghost predicate GivesUpBecause(end: CoordinatorEnd)
      reads this, env
    {
      match end
      case LostToQuiescing => env.w.service.state == Quiescing
      case ManagerClosed => managerClosed
      case StillWaiting => script == []
      case FinalizeSent(_) => false
    }

    // The writer has run a recovery to success, and this was the last event it left.
    ghost predicate WasRecovered(highWatermark: nat)
      reads this
    {
      WInv(first) && exists k :: 0 <= k < |steps| && RecoversAt(first, steps, k, highWatermark)
    }

    // Some such recovery was sent whole, in order, with all that came before it.
    ghost predicate RecoveredAndSent()
      reads this, dispatcher
    {
      && (exists highWatermark: nat :: WasRecovered(highWatermark) && highWatermark <= dispatcher.cursor)
      && dispatcher.sent == Between(dispatcher.log, dispatcher.start, dispatcher.cursor)
    }

    lemma Recovery()
      requires Valid() && first.coordinator == Trying && (env.w.coordinator.Recovered? || env.w.coordinator.Finalizing?)
      ensures WasRecovered(env.w.coordinator.highWatermark)
    {
      hide WInv, Rely, RecoversAt, After;
      var k := RecoveryIsBehind(first, steps);
    }

    // Someone has asked the dispatcher to flush up to `target` since its requests were `before`.
    ghost predicate AskedFor(before: map<nat, nat>, target: nat)
      reads dispatcher
    {
      exists id :: id in dispatcher.targets && id !in before && dispatcher.targets[id] == target
    }

    // `flush_to`, with the dispatcher's turns until it answers.
    method FlushTo(target: nat) returns (answer: Option<Events.Answer>)
      requires Valid() && env.w.coordinator != Submitted
      modifies this`managerClosed, this`script, this`nextId, this`steps, env`w, dispatcher
      ensures Valid() && Later(old(dispatcher.cursor), old(dispatcher.targets), old(dispatcher.answers))
      ensures old(steps) <= steps && |script| <= |old(script)|
      ensures old(dispatcher.closed) || AskedFor(old(dispatcher.targets), target)
      ensures env.w.coordinator == old(env.w).coordinator
      // The dispatcher's books: done means that everything up to the target was sent.
      ensures answer == Some(Events.Done) ==> target <= dispatcher.cursor
      ensures answer == None ==> script == []
      ensures old(dispatcher.closed) ==> dispatcher.closed
    {
      hide InStep;
      if dispatcher.closed { return Some(Events.DispatcherClosed); }
      var id := SendFlush(target);
      while true
        invariant Valid() && Later(old(dispatcher.cursor), old(dispatcher.targets), old(dispatcher.answers))
        invariant old(steps) <= steps && |script| <= |old(script)|
        invariant id !in old(dispatcher.targets) && id in dispatcher.targets && dispatcher.targets[id] == target
        invariant env.w.coordinator == old(env.w).coordinator
        invariant !old(dispatcher.closed)
        decreases |script|
      {
        answer := FindAnswer(id);
        if answer.Some? || script == [] { return; }
        Disturb();
      }
    }

    method FindAnswer(id: nat) returns (answer: Option<Events.Answer>)
      requires dispatcher.Valid() && id in dispatcher.targets
      ensures answer == Some(Events.Done) ==> dispatcher.targets[id] <= dispatcher.cursor
      ensures answer.Some? <==> Events.Answered(dispatcher.answers, id)
    {
      for n := 0 to |dispatcher.answers|
        invariant forall i | 0 <= i < n :: dispatcher.answers[i].id != id
      {
        if dispatcher.answers[n].id == id { return Some(dispatcher.answers[n].answer); }
      }
      answer := None;
    }

    // `flush_recovery`
    method FlushRecovery(highWatermark: nat) returns (error: Option<CoordinatorEnd>)
      requires Valid() && env.w.coordinator == Recovered(highWatermark)
      modifies this`managerClosed, this`script, this`nextId, this`steps, env`w, dispatcher
      ensures Valid() && old(steps) <= steps
      ensures error.None? ==> env.w.coordinator == old(env.w).coordinator && highWatermark <= dispatcher.cursor
      ensures error.Some? ==> !error.value.FinalizeSent? && (error.value == LostToQuiescing ==> env.w.coordinator == Absent)
      ensures error.Some? ==> GivesUpBecause(error.value)
      // It goes on trying: while there is time left, the dispatcher has been asked, unless it was closed.
      ensures error == Some(StillWaiting) && old(script) != [] ==> dispatcher.closed || AskedFor(old(dispatcher.targets), highWatermark)
    {
      hide InStep, WInv, Rely, Step, After, RecoversAt;
      while script != []
        invariant Valid() && env.w.coordinator == Recovered(highWatermark) && old(steps) <= steps
        invariant Later(old(dispatcher.cursor), old(dispatcher.targets), old(dispatcher.answers))
        invariant script == old(script) || dispatcher.closed || AskedFor(old(dispatcher.targets), highWatermark)
        decreases |script|
      {
        error := EnsureNotQuiescing();
        if error.Some? { return; }
        var answer := FlushTo(highWatermark);
        if answer == Some(Events.Done) { return None; }
        error := WaitToRetry();
        if error.Some? { return; }
      }
      error := Some(StillWaiting);
    }

    // `finalize`, up to sending the message to the manager.
    method Finalize(highWatermark: nat) returns (end: CoordinatorEnd)
      requires Valid() && env.w.coordinator == Recovered(highWatermark) && highWatermark <= dispatcher.cursor
      modifies this`managerClosed, this`script, this`nextId, this`steps, env`w, dispatcher
      ensures Valid() && old(dispatcher.cursor) <= dispatcher.cursor && old(steps) <= steps
      ensures end == FinalizeSent(highWatermark) <==> end.FinalizeSent?
      ensures end == LostToQuiescing ==> env.w.coordinator == Absent
      ensures end.FinalizeSent? ==> env.w.coordinator == Finalizing(highWatermark)
      ensures !end.FinalizeSent? ==> GivesUpBecause(end)
    {
      hide InStep, WInv, Rely;
      var error := EnsureNotQuiescing();
      if error.Some? { return error.value; }
      Move(CoordinatorFlushed);
      end := FinalizeSent(highWatermark);
    }

    // `run`. All of it is a run of the world. A finalize message goes out only after the writer
    // ran a recovery to success and the dispatcher sent everything up to its high watermark, and
    // no row is running then.
    method Run() returns (end: CoordinatorEnd)
      requires Valid() && env.w.coordinator == Trying && steps == []
      modifies this`managerClosed, this`script, this`nextId, this`steps, env, dispatcher
      ensures Valid() && WInv(old(env.w)) && env.w == After(old(env.w), steps)
      ensures WInv(env.w) && Rely(old(env.w), env.w)
      ensures end.FinalizeSent? ==>
                && env.w.coordinator == Finalizing(end.highWatermark) && WasRecovered(end.highWatermark)
                && end.highWatermark <= dispatcher.cursor && RecoveredAndSent() && NoneRunning(env.w.db)
      ensures end == LostToQuiescing ==> env.w.coordinator == Absent
      ensures !end.FinalizeSent? ==> GivesUpBecause(end)
    {
      hide Step, Rely, Between, RecoversAt;
      var recovered := RecoverStore();
      if recovered.Err? { return recovered.error; }
      var error := FlushRecovery(recovered.value);
      if error.Some? { return error.value; }
      end := Finalize(recovered.value);
      if end.FinalizeSent? { Recovery(); }
    }
  }

  lemma OwnStepsGo(w: Shared, now: Timestamp)
    requires WInv(w)
    ensures w.coordinator == Trying && w.service.state != Quiescing ==> Step(w, CoordinatorChecks).coordinator == Checked
    ensures w.coordinator == Checked ==> Step(w, CoordinatorSends(now, DegradedRecoveryFailure())).coordinator == Submitted
  {
    hide WInv, Step, Send;
    InvOf(w);
    if w.coordinator == Trying && w.service.state != Quiescing { CoordinatorMovesAreSteps(w, Checked, now, DegradedRecoveryFailure()); }
    if w.coordinator == Checked { CoordinatorMovesAreSteps(w, Submitted, now, DegradedRecoveryFailure()); }
  }

  lemma GivesUpGoes(w: Shared)
    requires WInv(w) && (w.coordinator == Trying || w.coordinator.Recovered?) && w.service.state == Quiescing
    ensures Step(w, CoordinatorGivesUp) == w.(coordinator := Absent)
  {
    hide WInv, Step, Send, Effect;
    InvOf(w);
    CoordinatorMovesAreSteps(w, Absent, 0, DegradedRecoveryFailure());
  }

  // ----- the dispatcher's cursor in the world -----

  lemma StepKeepsCursor(w: Shared, step: EnvStep)
    requires WInv(w) && !step.Publish?
    ensures Step(w, step).published == w.published && w.db.log <= Step(w, step).db.log
  {
    hide Step, WInv, Rely;
    InvOf(w);
    StepIsAllowed(w, step);
    LogIsPrefix(w, Step(w, step));
    if step.RunWriter? { HeadKeepsCursor(w, step.end); } else { OthersKeepCursor(w, step); }
  }

  lemma HeadKeepsCursor(w: Shared, end: WriteEnd)
    requires Inv(w.db)
    ensures Step(w, RunWriter(end)).published == w.published
  {
    hide Inv, Effect;
  }

  lemma OthersKeepCursor(w: Shared, step: EnvStep)
    requires Inv(w.db) && !step.Publish? && !step.RunWriter?
    ensures Step(w, step).published == w.published
  {
    hide Inv, RunHead;
  }

  lemma LogIsPrefix(a: Shared, b: Shared)
    requires Rely(a, b)
    ensures a.db.log <= b.db.log
  {
    hide RowsStand, FlagsRely, SealRely;
  }

  ghost predicate IsCursor(log: seq<TaskEvent>, cursor: nat) {
    Ascending(log) && cursor == LastId(log[..Pos(log, cursor)])
  }

  lemma NextCursor(log: seq<TaskEvent>, committed: nat, published: nat, cursor: nat)
    requires committed <= |log| && IsCursor(log, cursor) && Pos(log, cursor) <= committed
    requires IsCursor(log, published) && published < cursor
    ensures Pos(log, published) < committed
    ensures var next := log[Pos(log, published)].id;
            && IsCursor(log, next) && published < next <= cursor
            && Pos(log, next) == Pos(log, published) + 1 <= Pos(log, cursor)
  {
    var p := Pos(log, published);
    PosMonotone(log, published, cursor);
    EventPos(log, p);
    PosSplits(log, published);
    assert LastId(log[..p + 1]) == log[p].id;
    PosSplits(log, cursor);
  }

  lemma NextIsPublished(log: seq<TaskEvent>, stored: nat, w: Shared)
    requires stored <= |log| && Ascending(log) && Pos(log, w.published) < stored
    requires WInv(w) && w.db.log <= log && |w.db.log| == stored
    ensures Step(w, Publish) == w.(published := log[Pos(log, w.published)].id)
  {
    hide Step, WInv, Inv, Ascending, Pos;
    InvOf(w);
    assert w.db.log == log[..stored];
    ServerComposition.PublishIsWorldStep(log, stored, w.published, w);
  }
}

/** A degraded episode as a whole: the coordinator's run and the manager's answer to it. */
module DegradedEpisode {
  import opened Domain
  import opened EventLog
  import opened World
  import opened ManagerState
  import opened TaskManager
  import opened DegradedRecovery

  // Coordinator and manager live in the same world. If the manager is ready again, the writer had
  // run a recovery to success, the dispatcher had sent everything up to its high watermark, and
  // no row is running.
  method Episode(manager: Manager, coordinator: DegradedCoordinator) returns (resumed: bool)
    requires manager.env == coordinator.env && manager.env.w.coordinator == Trying
    requires manager.Valid() && coordinator.Valid() && coordinator.steps == []
    modifies manager, manager.env, coordinator, coordinator.dispatcher
    ensures manager.Valid() && manager.launches == old(manager.launches) && manager.finished == old(manager.finished)
    ensures resumed ==> !manager.degraded && manager.env.w.service.state == Ready && NoneRunning(manager.env.w.db)
    ensures resumed ==> coordinator.RecoveredAndSent()
  {
    hide Safe, WInv, Rely, Moves, NoneRunning, DegradedCoordinator.Valid, DegradedCoordinator.RecoveredAndSent;
    ghost var start := manager.env.w;
    var end := coordinator.Run();
    SafeStable(manager.State(), start, manager.env.w);
    resumed := false;
    if end.FinalizeSent? {
      var r := manager.FinalizeDegraded();
      resumed := r.Ok?;
    }
  }
}
