/**
 * The rest of the process at work: `script` says in advance what the other actors do at each
 * point where the manager waits, `oracle` how writes and reads end. A statement about every
 * script and every oracle is a statement about every interleaving.
 */
module Process {
  import opened Domain
  import opened EventLog
  import opened TaskOrder
  import opened StoreModel
  import opened World

  // The manager's own writes.
  datatype Write =
    | WriteTransition(t: TaskId, expected: TaskStatus, transition: TaskTransition)
    | WritePanel(t: TaskId, payload: Payload)
    | WriteRecovery(failure: TaskFailure)

  datatype Receipt =
    | Transitioned(outcome: TransitionOutcome)
    | PanelAppended(appended: AppendOutcome)
    | RecoveryDone(interrupted: nat, highWatermark: nat)
    | WriterError

  ghost function Written(db: Db, write: Write, now: Timestamp): Db {
    match write
    case WriteTransition(t, expected, transition) => TransitionWithEvent(db, t, expected, transition, now).0
    case WritePanel(t, payload) => AppendRunningEvent(db, t, payload, now).0
    case WriteRecovery(failure) => RecoverAll(db, now, failure)
  }

  ghost function Answer(db: Db, write: Write, now: Timestamp): Receipt {
    match write
    case WriteTransition(t, expected, transition) =>
      (match TransitionWithEvent(db, t, expected, transition, now).1
       case Ok(outcome) => Transitioned(outcome)
       case Err(_) => WriterError)
    case WritePanel(t, payload) =>
      (match AppendRunningEvent(db, t, payload, now).1
       case Ok(outcome) => PanelAppended(outcome)
       case Err(_) => WriterError)
    case WriteRecovery(failure) =>
      var after := RecoverAll(db, now, failure);
      if |db.log| <= |after.log| then RecoveryDone(|after.log| - |db.log|, LastId(after.log)) else WriterError
  }

  lemma WrittenKeepsInv(db: Db, write: Write, now: Timestamp)
    requires Inv(db)
    ensures Inv(Written(db, write, now)) && Extends(db, Written(db, write, now))
  {
    hide Inv, Extends;
    match write
    case WriteTransition(t, expected, transition) =>
      ExtendsReflexive(db);
      if expected.CanTransitionTo(transition.Next()) && CanApply(db, t, expected) { TransitionKeepsInv(db, t, transition, now); }
    case WritePanel(t, payload) =>
      ExtendsReflexive(db);
      if !payload.Lifecycle? && CanApply(db, t, Running) { AppendPanelKeepsInv(db, t, payload, now); }
    case WriteRecovery(failure) => RecoverInterrupts(db, OrderOf(db), now, failure);
  }

  // How a write reached the store: `mid` is the world when its turn came, `post` the world
  // it left behind.
  ghost predicate TurnTaken(a: Shared, mid: Shared) {
    && WInv(mid) && Rely(a.(ownPending := true), mid) && mid.queue == []
    && (Drained(a) ==> NoGrowth(mid.behind))
  }

  ghost function Resumed(mid: Shared, db: Db): Shared {
    mid.(db := db, queue := mid.behind, behind := [], ownPending := false)
  }

  class Env {
    var w: Shared
    var script: seq<seq<EnvStep>>
    var oracle: seq<nat>
    // Every write the manager ever sent.
    ghost var submitted: seq<Write>
    // How often something outside the manager failed it: a read, a write, a closed channel.
    ghost var faults: nat

    // An answer the manager cannot predict.
    method Choose() returns (n: nat)
      modifies this`oracle
    {
      if oracle == [] { return 0; }
      n := oracle[0];
      oracle := oracle[1..];
    }

    // Whether an outside operation fails this time.
    method Fails() returns (b: bool)
      modifies this`oracle, this`faults
      ensures faults == old(faults) + if b then 1 else 0
    {
      var n := Choose();
      b := n == 1;
      if b { faults := faults + 1; }
    }

    method Execute(command: Command)
      requires Inv(w.db)
      modifies this`w
      ensures w == old(w).(db := Effect(old(w).db, command))
    {
      if !DrawsNew(w.db, command) { return; }
      match command {
        case CreateCommand(request, repository, prompt, newId, now) =>
          w := w.(db := Create(w.db, request, repository, prompt, newId, now).0);
        case RetryCommand(source, newId, newRequest, now) =>
          w := w.(db := Retry(w.db, source, newId, newRequest, now).0);
        case RegisterCommand(repository) =>
          w := w.(db := w.db.(repositories := w.db.repositories + {repository}));
        case RecoverCommand(now, failure) =>
          var ids := Select(w.db.rows, Incomplete(w.db));
          ListingUnique(w.db.rows, Incomplete(w.db), ids, OrderOf(w.db));
          w := w.(db := Recover(w.db, ids, now, failure));
      }
    }

    method RunQueueHead(end: WriteEnd)
      requires Inv(w.db)
      modifies this`w
      ensures w == RunHead(old(w), end)
    {
      if w.queue == [] { return; }
      var command := w.queue[0];
      if end != RollsBack { Execute(command); }
      var coordinator :=
        if !command.RecoverCommand? then w.coordinator
        else if end == Succeeds then Recovered(LastId(w.db.log)) else Trying;
      w := w.(queue := w.queue[1..], coordinator := coordinator);
    }

    method MoveGate(step: EnvStep)
      requires Inv(w.db) && (step.EnterGate? || step.LeaveGate? || step.CloseGate? || step.RaiseFreezeFlag?)
      modifies this`w
      ensures w == Step(old(w), step)
    {
      hide Inv, RunHead, Pos;
      match step {
        case EnterGate => if GateAdmits(w) { w := w.(gateActive := w.gateActive + 1); }
        case LeaveGate => if w.gateActive > 0 { w := w.(gateActive := w.gateActive - 1); }
        case CloseGate => w := BeginQuiescing(w);
        case RaiseFreezeFlag => w := w.(frozenFlag := true);
      }
    }

    method MoveCoordinator(step: EnvStep)
      requires Inv(w.db) && IsOwnStep(step)
      modifies this`w
      ensures w == Step(old(w), step)
    {
      hide Inv, RunHead, Pos;
      match step {
        case CoordinatorChecks =>
          if w.coordinator.Trying? && w.service.state != Quiescing { w := w.(coordinator := Checked); }
        case CoordinatorSends(now, failure) =>
          if w.coordinator.Checked? { w := Send(w, RecoverCommand(now, failure)).(coordinator := Submitted); }
        case CoordinatorFlushed =>
          if w.coordinator.Recovered? && w.service.state != Quiescing && w.coordinator.highWatermark <= w.published {
            w := w.(coordinator := Finalizing(w.coordinator.highWatermark));
          }
        case CoordinatorGivesUp =>
          if (w.coordinator.Trying? || w.coordinator.Recovered?) && w.service.state == Quiescing {
            w := w.(coordinator := Absent);
          }
      }
    }

    method MoveQueue(step: EnvStep)
      requires Inv(w.db) && (step.Enqueue? || step.RunWriter? || step.Publish? || step.BurnIds?)
      modifies this`w
      ensures w == Step(old(w), step)
    {
      hide Inv, RunHead, Pos, Grows;
      match step {
        case Enqueue(command) =>
          if (Grows(command) && w.gateActive > 0) || command.RegisterCommand? { w := Send(w, command); }
        case RunWriter(end) => RunQueueHead(end);
        case Publish =>
          var p := Pos(w.db.log, w.published);
          if p < |w.db.log| { w := w.(published := w.db.log[p].id); }
        case BurnIds(ids) => w := w.(db := w.db.(counter := w.db.counter + ids));
      }
    }

    method RunStep(step: EnvStep)
      requires WInv(w)
      modifies this`w
      ensures w == Step(old(w), step) && WInv(w) && Rely(old(w), w)
    {
      hide WInv, Inv, Rely, Step;
      InvOf(w);
      StepIsAllowed(w, step);
      if step.EnterGate? || step.LeaveGate? || step.CloseGate? || step.RaiseFreezeFlag? {
        MoveGate(step);
      } else if IsOwnStep(step) {
        MoveCoordinator(step);
      } else {
        MoveQueue(step);
      }
    }

    // Whatever the others do while the manager waits.
    method Interfere()
      requires WInv(w)
      modifies this
      ensures WInv(w) && Rely(old(w), w) && submitted == old(submitted) && faults == old(faults)
    {
      hide WInv, Rely;
      RelyReflexive(w);
      if script == [] { return; }
      var steps := script[0];
      script := script[1..];
      ghost var start := w;
      for n := 0 to |steps|
        invariant WInv(w) && Rely(start, w) && submitted == old(submitted) && faults == old(faults)
      {
        ghost var before := w;
        RunStep(steps[n]);
        RelyTransitive(start, before, w);
      }
    }

    // The writer works off what was queued before.
    method AwaitTurn()
      requires WInv(w) && w.ownPending
      modifies this
      ensures WInv(w) && Rely(old(w), w) && w.ownPending && w.queue == []
      ensures submitted == old(submitted) && faults == old(faults)
    {
      hide WInv, Rely, Step;
      RelyReflexive(w);
      while w.queue != []
        invariant WInv(w) && Rely(old(w), w) && w.ownPending
        invariant submitted == old(submitted) && faults == old(faults)
        decreases |w.queue|
      {
        ghost var before := w;
        Interfere();
        RelyTransitive(old(w), before, w);
        QueueShrinks(before, w);
        ghost var between := w;
        var end := Choose();
        var outcome := if end == 0 then Succeeds else if end == 1 then RollsBack else CommitsButFails;
        RunStep(RunWriter(outcome));
        RelyTransitive(old(w), between, w);
        HeadRuns(between, outcome);
      }
    }

    // Sends a command to the FIFO writer and waits for its answer: everything queued before
    // it runs first, and more may run before the manager sees the answer.
    method Submit(write: Write, rollsBackOnError: bool)
      returns (receipt: Receipt, ghost mid: Shared, ghost now: Timestamp, ghost wrote: bool)
      requires WInv(w) && !w.ownPending
      requires write.WriteTransition? && write.transition.ToRunning? ==> w.coordinator.Absent?
      modifies this
      ensures WInv(w) && TurnTaken(old(w), mid)
      ensures WInv(Resumed(mid, if wrote then Written(mid.db, write, now) else mid.db))
      ensures Rely(Resumed(mid, if wrote then Written(mid.db, write, now) else mid.db), w)
      ensures !w.ownPending && submitted == old(submitted) + [write] && faults >= old(faults)
      ensures receipt != WriterError ==> wrote && receipt == Answer(mid.db, write, now) && faults == old(faults)
      ensures receipt == WriterError ==> Answer(mid.db, write, now) == WriterError || faults == old(faults) + 1
      ensures receipt == WriterError && wrote && rollsBackOnError ==> Written(mid.db, write, now) == mid.db
    {
      hide WInv, Rely, Written, Answer, Step, TurnTaken;
      SubmitStarts(w);
      submitted := submitted + [write];
      w := w.(ownPending := true);
      AwaitTurn();
      mid := w;
      TurnCame(old(w), mid);
      TurnTakenFacts(old(w), mid);
      var choice := Choose();
      var clock := Choose();
      now := clock;
      SubmitEnds(mid, write, now);
      if Answer(mid.db, write, now) == WriterError { ErrorLeavesStore(mid.db, write, now); }
      if choice == 0 || (choice == 2 && !rollsBackOnError) {
        wrote := true;
        receipt := Perform(write, clock);
        if choice == 2 {
          receipt := WriterError;
          faults := faults + 1;
        }
      } else {
        wrote := false;
        faults := faults + 1;
        receipt := WriterError;
        w := w.(queue := w.behind, behind := [], ownPending := false);
      }
      ghost var post := w;
      Interfere();
      RelyKeepsTurn(post, w);
    }

    method Perform(write: Write, now: Timestamp) returns (receipt: Receipt)
      requires WInv(w) && w.queue == []
      modifies this`w
      ensures w == Resumed(old(w), Written(old(w).db, write, now))
      ensures receipt == Answer(old(w).db, write, now)
    {
      hide Inv, Rely, Recover, TransitionWithEvent, AppendRunningEvent, Control, SettledAfterRecovery;
      match write {
        case WriteTransition(t, expected, transition) =>
          var r := TransitionWithEvent(w.db, t, expected, transition, now);
          w := w.(db := r.0);
          receipt := match r.1 case Ok(outcome) => Transitioned(outcome) case Err(_) => WriterError;
        case WritePanel(t, payload) =>
          var r := AppendRunningEvent(w.db, t, payload, now);
          w := w.(db := r.0);
          receipt := match r.1 case Ok(outcome) => PanelAppended(outcome) case Err(_) => WriterError;
        case WriteRecovery(failure) =>
          var ids := Select(w.db.rows, Incomplete(w.db));
          ListingUnique(w.db.rows, Incomplete(w.db), ids, OrderOf(w.db));
          var before := |w.db.log|;
          w := w.(db := Recover(w.db, ids, now, failure));
          receipt := if before <= |w.db.log| then RecoveryDone(|w.db.log| - before, LastId(w.db.log)) else WriterError;
      }
      w := w.(queue := w.behind, behind := [], ownPending := false);
    }
  }

  lemma SubmitStarts(w: Shared)
    requires WInv(w)
    ensures WInv(w.(ownPending := true)) && Rely(w.(ownPending := true), w.(ownPending := true))
  {
    RelyReflexive(w.(ownPending := true));
  }

  lemma QueueShrinks(a: Shared, b: Shared)
    requires Rely(a, b) && a.ownPending
    ensures |b.queue| <= |a.queue| && b.ownPending
  {
  }

  lemma HeadRuns(w: Shared, end: WriteEnd)
    requires WInv(w)
    ensures w.queue != [] ==> |Step(w, RunWriter(end)).queue| == |w.queue| - 1
    ensures w.queue == [] ==> Step(w, RunWriter(end)) == w
    ensures Step(w, RunWriter(end)).ownPending == w.ownPending
  {
  }

  // A write the store itself refuses changes nothing.
  lemma ErrorLeavesStore(db: Db, write: Write, now: Timestamp)
    requires Inv(db) && Answer(db, write, now) == WriterError
    ensures Written(db, write, now) == db
  {
    WrittenKeepsInv(db, write, now);
    hide Inv;
  }

  lemma TurnCame(a: Shared, mid: Shared)
    requires WInv(a) && !a.ownPending && WInv(mid) && Rely(a.(ownPending := true), mid) && mid.queue == []
    ensures TurnTaken(a, mid)
  {
    assert a.behind == [];
  }

  lemma TurnTakenFacts(a: Shared, mid: Shared)
    requires TurnTaken(a, mid)
    ensures WInv(mid) && mid.queue == [] && mid.ownPending && (a.coordinator.Absent? ==> mid.coordinator.Absent?)
  {
  }

  lemma RelyKeepsTurn(a: Shared, b: Shared)
    requires Rely(a, b) && !a.ownPending
    ensures !b.ownPending
  {
  }

  lemma WrittenStaysSettled(db: Db, write: Write, now: Timestamp)
    requires Inv(db) && NoneRunning(db) && !(write.WriteTransition? && write.transition.ToRunning?)
    ensures NoneRunning(Written(db, write, now))
  {
    hide Inv;
    if write.WriteRecovery? { RecoverStands(db, now, write.failure); }
  }

  lemma ResumedKeepsWInv(mid: Shared, db: Db)
    requires WInv(mid) && mid.queue == []
    requires Inv(db) && LastId(mid.db.log) <= LastId(db.log)
    requires mid.coordinator.Recovered? || mid.coordinator.Finalizing? ==> NoneRunning(db)
    ensures WInv(Resumed(mid, db))
  {
    hide Inv, LastId, NoneRunning;
  }

  lemma SubmitEnds(mid: Shared, write: Write, now: Timestamp)
    requires WInv(mid) && mid.queue == []
    requires write.WriteTransition? && write.transition.ToRunning? ==> mid.coordinator.Absent?
    ensures WInv(Resumed(mid, mid.db))
    ensures WInv(Resumed(mid, Written(mid.db, write, now)))
  {
    WrittenKeepsInv(mid.db, write, now);
    LogOnlyGrows(mid.db, Written(mid.db, write, now));
    hide Inv, Extends, Written, LastId;
    if mid.coordinator.Recovered? || mid.coordinator.Finalizing? {
      assert NoneRunning(mid.db);
      WrittenStaysSettled(mid.db, write, now);
    }
    ResumedKeepsWInv(mid, mid.db);
    ResumedKeepsWInv(mid, Written(mid.db, write, now));
  }
}
