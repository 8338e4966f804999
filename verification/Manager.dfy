/**
 * The task-manager actor. It waits only inside calls on `env`, so every interleaving with the
 * other actors is some script of `env`.
 */
module TaskManager {
  import opened Domain
  import opened EventLog
  import opened TaskOrder
  import opened StoreModel
  import opened World
  import opened Process
  import opened ManagerState

  datatype ManagerError =
    | ReadFailed | WriteFailed | NotFound | NotCancellable(task: Task) | ManagerFrozen | ManagerDegraded | Invariant

  datatype CancelOutcome = CancelDone(task: Task) | CancelAccepted(task: Task)

  datatype EventError = TaskNotRunning | EventStoreDegraded

  datatype ClaimEnd = Claimed | NoPermit | Abandoned

  datatype QuiesceResult =
    | Durable(interrupted: nat, highWatermark: nat, handles: set<TaskId>)
    | NotDurable(handles: set<TaskId>)

  datatype FinalizeError = LostToQuiescing

  datatype Recovery = DegradedRecovery(discarded: nat, readyGeneration: nat)

  // The four kinds of event a runner can report.
  type RunnerEvent = payload: Payload | !payload.Lifecycle? witness Plan(PlanSnapshot(0, []))

  class Manager {
    const env: Env
    const concurrency: nat
    var permits: nat
    var active: map<TaskId, bool>
    var pending: seq<PendingResult>
    var scanRequested: bool
    var degraded: bool
    var frozen: bool
    ghost var launches: seq<TaskId>
    ghost var finished: set<TaskId>
    ghost var held: set<TaskId>
    ghost var sealed: Option<seq<TaskEvent>>

    ghost function State(): Local
      reads this
    {
      Local(concurrency, permits, active, scanRequested, degraded, frozen, launches, finished, held, sealed)
    }

    ghost predicate Valid()
      reads this, env
    {
      Safe(State(), env.w) && held == {}
    }

    // Everything that a message can change.
    ghost function Now(): Moment
      reads this, env
    {
      Moment(State(), env.w, pending, env.submitted, env.faults)
    }

    // Startup recovery has run, so nothing is running yet.
    constructor (env: Env, concurrency: nat)
      requires WInv(env.w) && !env.w.ownPending && env.w.coordinator.Absent?
      requires env.w.service.state != StoreDegraded && NoneRunning(env.w.db)
      ensures Valid() && this.env == env && this.concurrency == permits == concurrency
      ensures !degraded && !frozen && launches == [] && finished == {} && sealed.None?
    {
      this.env, this.concurrency, permits, active, pending := env, concurrency, concurrency, map[], [];
      scanRequested, degraded, frozen := false, false, false;
      launches, finished, held, sealed := [], {}, {}, None;
    }

    // ----- reading shared state: others may move first -----

    method Await()
      requires WInv(env.w)
      modifies env
      ensures WInv(env.w) && Rely(old(env.w), env.w) && Moves(old(env.w), env.w)
      ensures old(env.w).coordinator.Absent? ==> env.w.coordinator.Absent? && Kept(old(env.w).db, env.w.db, {})
      ensures env.submitted == old(env.submitted) && env.faults == old(env.faults)
      ensures Safe(State(), old(env.w)) ==> Safe(State(), env.w)
      ensures RunningActive(active.Keys, old(env.w).db) ==> RunningActive(active.Keys, env.w.db)
    {
      env.Interfere();
      RelyMoves(old(env.w), env.w);
      if Safe(State(), old(env.w)) { SafeStable(State(), old(env.w), env.w); }
      if RunningActive(active.Keys, old(env.w).db) { RunningActiveStable(active.Keys, old(env.w), env.w); }
      hide WInv, Safe, Moves, RunningActive, Kept, Extends, SealRely, RowsStand;
    }

    method IsFrozen() returns (b: bool)
      requires WInv(env.w)
      modifies env
      ensures WInv(env.w) && Rely(old(env.w), env.w) && Moves(old(env.w), env.w)
      ensures old(env.w).coordinator.Absent? ==> env.w.coordinator.Absent? && Kept(old(env.w).db, env.w.db, {})
      ensures env.submitted == old(env.submitted) && env.faults == old(env.faults)
      ensures Safe(State(), old(env.w)) ==> Safe(State(), env.w)
      ensures RunningActive(active.Keys, old(env.w).db) ==> RunningActive(active.Keys, env.w.db)
      ensures b == (frozen || env.w.frozenFlag)
    {
      hide *;
      Await();
      b := frozen || env.w.frozenFlag;
    }

    method Send(write: Write, rollsBackOnError: bool)
      returns (receipt: Receipt, ghost mid: Shared, ghost now: Timestamp, ghost wrote: bool)
      requires Safe(State(), env.w) && sealed.None?
      requires write.WriteTransition? && write.transition.ToRunning? ==> write.t in active && !degraded
      modifies env
      ensures env.faults >= old(env.faults)
      ensures Safe(State(), env.w) && Moves(old(env.w), env.w) && env.submitted == old(env.submitted) + [write]
      ensures RunningActive(active.Keys, old(env.w).db) ==> RunningActive(active.Keys, env.w.db)
      ensures TurnTaken(old(env.w), mid) && Inv(mid.db) && Rely(Outcome(mid, write, now, wrote), env.w)
      ensures receipt != WriterError ==> wrote && receipt == Answer(mid.db, write, now) && env.faults == old(env.faults)
      ensures receipt == WriterError ==> Answer(mid.db, write, now) == WriterError || env.faults == old(env.faults) + 1
      ensures receipt == WriterError && rollsBackOnError ==> Outcome(mid, write, now, wrote).db == mid.db
    {
      assert WInv(env.w) && !env.w.ownPending && (!degraded ==> env.w.coordinator.Absent?);
      hide Safe, WInv, Moves, RunningActive, TurnTaken, Rely, Written, Answer, Inv;
      receipt, mid, now, wrote := env.Submit(write, rollsBackOnError);
      TurnTakenFacts(old(env.w), mid);
      WriteIsSafe(State(), old(env.w), mid, write, now, wrote, env.w);
      assert Inv(mid.db) by { assert WInv(mid); InvOf(mid); }
    }

    // ----- the active table -----

    method RemoveActive(t: TaskId)
      requires Safe(State(), env.w) && (t in active ==> t in held)
      requires env.w.frozenFlag || degraded || t !in env.w.db.rows || env.w.db.rows[t].status != Running
      modifies this`active, this`permits, this`held
      ensures Safe(State(), env.w) && State() == Without(old(State()), t)
    {
      hide Safe;
      RemovalIsSafe(State(), env.w, t);
      if t in active {
        active := active - {t};
        permits := permits + 1;
        held := held - {t};
      }
    }

    // ----- claiming -----

    // One turn of the claim loop.
    method ClaimOne(t: TaskId, repositories: set<RepositoryId>) returns (end: ClaimEnd)
      requires Valid() && !degraded && !frozen
      requires t in env.w.db.rows && env.w.db.rows[t].status == Queued && env.w.db.rows[t].repositoryId in repositories
      modifies this`permits, this`active, this`held, this`launches, env
      ensures Valid() && Moves(old(env.w), env.w)
      ensures t in env.w.db.rows && Kept(old(env.w.db), env.w.db, {t})
      ensures State() == old(State()).(permits := permits, active := active, launches := launches)
      ensures end == Claimed ==> env.w.db.rows[t].status == Running && launches == old(launches) + [t]
      ensures end != Claimed ==> State() == old(State())
      ensures end == NoPermit ==> permits == 0
      ensures env.faults >= old(env.faults) && (end == Abandoned ==> env.w.frozenFlag || env.faults > old(env.faults))
      ensures end != Claimed ==> env.w.db.rows[t] == old(env.w.db.rows[t]) || (end == Abandoned && env.w.db.rows[t].status == Running)
    {
      hide Safe, WInv, Rely, Moves, Kept, RunningActive, TurnTaken, Inv, Answer, Written;
      SafeFacts(State(), env.w);
      QueuedIsNew(State(), env.w, t);
      MovesReflexive(env.w);
      // Neither `continue` of the loop is ever taken.
      assert t !in active && env.w.db.rows[t].repositoryId in repositories;
      if permits == 0 {
        KeptReflexive(env.w.db, {t});
        return NoPermit;
      }
      var stop := IsFrozen();
      KeptRow(old(env.w.db), env.w.db, t);
      KeptWeaker(old(env.w.db), env.w.db, {t});
      if stop { return Abandoned; }
      ghost var idle := State();
      RegisteringIsSafe(State(), env.w, t);
      active, permits, held := active[t := false], permits - 1, {t};
      ghost var before := env.w;
      end := ClaimRegistered(t, idle);
      ThenWrites(old(env.w), before, env.w, t);
    }

    // The re-checks between registering the runner and writing the claim.
    method ClaimRegistered(t: TaskId, ghost idle: Local) returns (end: ClaimEnd)
      requires Safe(State(), env.w) && !degraded && !frozen && held == {t}
      requires idle.permits > 0 && State() == Registered(idle, t) && t !in idle.active && idle.held == {}
      requires t !in launches
      requires t in env.w.db.rows && env.w.db.rows[t].status == Queued
      modifies this`permits, this`active, this`held, this`launches, env
      ensures Valid() && Moves(old(env.w), env.w)
      ensures t in env.w.db.rows && Kept(old(env.w.db), env.w.db, {t})
      ensures end != NoPermit && env.faults >= old(env.faults)
      ensures end == Abandoned ==> env.w.frozenFlag || env.faults > old(env.faults)
      ensures end == Claimed ==> State() == Launched(Registered(idle, t), t) && env.w.db.rows[t].status == Running
      ensures end == Abandoned ==> State() == idle && (env.w.db.rows[t].status == Running || env.w.db.rows[t] == old(env.w.db.rows[t]))
    {
      hide Safe, WInv, Rely, Moves, Kept, RunningActive, TurnTaken, Inv, Answer, Written;
      SafeFacts(State(), env.w);
      MovesReflexive(env.w);
      var stop := IsFrozen();
      KeptRow(old(env.w.db), env.w.db, t);
      KeptWeaker(old(env.w.db), env.w.db, {t});
      if !stop {
        var senderClosed := env.Fails();
        ghost var before := env.w;
        stop := IsFrozen();
        Then(old(env.w), before, env.w, t);
        stop := stop || senderClosed;
      }
      if stop {
        RemoveActive(t);
        WithoutRegistered(idle, t);
        return Abandoned;
      }
      ghost var before := env.w;
      end := WriteClaim(t, idle);
      ThenWrites(old(env.w), before, env.w, t);
    }

    // The compare-and-set to Running, and the launch if it was applied.
    method WriteClaim(t: TaskId, ghost idle: Local) returns (end: ClaimEnd)
      requires Safe(State(), env.w) && !degraded && !frozen && held == {t}
      requires idle.permits > 0 && State() == Registered(idle, t) && t !in idle.active && idle.held == {}
      requires t !in launches
      requires t in env.w.db.rows && env.w.db.rows[t].status == Queued
      modifies this`permits, this`active, this`held, this`launches, env
      ensures Valid() && Moves(old(env.w), env.w)
      ensures t in env.w.db.rows && Kept(old(env.w.db), env.w.db, {t})
      ensures end != NoPermit && env.faults >= old(env.faults)
      ensures end == Abandoned ==> env.w.frozenFlag || env.faults > old(env.faults)
      ensures end == Claimed ==> State() == Launched(Registered(idle, t), t) && env.w.db.rows[t].status == Running
      ensures end == Abandoned ==> State() == idle && (env.w.db.rows[t].status == Running || env.w.db.rows[t] == old(env.w.db.rows[t]))
    {
      hide Safe, WInv, Rely, Moves, Kept, RunningActive, TurnTaken, Inv, Answer, Written;
      SafeFacts(State(), env.w);
      var write := WriteTransition(t, Queued, ToRunning);
      var receipt, mid, now, wrote := Send(write, true);
      SafeFacts(State(), env.w);
      AnswerShape(mid.db, write, now);
      if receipt.Transitioned? {
        TransitionSeen(old(env.w), mid, write, now, env.w, receipt.outcome);
        // Nobody else moves a queued row, so the compare-and-set cannot conflict.
        if receipt.outcome.Conflict? {
          KeptRow(old(env.w.db), env.w.db, t);
          assert false;
        }
        ghost var before := env.w;
        var stop := IsFrozen();
        Then(old(env.w), before, env.w, t);
        if !stop {
          SpawnRunner(t);
          return Claimed;
        }
      } else {
        TurnHasRow(old(env.w), mid, t);
        StoreAccepts(mid.db, write, now);
        WriteKeeps(old(env.w), mid, write, now, wrote, env.w);
        KeptRow(old(env.w.db), env.w.db, t);
      }
      RemoveActive(t);
      WithoutRegistered(idle, t);
      end := Abandoned;
    }

    // `spawn_runner`
    method SpawnRunner(t: TaskId)
      requires Safe(State(), env.w) && held == {t} && t !in launches
      requires t in env.w.db.rows && env.w.db.rows[t].status != Queued
      modifies this`launches, this`held
      ensures Valid() && State() == Launched(old(State()), t)
    {
      hide Safe;
      LaunchingIsSafe(State(), env.w, t);
      launches, held := launches + [t], {};
    }

    // `claim_queued`. The scan works through the queue oldest first and launches a prefix of it;
    // whatever it leaves queued is the rest. Unless it was stopped, it ends because the queue
    // or the permits ran out.
    method ClaimQueued() returns (ok: bool, ghost queued: seq<TaskId>, ghost n: nat, ghost stopped: bool)
      requires Valid() && !degraded && !frozen
      modifies this`permits, this`active, this`held, this`launches, env
      ensures Valid() && Moves(old(env.w), env.w) && env.faults >= old(env.faults)
      ensures !ok ==> State() == old(State()) && env.faults > old(env.faults)
      ensures stopped ==> env.w.frozenFlag || env.faults > old(env.faults)
      ensures ok ==> ScanResult(old(env.w.db), queued, n, env.w.db) && (stopped || n == |queued| || permits == 0)
      ensures ok ==> exists m :: 0 <= m <= n && (stopped || m == n) && launches == old(launches) + queued[..m]
      ensures State() == old(State()).(permits := permits, active := active, launches := launches)
    {
      hide Safe, WInv, Rely, Moves, Kept, RunningActive, Inv, Lists, Extends, ScanAt, ScanResult;
      SafeFacts(State(), env.w);
      queued, n, stopped := [], 0, false;
      Await();
      var failed := env.Fails();
      if failed { return false, queued, n, stopped; }
      ok := true;
      SafeFacts(State(), env.w);
      ghost var snapshot := env.w.db;
      var repositories := env.w.db.repositories;
      var waiting := set t | t in env.w.db.rows && env.w.db.rows[t].status == Queued;
      var order := Select(env.w.db.rows, waiting);
      queued := order;
      ScanStarts(old(env.w.db), snapshot, queued);
      ghost var before := env.w;
      ghost var m;
      n, m, stopped := LaunchWaiting(order, repositories, snapshot);
      MovesTransitive(old(env.w), before, env.w);
      ScanEnds(old(env.w.db), snapshot, order, n, env.w.db);
    }

    // The loop of `claim_queued` over the rows it read: `m` tasks are launched.
    method LaunchWaiting(order: seq<TaskId>, repositories: set<RepositoryId>, ghost snapshot: Db)
      returns (ghost n: nat, ghost m: nat, ghost stopped: bool)
      requires Valid() && !degraded && !frozen && ScanAt(snapshot, order, 0, env.w.db)
      requires Inv(snapshot) && repositories == snapshot.repositories
      modifies this`permits, this`active, this`held, this`launches, env
      ensures Valid() && Moves(old(env.w), env.w) && env.faults >= old(env.faults)
      ensures ScanAt(snapshot, order, n, env.w.db) && (stopped || n == |order| || permits == 0)
      ensures m <= n && (stopped || m == n) && launches == old(launches) + order[..m]
      ensures stopped ==> env.w.frozenFlag || env.faults > old(env.faults)
      ensures State() == old(State()).(permits := permits, active := active, launches := launches)
    {
      hide Safe, WInv, Rely, Moves, Kept, RunningActive, Inv, Lists, Extends, ScanAt;
      MovesReflexive(env.w);
      var next := 0;
      var full := false;
      m, stopped := 0, false;
      while next < |order| && !full
        invariant m <= next <= |order| && (stopped || m == next) && (stopped ==> full)
        invariant Valid() && Moves(old(env.w), env.w)
        invariant ScanAt(snapshot, order, next, env.w.db)
        invariant launches == old(launches) + order[..m]
        invariant State() == old(State()).(permits := permits, active := active, launches := launches)
        invariant full ==> stopped || permits == 0
        invariant env.faults >= old(env.faults)
        invariant stopped ==> env.w.frozenFlag || env.faults > old(env.faults)
        decreases |order| - next, !full
      {
        ghost var before := env.w;
        ScanReaches(snapshot, order, next, env.w.db);
        var end := ClaimOne(order[next], repositories);
        MovesTransitive(old(env.w), before, env.w);
        MovesExtend(before, env.w);
        ScanSteps(snapshot, order, next, before.db, env.w.db);
        if end == Claimed {
          PrefixGrows(old(launches), order, m);
          next, m := next + 1, m + 1;
        } else {
          full := true;
          stopped := end == Abandoned;
          if env.w.db.rows[order[next]].status != Queued { next := next + 1; }
        }
      }
      n := next;
    }

    // ----- cancelling -----

    method LoadTask(t: TaskId) returns (r: Result<Task, ManagerError>)
      requires Safe(State(), env.w)
      modifies env
      ensures Safe(State(), env.w) && Moves(old(env.w), env.w) && env.submitted == old(env.submitted)
      ensures old(env.w).coordinator.Absent? ==> Kept(old(env.w).db, env.w.db, {})
      ensures RunningActive(active.Keys, old(env.w).db) ==> RunningActive(active.Keys, env.w.db)
      ensures r.Ok? ==> t in env.w.db.rows && env.w.db.rows[t] == r.value && r.value.id == t
      ensures r.Err? ==> (r.error == ReadFailed && env.faults > old(env.faults)) || (r.error == NotFound && t !in env.w.db.rows)
      ensures env.faults >= old(env.faults)
    {
      hide Safe, WInv, Rely, Moves, Kept, RunningActive, Inv;
      SafeFacts(State(), env.w);
      Await();
      SafeFacts(State(), env.w);
      var failed := env.Fails();
      if failed { return Err(ReadFailed); }
      if t !in env.w.db.rows { return Err(NotFound); }
      RowId(env.w.db, t);
      r := Ok(env.w.db.rows[t]);
    }

    // `cancel_task`: both `Invariant` errors of the code are unreachable.
    method CancelTask(t: TaskId) returns (r: Result<CancelOutcome, ManagerError>)
      requires Valid()
      modifies this`active, env
      ensures env.faults >= old(env.faults)
      ensures Valid() && Moves(old(env.w), env.w)
      ensures r != Err(Invariant)
      ensures active == old(active) || (t in old(active) && active == old(active)[t := true])
      ensures degraded ==> r.Err? && r.error in {ManagerDegraded, ManagerFrozen} && env.submitted == old(env.submitted)
      ensures frozen ==> r == Err(ManagerFrozen) && env.submitted == old(env.submitted)
      ensures !degraded ==> Kept(old(env.w.db), env.w.db, {t})
      ensures r.Ok? && r.value.CancelDone? ==> Stored(env.w.db, t, r.value.task) && r.value.task.status == Cancelled
      ensures r.Ok? && r.value.CancelAccepted? ==> t in active && active[t] && Stored(env.w.db, t, r.value.task)
      ensures r.Err? && r.error.NotCancellable? ==>
                Stored(env.w.db, t, r.error.task) && r.error.task.IsTerminal() && r.error.task.status != Cancelled
      ensures r.Err? && r.error in {ReadFailed, WriteFailed} ==> env.faults > old(env.faults)
      ensures r == Err(ManagerFrozen) ==> env.w.frozenFlag
      ensures r == Err(ManagerDegraded) ==> degraded
      ensures r == Err(NotFound) ==> t !in env.w.db.rows
      ensures CancelAnswered(t, old(Now()), r, Now())
    {
      hide Safe, WInv, Rely, Moves, Kept, RunningActive, CancelAnswered;
      ghost var start := Now();
      SafeFacts(State(), env.w);
      var stop := IsFrozen();
      if stop {
        SafeFacts(State(), env.w);
        if !degraded { KeptWeaker(old(env.w.db), env.w.db, {t}); }
        CancelRefused(t, start, ManagerFrozen, Now());
        return Err(ManagerFrozen);
      }
      if degraded {
        CancelRefused(t, start, ManagerDegraded, Now());
        return Err(ManagerDegraded);
      }
      SafeFacts(State(), env.w);
      ghost var before := env.w;
      var loaded := LoadTask(t);
      MovesTransitive(old(env.w), before, env.w);
      KeptFrom(old(env.w.db), before.db, env.w.db, {});
      KeptWeaker(old(env.w.db), env.w.db, {t});
      ghost var read := Now();
      if loaded.Err? {
        CancelUnread(t, start, loaded.error, read);
        return Err(loaded.error);
      }
      before := env.w;
      r := CancelLoaded(loaded.value);
      ThenWrites(old(env.w), before, env.w, t);
      CancelSince(t, start, read, r, Now());
      CancelMeans(t, start, r, Now());
    }

    // What follows from the row that was read.
    method CancelLoaded(task: Task) returns (r: Result<CancelOutcome, ManagerError>)
      requires Valid() && !degraded && !frozen && RunningActive(active.Keys, env.w.db) && Stored(env.w.db, task.id, task)
      modifies this`active, env
      ensures Valid() && Moves(old(env.w), env.w) && Kept(old(env.w.db), env.w.db, {task.id}) && env.faults >= old(env.faults)
      ensures r.Ok? || r.error in {ReadFailed, WriteFailed} || r.error.NotCancellable?
      ensures CancelAnswered(task.id, old(Now()), r, Now())
    {
      hide Safe, WInv, Rely, Moves, Kept, RunningActive, SameIdentity;
      if task.status == Queued {
        r := CancelQueued(task.id);
      } else {
        r := CancelCurrent(task);
        KeptWeaker(old(env.w.db), env.w.db, {task.id});
      }
    }

    // Nobody else moves a queued row, so the conflict that the code follows up cannot occur.
    method CancelQueued(t: TaskId) returns (r: Result<CancelOutcome, ManagerError>)
      requires Valid() && !degraded && !frozen && RunningActive(active.Keys, env.w.db)
      requires t in env.w.db.rows && env.w.db.rows[t].status == Queued
      modifies env
      ensures Valid() && Moves(old(env.w), env.w) && Kept(old(env.w.db), env.w.db, {t})
      ensures r == Err(WriteFailed) || (r.Ok? && r.value.CancelDone?)
      ensures r.Ok? ==>
                && Stored(env.w.db, t, r.value.task) && r.value.task.status == Cancelled && r.value.task.failure == None
                && SameIdentity(old(env.w.db.rows[t]), r.value.task)
      ensures r.Err? ==> env.faults > old(env.faults)
      ensures env.submitted == old(env.submitted) + [WriteTransition(t, Queued, ToCancelled)] && env.faults >= old(env.faults)
    {
      hide Safe, WInv, Rely, Moves, Kept, RunningActive, TurnTaken, Inv, Answer, Written, SameIdentity;
      var write := WriteTransition(t, Queued, ToCancelled);
      SafeFacts(State(), env.w);
      var receipt, mid, now, wrote := Send(write, false);
      SafeFacts(State(), env.w);
      AnswerShape(mid.db, write, now);
      if receipt.Transitioned? {
        TransitionSeen(old(env.w), mid, write, now, env.w, receipt.outcome);
        if receipt.outcome.Conflict? {
          KeptRow(old(env.w.db), env.w.db, t);
          assert false;
        }
        IdentityKept(old(env.w), env.w, t);
        r := Ok(CancelDone(receipt.outcome.task));
      } else {
        TurnHasRow(old(env.w), mid, t);
        StoreAccepts(mid.db, write, now);
        WriteKeeps(old(env.w), mid, write, now, wrote, env.w);
        r := Err(WriteFailed);
      }
    }

    // `cancel_current_with_status`
    method CancelCurrent(task: Task) returns (r: Result<CancelOutcome, ManagerError>)
      requires Valid() && !degraded && RunningActive(active.Keys, env.w.db)
      requires Stored(env.w.db, task.id, task) && task.status != Queued
      modifies this`active, env
      ensures Valid() && Moves(old(env.w), env.w) && Kept(old(env.w.db), env.w.db, {})
      ensures env.faults >= old(env.faults) && env.submitted == old(env.submitted)
      ensures active == if task.status == Running && task.id in old(active) then old(active)[task.id := true] else old(active)
      ensures match task.status
              case Running =>
                && task.id in active && active[task.id]
                && ((r == Err(ReadFailed) && env.faults > old(env.faults))
                    || (r.Ok? && r.value.CancelAccepted? && Stored(env.w.db, task.id, r.value.task)))
              case Cancelled => r == Ok(CancelDone(task)) && Stored(env.w.db, task.id, task)
              case _ => r == Err(NotCancellable(task)) && Stored(env.w.db, task.id, task)
    {
      hide Safe, WInv, Rely, Moves, Kept, RunningActive, Inv;
      MovesReflexive(env.w);
      KeptReflexive(env.w.db, {});
      match task.status {
        case Running =>
          RunningIsActive(active.Keys, env.w.db, task.id);
          CancellingIsSafe(State(), env.w, task.id);
          active := active[task.id := true];
          SafeFacts(State(), env.w);
          var loaded := LoadTask(task.id);
          KeptRow(old(env.w.db), env.w.db, task.id);
          r := match loaded case Ok(current) => Ok(CancelAccepted(current)) case Err(error) => Err(error);
        case Cancelled => r := Ok(CancelDone(task));
        case Queued => assert false;
        case _ => r := Err(NotCancellable(task));
      }
    }

    // ----- runner reports -----

    // `append_runner_event`
    method AppendRunnerEvent(t: TaskId, event: RunnerEvent) returns (r: Result<nat, EventError>)
      requires Valid()
      modifies this`active, this`pending, this`scanRequested, this`degraded, env
      ensures env.faults >= old(env.faults)
      ensures Valid() && Moves(old(env.w), env.w)
      ensures degraded == old(degraded) ==> State() == old(State())
      ensures degraded != old(degraded) ==> State() == Degraded(old(State())) && env.faults > old(env.faults)
      ensures r.Ok? ==> t in active && !degraded && LogHas(old(env.w.db), env.w.db, r.value, t, event)
      ensures r == Err(TaskNotRunning) ==> !degraded && (t !in active || (t in env.w.db.rows && env.w.db.rows[t].status != Running))
      ensures old(degraded) ==> env.submitted == old(env.submitted) && r == Err(EventStoreDegraded)
      ensures r == Err(EventStoreDegraded) ==> degraded || env.w.frozenFlag || env.w.service.state != Ready
      ensures frozen ==> State() == old(State()) && env.submitted == old(env.submitted) && r.Err?
      ensures pending == old(pending) || pending == old(pending) + [PendingEvent(t, event)]
      ensures degraded && !env.w.frozenFlag ==> pending == old(pending) + [PendingEvent(t, event)]
      ensures !degraded ==> pending == old(pending) && Kept(old(env.w.db), env.w.db, {t})
      ensures EventAnswered(t, event, old(Now()), r, Now())
    {
      hide Safe, WInv, Rely, Moves, Kept, RunningActive, TurnTaken, Inv, Answer, Written, LogHas;
      SafeFacts(State(), env.w);
      ghost var start := env.w;
      var stop := IsFrozen();
      KeptIfAbsent(start, env.w, {t});
      SafeFacts(State(), env.w);
      if stop { return Err(EventStoreDegraded); }
      if degraded {
        pending := pending + [PendingEvent(t, event)];
        return Err(EventStoreDegraded);
      }
      ghost var before := env.w;
      Await();
      MovesTransitive(start, before, env.w);
      KeptIfAbsent(before, env.w, {t});
      KeptTransitive(start.db, before.db, env.w.db, {t});
      if env.w.service.state != Ready { return Err(EventStoreDegraded); }
      if t !in active { return Err(TaskNotRunning); }
      before := env.w;
      r := WriteRunnerEvent(t, event);
      MovesTransitive(start, before, env.w);
      if !degraded { KeptTransitive(start.db, before.db, env.w.db, {t}); }
      if r.Ok? { LogHasSince(start, before, env.w, r.value, t, event); }
    }

    method WriteRunnerEvent(t: TaskId, event: RunnerEvent) returns (r: Result<nat, EventError>)
      requires Valid() && !degraded && !frozen && t in active
      modifies this`active, this`pending, this`scanRequested, this`degraded, env
      ensures env.faults >= old(env.faults)
      ensures Valid() && Moves(old(env.w), env.w)
      ensures r.Ok? ==> LogHas(old(env.w.db), env.w.db, r.value, t, event)
      ensures r == Err(TaskNotRunning) ==> t in env.w.db.rows && env.w.db.rows[t].status != Running
      ensures r == Err(EventStoreDegraded) ==> State() == Degraded(old(State())) && env.faults > old(env.faults)
      ensures r == Err(EventStoreDegraded) ==> pending == old(pending) + [PendingEvent(t, event)]
      ensures r != Err(EventStoreDegraded) ==> State() == old(State()) && pending == old(pending)
      ensures !degraded ==> Kept(old(env.w.db), env.w.db, {t})
    {
      hide Safe, WInv, Rely, Moves, Kept, RunningActive, TurnTaken, Inv, Answer, Written, LogHas;
      var write := WritePanel(t, event);
      SafeFacts(State(), env.w);
      ActiveIsLaunched(State(), env.w, t);
      var receipt, mid, now, wrote := Send(write, false);
      AnswerShape(mid.db, write, now);
      TurnHasRow(old(env.w), mid, t);
      StoreAccepts(mid.db, write, now);
      WriteKeeps(old(env.w), mid, write, now, wrote, env.w);
      if receipt.PanelAppended? {
        PanelSeen(old(env.w), mid, write, now, env.w, receipt.appended);
        match receipt.appended
        case Appended(eventId) => r := Ok(eventId);
        case NotRunning(_) => r := Err(TaskNotRunning);
      } else {
        ghost var before := env.w;
        EnterDegraded(PendingEvent(t, event));
        MovesTransitive(old(env.w), before, env.w);
        r := Err(EventStoreDegraded);
      }
    }

    // `finish_runner`; the runner has ended, so its entry is held by this call.
    method FinishRunner(t: TaskId, outcome: RunnerOutcome)
      requires Safe(State(), env.w) && held == (if t in active then {t} else {})
      requires t in active ==> t in env.w.db.rows
      modifies this`active, this`permits, this`held, this`pending, this`scanRequested, this`degraded, env
      ensures env.faults >= old(env.faults)
      ensures Valid() && Moves(old(env.w), env.w) && t !in active && launches == old(launches) && frozen == old(frozen)
      ensures active.Keys == old(active).Keys - {t} && sealed == old(sealed)
      ensures t !in old(active) ==> State() == old(State()) && env.submitted == old(env.submitted)
      ensures old(degraded) || frozen ==> env.submitted == old(env.submitted) && degraded == old(degraded)
      ensures degraded && !old(degraded) ==> env.faults > old(env.faults) && forall u | u in active :: active[u]
      ensures !degraded ==> Kept(old(env.w.db), env.w.db, {t}) && pending == old(pending)
      ensures degraded && !env.w.frozenFlag && t in old(active) ==> pending == old(pending) + [PendingTerminal(t, outcome)]
      ensures !degraded && !env.w.frozenFlag && t in old(active) && env.w.service.state == Ready ==> scanRequested
      ensures !degraded && !env.w.frozenFlag && t in old(active) ==> t in old(env.w.db.rows) && t in env.w.db.rows
      ensures !degraded && !env.w.frozenFlag && t in old(active) ==>
                Settles(old(env.w.db.rows[t]), outcome, env.w.db.rows[t])
    {
      hide Safe, WInv, Rely, Moves, Kept, RunningActive, Inv, Settles;
      MovesReflexive(env.w);
      KeptReflexive(env.w.db, {t});
      if t !in active { return; }
      SafeFacts(State(), env.w);
      var stop := IsFrozen();
      KeptIfAbsent(old(env.w), env.w, {t});
      SafeFacts(State(), env.w);
      if !stop && !degraded {
        KeptRow(old(env.w.db), env.w.db, t);
        ghost var before := env.w;
        WriteResult(t, outcome);
        MovesTransitive(old(env.w), before, env.w);
        if !degraded { KeptTransitive(old(env.w.db), before.db, env.w.db, {t}); }
        return;
      }
      if !stop { pending := pending + [PendingTerminal(t, outcome)]; }
      RemoveActive(t);
    }

    method WriteResult(t: TaskId, outcome: RunnerOutcome)
      requires Safe(State(), env.w) && held == {t} && !degraded && !frozen && t in active && t in env.w.db.rows
      modifies this`active, this`permits, this`held, this`pending, this`scanRequested, this`degraded, env
      ensures env.faults >= old(env.faults)
      ensures Valid() && Moves(old(env.w), env.w) && t !in active && launches == old(launches)
      ensures active.Keys == old(active).Keys - {t} && sealed == old(sealed)
      ensures degraded ==> env.faults > old(env.faults) && forall u | u in active :: active[u]
      ensures !degraded ==> Kept(old(env.w.db), env.w.db, {t}) && pending == old(pending)
      ensures degraded ==> pending == old(pending) + [PendingTerminal(t, outcome)]
      ensures !degraded && !env.w.frozenFlag && env.w.service.state == Ready ==> scanRequested
      ensures t in env.w.db.rows && (!degraded ==> Settles(old(env.w.db.rows[t]), outcome, env.w.db.rows[t]))
    {
      hide Safe, WInv, Rely, Moves, Kept, RunningActive, Inv, Settles;
      SettleResult(t, outcome);
      SafeFacts(State(), env.w);
      ghost var before := env.w;
      var allowed := ClaimsAllowed();
      MovesTransitive(old(env.w), before, env.w);
      MovesHasRow(before, env.w, t);
      if !degraded {
        KeptRow(before.db, env.w.db, t);
        KeptWeaker(before.db, env.w.db, {t});
        KeptTransitive(old(env.w.db), before.db, env.w.db, {t});
      }
      if allowed { RequestScan(); }
    }

    // The write of the result, and the end of the entry.
    method SettleResult(t: TaskId, outcome: RunnerOutcome)
      requires Safe(State(), env.w) && held == {t} && !degraded && !frozen && t in active && t in env.w.db.rows
      modifies this`active, this`permits, this`held, this`pending, this`scanRequested, this`degraded, env
      ensures env.faults >= old(env.faults)
      ensures Valid() && Moves(old(env.w), env.w) && t !in active && launches == old(launches)
      ensures active.Keys == old(active).Keys - {t} && sealed == old(sealed)
      ensures degraded ==> env.faults > old(env.faults) && forall u | u in active :: active[u]
      ensures !degraded ==> Kept(old(env.w.db), env.w.db, {t}) && pending == old(pending)
      ensures degraded ==> pending == old(pending) + [PendingTerminal(t, outcome)]
      ensures t in env.w.db.rows && (!degraded ==> Settles(old(env.w.db.rows[t]), outcome, env.w.db.rows[t]))
    {
      hide Safe, WInv, Rely, Moves, Kept, RunningActive, TurnTaken, Inv, Answer, Written;
      var write := WriteTransition(t, Running, outcome.Transition());
      SafeFacts(State(), env.w);
      var receipt, mid, now, wrote := Send(write, false);
      AnswerShape(mid.db, write, now);
      TurnHasRow(old(env.w), mid, t);
      StoreAccepts(mid.db, write, now);
      if receipt.Transitioned? {
        TransitionSeen(old(env.w), mid, write, now, env.w, receipt.outcome);
        KeptNow(old(env.w.db), env.w.db, receipt.outcome.Conflict?, t);
      } else {
        MovesHasRow(old(env.w), env.w, t);
        ghost var before := env.w;
        EnterDegraded(PendingTerminal(t, outcome));
        MovesTransitive(old(env.w), before, env.w);
      }
      RemoveActive(t);
    }

    method RequestScan()
      requires Safe(State(), env.w) && !degraded
      modifies this`scanRequested
      ensures Safe(State(), env.w) && scanRequested
    {
      ScanningIsSafe(State(), env.w);
      hide Safe;
      scanRequested := true;
    }

    method ClaimsAllowed() returns (b: bool)
      requires Safe(State(), env.w)
      modifies env
      ensures Safe(State(), env.w) && Moves(old(env.w), env.w) && env.submitted == old(env.submitted)
      ensures old(env.w).coordinator.Absent? ==> Kept(old(env.w).db, env.w.db, {}) && env.w.coordinator.Absent?
      ensures b ==> !degraded && !frozen
      ensures !b ==> degraded || env.w.frozenFlag || env.w.service.state != Ready
      ensures env.faults == old(env.faults)
    {
      hide Safe, WInv, Rely, Moves, Kept, RunningActive, Inv;
      MovesReflexive(env.w);
      KeptReflexive(env.w.db, {});
      if degraded { return false; }
      SafeFacts(State(), env.w);
      ghost var start := env.w;
      var stop := IsFrozen();
      SafeFacts(State(), env.w);
      if stop { return false; }
      ghost var before := env.w;
      Await();
      MovesTransitive(start, before, env.w);
      KeptTransitive(start.db, before.db, env.w.db, {});
      b := env.w.service.state == Ready;
    }

    // `enter_degraded`
    method EnterDegraded(result: PendingResult)
      requires Safe(State(), env.w) && !frozen
      modifies this`active, this`pending, this`scanRequested, this`degraded, env`w
      ensures Safe(State(), env.w) && Moves(old(env.w), env.w) && pending == old(pending) + [result]
      ensures old(degraded) ==> State() == old(State()) && env.w == old(env.w)
      ensures !old(degraded) ==> State() == Degraded(old(State()))
      ensures !old(degraded) ==> env.w == WithService(old(env.w), StoreDegraded).(coordinator := Trying)
    {
      hide Safe, Moves;
      pending := pending + [result];
      MovesReflexive(env.w);
      if degraded { return; }
      DegradingIsSafe(State(), env.w);
      degraded := true;
      scanRequested := false;
      active := map t | t in active :: true;
      env.w := WithService(env.w, StoreDegraded).(coordinator := Trying);
    }

    // ----- the end of a degraded episode -----

    // `finalize_degraded`; the message comes from the coordinator, which waits for the answer.
    method FinalizeDegraded() returns (r: Result<Recovery, FinalizeError>)
      requires Valid() && env.w.coordinator.Finalizing?
      modifies this`pending, this`scanRequested, this`degraded, env
      ensures env.faults >= old(env.faults)
      ensures Valid() && Moves(old(env.w), env.w) && env.submitted == old(env.submitted)
      ensures env.w.coordinator.Absent?
      ensures r.Err? ==> State() == old(State()) && pending == old(pending)
      ensures r.Err? ==> env.w.frozenFlag || env.w.service.state == Quiescing
      ensures r.Ok? ==> State() == old(State()).(degraded := false, scanRequested := true) && pending == []
      ensures r.Ok? ==> r.value == DegradedRecovery(|old(pending)|, env.w.service.generation) && env.w.service.state == Ready
      ensures r.Ok? ==> old(env.w).coordinator.highWatermark <= env.w.published && NoneRunning(env.w.db)
      ensures FinalizeAnswered(old(Now()), r, Now())
    {
      hide Safe, WInv, Rely, Moves, Kept, RunningActive, NoneRunning;
      ghost var start := env.w;
      SafeFacts(State(), env.w);
      var stop := IsFrozen();
      RelyFinalizing(start, env.w);
      SafeFacts(State(), env.w);
      ghost var before := env.w;
      if !stop {
        Await();
        RelyFinalizing(before, env.w);
        MovesTransitive(start, before, env.w);
        before := env.w;
        stop := env.w.service.state == Quiescing;
      }
      assert degraded;
      if !stop {
        // Quiescing may still come in before `set` takes its lock.
        Await();
        RelyFinalizing(before, env.w);
        MovesTransitive(start, before, env.w);
        before := env.w;
        r := SetReady();
      } else {
        DismissingIsSafe(State(), env.w);
        env.w := env.w.(coordinator := Absent);
        r := Err(LostToQuiescing);
      }
      MovesTransitive(start, before, env.w);
    }

    method SetReady() returns (r: Result<Recovery, FinalizeError>)
      requires Valid() && env.w.coordinator.Finalizing? && degraded && !scanRequested
      modifies this`pending, this`scanRequested, this`degraded, env`w
      ensures env.faults >= old(env.faults)
      ensures Valid() && Moves(old(env.w), env.w) && env.w.coordinator.Absent?
      ensures r.Err? ==> State() == old(State()) && pending == old(pending) && env.w.service.state == Quiescing
      ensures r.Ok? ==> State() == old(State()).(degraded := false, scanRequested := true) && pending == []
      ensures r.Ok? ==> r.value == DegradedRecovery(|old(pending)|, env.w.service.generation) && env.w.service.state == Ready
      ensures r.Ok? ==> old(env.w).coordinator.highWatermark <= env.w.published && NoneRunning(env.w.db)
    {
      hide Safe, WInv, Moves, NoneRunning;
      if env.w.service.state == Quiescing { DismissingIsSafe(State(), env.w); } else { ResumingIsSafe(State(), env.w); }
      var taken := pending;
      pending, degraded, scanRequested := [], false, true;
      match SetService(env.w.service, Ready) {
        case Ok(ready) =>
          env.w := env.w.(service := ready, coordinator := Absent);
          r := Ok(DegradedRecovery(|taken|, ready.generation));
        case Err(_) =>
          pending, degraded, scanRequested := taken, true, false;
          env.w := env.w.(coordinator := Absent);
          r := Err(LostToQuiescing);
      }
    }

    // ----- shutdown -----

    // `quiesce`: freezes the manager for good and interrupts whatever is incomplete.
    method Quiesce(failure: TaskFailure) returns (r: Result<QuiesceResult, ManagerError>)
      requires Valid()
      modifies this`frozen, this`scanRequested, this`sealed, env
      ensures env.faults >= old(env.faults)
      ensures Valid() && Moves(old(env.w), env.w) && env.w.frozenFlag
      ensures r == Err(ManagerFrozen) ==> State() == old(State()) && env.submitted == old(env.submitted)
      ensures r != Err(ManagerFrozen) ==>
                State() == old(State()).(frozen := true, scanRequested := false, sealed := sealed) && !old(frozen)
      ensures r.Err? && r.error != ManagerFrozen ==> r.error == Invariant && env.faults > old(env.faults)
      ensures r.Ok? ==> r.value.handles == active.Keys && env.submitted == old(env.submitted) + [WriteRecovery(failure)]
      ensures r.Ok? && r.value.NotDurable? ==> env.faults > old(env.faults)
      ensures r.Ok? && r.value.Durable? ==> AllInterrupted(old(env.w.db), env.w.db)
      ensures r.Ok? && r.value.Durable? ==> QuiescedBy(old(env.w.db), failure, r.value.interrupted, r.value.highWatermark, env.w.db)
      ensures r.Ok? && r.value.Durable? && Drained(old(env.w)) ==>
                sealed == Some(env.w.db.log) && r.value.highWatermark == LastId(env.w.db.log)
      ensures QuiesceAnswered(failure, old(Now()), r, Now())
    {
      hide Safe, WInv, Rely, Moves, Kept, RunningActive, Inv, AllInterrupted, OnlyInterrupts, Drained, QuiescedBy;
      var first := Freeze();
      if !first { return Err(ManagerFrozen); }
      var clockFailed := env.Fails();
      if clockFailed { return Err(Invariant); }
      ghost var before := env.w;
      if Drained(old(env.w)) { MovesDrained(old(env.w), before); }
      var result := InterruptAll(failure);
      MovesFlag(before, env.w);
      MovesTransitive(old(env.w), before, env.w);
      if result.Durable? {
        MovesSettled(before, env.w);
        InterruptedSince(old(env.w.db), before.db, env.w.db);
        QuiescedSince(old(env.w), before, failure, result.interrupted, result.highWatermark, env.w.db);
      }
      r := Ok(result);
    }

    // Freezes a manager that is not frozen.
    method Freeze() returns (first: bool)
      requires Valid()
      modifies this`frozen, this`scanRequested, env
      ensures Valid() && Moves(old(env.w), env.w) && env.w.frozenFlag && OnlyInterrupts(old(env.w.db), env.w.db)
      ensures env.submitted == old(env.submitted) && env.faults == old(env.faults)
      ensures first ==> !old(frozen) && sealed.None? && State() == old(State()).(frozen := true, scanRequested := false)
      ensures !first ==> State() == old(State())
    {
      hide Safe, WInv, Rely, Moves, Kept, RunningActive, Inv, OnlyInterrupts;
      SafeFacts(State(), env.w);
      var stop := IsFrozen();
      SafeFacts(State(), env.w);
      RelyOnlyInterrupts(old(env.w), env.w);
      if stop { return false; }
      ghost var before := env.w;
      FreezingIsSafe(State(), env.w);
      frozen, scanRequested := true, false;
      env.w := WithService(env.w.(frozenFlag := true), Quiescing);
      MovesTransitive(old(env.w), before, env.w);
      first := true;
    }

    // The recovery of a frozen manager.
    method InterruptAll(failure: TaskFailure) returns (r: QuiesceResult)
      requires Valid() && frozen && sealed.None?
      modifies this`sealed, env
      ensures Valid() && Moves(old(env.w), env.w) && env.submitted == old(env.submitted) + [WriteRecovery(failure)]
      ensures State() == old(State()).(sealed := sealed) && r.handles == active.Keys && env.faults >= old(env.faults)
      ensures r.NotDurable? ==> env.faults > old(env.faults)
      ensures r.Durable? ==> AllInterrupted(old(env.w.db), env.w.db)
      ensures r.Durable? ==> QuiescedBy(old(env.w.db), failure, r.interrupted, r.highWatermark, env.w.db)
      ensures r.Durable? && Drained(old(env.w)) ==> sealed == Some(env.w.db.log) && r.highWatermark == LastId(env.w.db.log)
    {
      hide Safe, WInv, Rely, Moves, Kept, RunningActive, TurnTaken, Inv, Answer, Written, Sealed, AllInterrupted, OnlyInterrupts, Drained;
      hide QuiescedBy;
      var write := WriteRecovery(failure);
      SafeFacts(State(), env.w);
      var receipt, mid, now, wrote := Send(write, false);
      SafeFacts(State(), env.w);
      AnswerShape(mid.db, write, now);
      StoreAccepts(mid.db, write, now);
      var handles := active.Keys;
      if receipt.RecoveryDone? {
        RecoveryDoneMeans(old(env.w), mid, failure, now, env.w);
        RecoveryIsOne(old(env.w), mid, failure, now, env.w);
        if Drained(old(env.w)) {
          TurnTakenFacts(old(env.w), mid);
          RecoverySeals(old(env.w), mid, failure, now, env.w);
          SealingIsSafe(State(), env.w);
          sealed := Some(env.w.db.log);
        }
        r := Durable(receipt.interrupted, receipt.highWatermark, handles);
      } else {
        r := NotDurable(handles);
      }
    }

    // `cancel_all`, or the cancellation that all runners share: everybody is told to stop.
    method CancelAll()
      requires Valid()
      modifies this`active
      ensures Valid() && State() == old(State()).(active := active)
      ensures active.Keys == old(active).Keys && forall t | t in active :: active[t]
    {
      hide Safe;
      TellingAllIsSafe(State(), env.w);
      active := map t | t in active :: true;
    }

    // ----- the actor loop -----

    method NotifyQueued() returns (r: Result<(), ManagerError>)
      requires Valid()
      modifies this`scanRequested, env
      ensures env.faults >= old(env.faults)
      ensures Valid() && Moves(old(env.w), env.w) && env.submitted == old(env.submitted)
      ensures State() == old(State()).(scanRequested := scanRequested) && (r.Ok? ==> scanRequested && !degraded && !frozen)
      ensures r.Err? ==> scanRequested == old(scanRequested)
      ensures r == Err(ManagerFrozen) ==> env.w.frozenFlag
      ensures r == Err(ManagerDegraded) ==> degraded || env.w.service.state != Ready
      ensures NotifyAnswered(old(Now()), r, Now())
    {
      hide Safe, WInv, Rely, Moves, Kept, RunningActive;
      SafeFacts(State(), env.w);
      var stop := IsFrozen();
      SafeFacts(State(), env.w);
      if stop { return Err(ManagerFrozen); }
      if degraded { return Err(ManagerDegraded); }
      ghost var before := env.w;
      Await();
      MovesTransitive(old(env.w), before, env.w);
      if env.w.service.state != Ready { return Err(ManagerDegraded); }
      RequestScan();
      r := Ok(());
    }

    // A runner has ended: from here on it counts as finished.
    method TakeFinished(t: TaskId, outcome: RunnerOutcome)
      requires Valid()
      modifies this, env
      ensures env.faults >= old(env.faults)
      ensures Valid() && Moves(old(env.w), env.w) && launches == old(launches)
      ensures finished == old(finished) + Reported(FinishedMessage(t, outcome), old(launches))
      ensures active.Keys == old(active.Keys) - {t}
      ensures frozen == old(frozen) && sealed == old(sealed)
      ensures old(frozen) || old(degraded) ==> env.submitted == old(env.submitted) && degraded == old(degraded)
      ensures degraded && !old(degraded) ==> env.faults > old(env.faults)
      ensures FinishHandled(t, outcome, old(Now()), Now())
    {
      hide Safe, WInv, Moves, Kept, Settles;
      EndingIsSafe(State(), env.w, t);
      finished, held := Ended(State(), t).finished, Ended(State(), t).held;
      FinishRunner(t, outcome);
    }

    method HandleMessage(message: Message) returns (reply: Reply)
      requires Valid() && (message.FinalizeMessage? ==> env.w.coordinator.Finalizing?)
      modifies this, env
      ensures env.faults >= old(env.faults)
      ensures Valid() && Moves(old(env.w), env.w) && launches == old(launches)
      // A runner counts as finished, and its entry goes, exactly when its own message is handled.
      ensures finished == old(finished) + Reported(message, old(launches))
      ensures active.Keys == old(active.Keys) - Ends(message)
      ensures old(frozen) ==> frozen && sealed == old(sealed)
      ensures old(frozen) || (old(degraded) && !message.QuiesceMessage?) ==> env.submitted == old(env.submitted)
      ensures degraded && !old(degraded) ==> env.faults > old(env.faults)
      ensures old(degraded) && !degraded ==> message.FinalizeMessage? && old(env.w).coordinator.highWatermark <= env.w.published
      ensures message.NotifyMessage? ==> reply.Notified? && (reply.notified.Ok? ==> scanRequested)
      ensures message.CancelMessage? ==>
                reply.Answered? && reply.answered != Err(Invariant)
                && (reply.answered.Ok? ==> Stored(env.w.db, message.t, reply.answered.value.task))
      ensures message.EventMessage? ==>
                reply.EventReply? && (reply.reported.Ok? ==>
                  LogHas(old(env.w.db), env.w.db, reply.reported.value, message.t, message.event))
      ensures message.FinishedMessage? ==> reply == NoReply && message.t !in active
      ensures message.FinalizeMessage? ==>
                reply.Finalized? && env.w.coordinator.Absent? && (reply.finalized.Ok? ==> env.w.service.state == Ready)
      ensures message.QuiesceMessage? ==>
                reply.Quiesced? && env.w.frozenFlag
                && (reply.quiesced.Ok? && reply.quiesced.value.Durable? ==> AllInterrupted(old(env.w.db), env.w.db))
      ensures Promised(message, old(Now()), reply, Now())
    {
      hide Safe, WInv, Moves, Drained, AllInterrupted, LogHas, Kept, Settles, QuiescedBy;
      hide CancelAnswered, EventAnswered, FinalizeAnswered, QuiesceAnswered, NotifyAnswered, FinishHandled;
      match message {
        case NotifyMessage =>
          var result := NotifyQueued();
          reply := Notified(result);
        case CancelMessage(t) =>
          var result := CancelTask(t);
          assert active.Keys == old(active.Keys);
          reply := Answered(result);
        case EventMessage(t, event) =>
          DegradedKeepsKeys(State());
          var result := AppendRunnerEvent(t, event);
          reply := EventReply(result);
        case FinishedMessage(t, outcome) =>
          TakeFinished(t, outcome);
          reply := NoReply;
        case FinalizeMessage =>
          var result := FinalizeDegraded();
          reply := Finalized(result);
        case QuiesceMessage(failure) =>
          var result := Quiesce(failure);
          reply := Quiesced(result);
      }
    }

    // What one turn of the loop takes in: a message or a reconcile tick. Others may move first.
    method TakeMessage(message: Option<Message>) returns (reply: Reply, ghost start: Moment)
      requires Valid()
      modifies this, env
      ensures env.faults >= old(env.faults)
      ensures Valid() && Moves(old(env.w), env.w) && launches == old(launches)
      ensures finished == old(finished) + (if message.Some? then Reported(message.value, old(launches)) else {})
      ensures old(frozen) ==> frozen && sealed == old(sealed) && env.submitted == old(env.submitted)
      ensures old(degraded) && (message.None? || !message.value.QuiesceMessage?) ==> env.submitted == old(env.submitted)
      ensures Follows(old(Now()), start) && Took(message, start, reply, Now())
    {
      hide Safe, WInv, Rely, Moves, Kept, RunningActive, Drained, Reported, AllInterrupted, LogHas, Stored, Promised;
      SafeFacts(State(), env.w);
      reply := NoReply;
      Await();
      ghost var before := env.w;
      start := Now();
      match message {
        case Some(m) =>
          if !m.FinalizeMessage? || env.w.coordinator.Finalizing? {
            reply := HandleMessage(m);
            MovesTransitive(old(env.w), before, env.w);
          } else {
            NothingReported(m, launches);
          }
        case None =>
          var tick := ClaimsAllowed();
          MovesTransitive(old(env.w), before, env.w);
          if tick { RequestScan(); }
      }
    }

    // The scan at the end of a turn, if one was asked for.
    method ScanIfRequested()
      requires Valid()
      modifies this, env
      ensures env.faults >= old(env.faults)
      ensures Valid() && Moves(old(env.w), env.w) && old(launches) <= launches && finished == old(finished)
      ensures frozen == old(frozen) && sealed == old(sealed) && degraded == old(degraded)
      ensures frozen || degraded ==> launches == old(launches) && env.submitted == old(env.submitted)
      ensures scanRequested ==> degraded || env.w.frozenFlag || env.w.service.state != Ready
      ensures ScanFits(old(Now()), Now())
    {
      hide Safe, WInv, Moves, Kept, ScanResult;
      MovesReflexive(env.w);
      if !scanRequested { return; }
      ghost var start := env.w;
      SafeFacts(State(), env.w);
      var allowed := ClaimsAllowed();
      if allowed {
        ghost var before := env.w;
        NotScanningIsSafe(State(), env.w);
        scanRequested := false;
        ghost var queued, n, stopped;
        var ok;
        ok, queued, n, stopped := ClaimQueued();
        MovesTransitive(start, before, env.w);
        if ok { ScanSince(start.db, before.db, queued, n, env.w.db); }
        if ok && !stopped { ScanIsWhole(start.db, old(launches), queued, n, permits, launches, env.w.db); }
      }
    }

    // One turn of the loop: a message or a reconcile tick, then a scan if one was asked for.
    method Turn(message: Option<Message>) returns (ghost record: TurnRecord)
      requires Valid()
      modifies this, env
      ensures env.faults >= old(env.faults)
      ensures Valid() && Moves(old(env.w), env.w) && old(launches) <= launches
      ensures finished == old(finished) + (if message.Some? then Reported(message.value, old(launches)) else {})
      ensures old(frozen) ==> frozen && sealed == old(sealed) && launches == old(launches)
      ensures old(frozen) ==> env.submitted == old(env.submitted)
      ensures old(degraded) && degraded && (message.None? || !message.value.QuiesceMessage?) ==>
                env.submitted == old(env.submitted) && launches == old(launches)
      // No requested scan is left over while claims are allowed.
      ensures scanRequested ==> degraded || env.w.frozenFlag || env.w.service.state != Ready
      // The message was handled as promised, and then the scan.
      ensures Follows(old(Now()), record.start) && TurnFits(message, record) && record.end == Now()
    {
      hide Safe, WInv, Moves, Reported, Took, ScanFits, Follows;
      var reply;
      ghost var start;
      reply, start := TakeMessage(message);
      ghost var before, taken := env.w, Now();
      ScanIfRequested();
      MovesTransitive(old(env.w), before, env.w);
      record := TurnRecord(start, reply, taken, Now());
    }

    // Every run of the actor, from any valid state, over any messages and any interleaving.
    // `launched[n]` is what had been launched when message `n` was taken, `records[n]` its turn.
    method Run(messages: seq<Option<Message>>) returns (ghost launched: seq<seq<TaskId>>, ghost records: seq<TurnRecord>)
      requires Valid()
      modifies this, env
      ensures env.faults >= old(env.faults)
      ensures Valid() && Moves(old(env.w), env.w) && old(launches) <= launches
      ensures |launched| == |messages| && forall n | 0 <= n < |launched| :: old(launches) <= launched[n] <= launches
      ensures finished == FinishedBy(old(finished), messages, launched)
      ensures old(frozen) ==> frozen && sealed == old(sealed) && launches == old(launches) && env.submitted == old(env.submitted)
      ensures old(sealed).Some? ==> env.w.db.log == old(env.w.db.log) && Incomplete(env.w.db) == {}
      // Every message is taken in its turn and handled as promised.
      ensures AllHandled(old(Now()), messages, records, Now())
    {
      hide Safe, WInv, Moves, Drained, Incomplete, Reported, TurnFits, Follows, AllHandled;
      MovesReflexive(env.w);
      SealedFacts(State(), env.w);
      launched, records := [], [];
      ghost var start := Now();
      NothingHandled(start);
      assert messages[..0] == [];
      for n := 0 to |messages|
        invariant Valid() && Moves(old(env.w), env.w) && old(launches) <= launches
        invariant |launched| == n && forall k | 0 <= k < n :: old(launches) <= launched[k] <= launches
        invariant finished == FinishedBy(old(finished), messages[..n], launched) && env.faults >= old(env.faults)
        invariant old(frozen) ==> frozen && sealed == old(sealed) && launches == old(launches) && env.submitted == old(env.submitted)
        invariant AllHandled(start, messages[..n], records, Now())
      {
        ghost var before, from := env.w, Now();
        assert messages[..n + 1][..n] == messages[..n] && (launched + [launches])[..n] == launched;
        launched := launched + [launches];
        ghost var record := Turn(messages[n]);
        MovesTransitive(old(env.w), before, env.w);
        OneMoreHandled(start, messages[..n], records, from, messages[n], record);
        assert messages[..n] + [messages[n]] == messages[..n + 1];
        records := records + [record];
      }
      assert messages[..|messages|] == messages;
      SealedFacts(State(), env.w);
    }
  }

  lemma NothingReported(message: Message, launches: seq<TaskId>)
    requires !message.FinishedMessage?
    ensures Reported(message, launches) == {}
  {
  }

  // The runner whose end a message announces.
  function Ends(message: Message): set<TaskId> {
    if message.FinishedMessage? then {message.t} else {}
  }

  function Reported(message: Message, launches: seq<TaskId>): set<TaskId> {
    set t | t in Ends(message) && t in launches
  }

  // The finished runners after some messages, each handled when `launched[n]` had been started.
  ghost function FinishedBy(start: set<TaskId>, messages: seq<Option<Message>>, launched: seq<seq<TaskId>>): set<TaskId>
    requires |launched| == |messages|
  {
    if messages == [] then start
    else
      var n := |messages| - 1;
      FinishedBy(start, messages[..n], launched[..n])
      + if messages[n].Some? then Reported(messages[n].value, launched[n]) else {}
  }

  // ----- what each message is promised, from the moment it is taken to the answer -----

  datatype Moment = Moment(l: Local, w: Shared, pending: seq<PendingResult>, submitted: seq<Write>, faults: nat)

  ghost predicate Promised(message: Message, a: Moment, reply: Reply, b: Moment) {
    match message
    case NotifyMessage => reply.Notified? && NotifyAnswered(a, reply.notified, b)
    case CancelMessage(t) => reply.Answered? && CancelAnswered(t, a, reply.answered, b)
    case EventMessage(t, event) => reply.EventReply? && EventAnswered(t, event, a, reply.reported, b)
    case FinishedMessage(t, outcome) => reply == NoReply && FinishHandled(t, outcome, a, b)
    case FinalizeMessage => reply.Finalized? && FinalizeAnswered(a, reply.finalized, b)
    case QuiesceMessage(failure) => reply.Quiesced? && QuiesceAnswered(failure, a, reply.quiesced, b)
  }

  // Others moved; the manager did not.
  ghost predicate Follows(a: Moment, b: Moment) {
    b.l == a.l && b.pending == a.pending && b.submitted == a.submitted && b.faults == a.faults && Moves(a.w, b.w)
  }

  // A turn: the moment a message is taken, the answer, the moment it was given, and the moment
  // after the scan.
  datatype TurnRecord = TurnRecord(start: Moment, reply: Reply, taken: Moment, end: Moment)

  ghost predicate TurnFits(message: Option<Message>, record: TurnRecord) {
    Took(message, record.start, record.reply, record.taken) && ScanFits(record.taken, record.end)
  }

  // A tick asks for a scan whenever claims are allowed. A finalize comes only from a coordinator
  // that waits for it.
  ghost predicate Took(message: Option<Message>, a: Moment, reply: Reply, b: Moment) {
    match message
    case Some(m) => if m.FinalizeMessage? && !a.w.coordinator.Finalizing? then b == a else Promised(m, a, reply, b)
    case None =>
      && b.l == a.l.(scanRequested := b.l.scanRequested) && (a.l.scanRequested ==> b.l.scanRequested)
      && b.submitted == a.submitted && b.pending == a.pending && b.faults == a.faults
      && (b.l.scanRequested || a.l.degraded || b.w.frozenFlag || b.w.service.state != Ready)
  }

  // A requested scan is carried out as soon as claims are allowed: every row that waited is
  // launched, oldest first, until the permits run out.
  ghost predicate ScanFits(a: Moment, b: Moment) {
    && b.l == a.l.(permits := b.l.permits, active := b.l.active, launches := b.l.launches, scanRequested := b.l.scanRequested)
    && b.pending == a.pending && b.faults >= a.faults
    && (!a.l.scanRequested ==> b == a)
    && (a.l.frozen || a.l.degraded ==> b.l.launches == a.l.launches && b.submitted == a.submitted)
    && (b.l.scanRequested ==> b.l.degraded || b.w.frozenFlag || b.w.service.state != Ready)
    && (a.l.scanRequested && !b.l.degraded && !b.w.frozenFlag && b.w.service.state == Ready && b.faults == a.faults ==>
          ScannedWhole(a.w.db, a.l.launches, b.l.permits, b.l.launches, b.w.db))
  }

  ghost predicate ScannedWhole(a: Db, launchesBefore: seq<TaskId>, permits: nat, launches: seq<TaskId>, b: Db) {
    exists queued, n: nat :: ScanResult(a, queued, n, b) && (n == |queued| || permits == 0)
                             && n <= |queued| && launches == launchesBefore + queued[..n]
  }

  lemma ScanIsWhole(a: Db, launchesBefore: seq<TaskId>, queued: seq<TaskId>, n: nat, permits: nat, launches: seq<TaskId>, b: Db)
    requires ScanResult(a, queued, n, b) && (n == |queued| || permits == 0)
    requires exists m :: 0 <= m <= n && m == n && n <= |queued| && launches == launchesBefore + queued[..m]
    ensures ScannedWhole(a, launchesBefore, permits, launches, b)
  {
  }

  lemma ScanSince(a: Db, m: Db, queued: seq<TaskId>, n: nat, b: Db)
    requires Kept(a, m, {}) && ScanResult(m, queued, n, b)
    ensures ScanResult(a, queued, n, b)
  {
  }

  // Whatever was queued before a whole scan has left the queue, or there is no permit left.
  lemma NothingWaits(a: Db, launchesBefore: seq<TaskId>, permits: nat, launches: seq<TaskId>, b: Db, t: TaskId)
    requires ScannedWhole(a, launchesBefore, permits, launches, b) && permits > 0
    requires t in a.rows && a.rows[t].status == Queued
    ensures t in b.rows && b.rows[t].status != Queued
  {
    var queued, n: nat :| ScanResult(a, queued, n, b) && (n == |queued| || permits == 0)
                          && n <= |queued| && launches == launchesBefore + queued[..n];
    var i :| 0 <= i < |queued| && queued[i] == t;
  }

  ghost function EndBefore(start: Moment, records: seq<TurnRecord>, n: nat): Moment
    requires n <= |records|
  {
    if n == 0 then start else records[n - 1].end
  }

  ghost predicate AllHandled(start: Moment, messages: seq<Option<Message>>, records: seq<TurnRecord>, end: Moment) {
    && |records| == |messages|
    && (forall n | 0 <= n < |records| :: TurnFits(messages[n], records[n]))
    && (forall n | 0 <= n < |records| :: Follows(EndBefore(start, records, n), records[n].start))
    && end == EndBefore(start, records, |records|)
  }

  lemma NothingHandled(start: Moment)
    ensures AllHandled(start, [], [], start)
  {
  }

  lemma OneMoreHandled(start: Moment, messages: seq<Option<Message>>, records: seq<TurnRecord>, end: Moment,
                       message: Option<Message>, record: TurnRecord)
    requires AllHandled(start, messages, records, end) && Follows(end, record.start) && TurnFits(message, record)
    ensures AllHandled(start, messages + [message], records + [record], record.end)
  {
    hide Follows, TurnFits;
    var more, all := records + [record], messages + [message];
    forall n | 0 <= n < |more| ensures TurnFits(all[n], more[n]) {
      if n < |records| { assert TurnFits(messages[n], records[n]); }
    }
    forall n | 0 <= n < |more| ensures Follows(EndBefore(start, more, n), more[n].start) {
      if n < |records| { assert Follows(EndBefore(start, records, n), records[n].start); }
    }
  }

  ghost predicate NotifyAnswered(a: Moment, r: Result<(), ManagerError>, b: Moment) {
    && b.submitted == a.submitted && b.pending == a.pending
    && match r
       case Ok(_) => !a.l.degraded && !a.l.frozen && b.l == a.l.(scanRequested := true)
       case Err(ManagerFrozen) => b.w.frozenFlag && b.l == a.l
       case Err(ManagerDegraded) => (a.l.degraded || b.w.service.state != Ready) && b.l == a.l
       case Err(_) => false
  }

  ghost predicate CancelAnswered(t: TaskId, a: Moment, r: Result<CancelOutcome, ManagerError>, b: Moment) {
    && b.l == a.l.(active := b.l.active) && b.pending == a.pending
    && (b.l.active == a.l.active || (t in a.l.active && b.l.active == a.l.active[t := true]))
    && (!a.l.degraded ==> Kept(a.w.db, b.w.db, {t}))
    && (a.l.frozen || a.l.degraded ==> b.submitted == a.submitted && b.l == a.l)
    && (match r
        case Ok(CancelDone(task)) => !a.l.degraded && Stored(b.w.db, t, task) && task.status == Cancelled
        case Ok(CancelAccepted(task)) => !a.l.degraded && Stored(b.w.db, t, task) && t in b.l.active && b.l.active[t]
        case Err(NotCancellable(task)) =>
          !a.l.degraded && Stored(b.w.db, t, task) && task.IsTerminal() && task.status != Cancelled
        case Err(ManagerFrozen) => b.w.frozenFlag && b.l == a.l && b.submitted == a.submitted
        case Err(ManagerDegraded) => a.l.degraded
        case Err(NotFound) => !a.l.degraded && t !in b.w.db.rows
        case Err(ReadFailed) => !a.l.degraded && b.faults > a.faults
        case Err(WriteFailed) => !a.l.degraded && b.faults > a.faults
        case Err(Invariant) => false)
    && (t in a.w.db.rows && !a.l.degraded ==> CancelFollows(a.w.db.rows[t], a, r, b))
  }

  lemma CancelRefused(t: TaskId, a: Moment, error: ManagerError, b: Moment)
    requires b.l == a.l && b.pending == a.pending && b.submitted == a.submitted
    requires (error == ManagerFrozen && b.w.frozenFlag && (!a.l.degraded ==> Kept(a.w.db, b.w.db, {t})))
             || (error == ManagerDegraded && a.l.degraded)
    ensures CancelAnswered(t, a, Err(error), b)
  {
    hide Kept;
  }

  lemma CancelMeans(t: TaskId, a: Moment, r: Result<CancelOutcome, ManagerError>, b: Moment)
    requires CancelAnswered(t, a, r, b) && !a.l.degraded && !a.l.frozen
    ensures b.l.active == a.l.active || (t in a.l.active && b.l.active == a.l.active[t := true])
    ensures r.Ok? && r.value.CancelDone? ==> Stored(b.w.db, t, r.value.task) && r.value.task.status == Cancelled
    ensures r.Ok? && r.value.CancelAccepted? ==> t in b.l.active && b.l.active[t] && Stored(b.w.db, t, r.value.task)
    ensures r.Err? && r.error.NotCancellable? ==>
              Stored(b.w.db, t, r.error.task) && r.error.task.IsTerminal() && r.error.task.status != Cancelled
    ensures r.Err? && r.error in {ReadFailed, WriteFailed} ==> b.faults > a.faults
    ensures r != Err(Invariant) && r != Err(ManagerDegraded) && (r == Err(NotFound) ==> t !in b.w.db.rows)
    ensures r == Err(ManagerFrozen) ==> b.w.frozenFlag
  {
    hide Kept, CancelFollows;
  }

  lemma CancelUnread(t: TaskId, a: Moment, error: ManagerError, b: Moment)
    requires b.l == a.l && b.pending == a.pending && b.submitted == a.submitted && !a.l.degraded && !a.l.frozen
    requires Kept(a.w.db, b.w.db, {}) && Kept(a.w.db, b.w.db, {t})
    requires (error == ReadFailed && b.faults > a.faults) || (error == NotFound && t !in b.w.db.rows)
    ensures CancelAnswered(t, a, Err(error), b)
  {
    if t in a.w.db.rows { KeptRow(a.w.db, b.w.db, t); }
    hide Kept;
  }

  // From the moment before the row was read on.
  lemma CancelSince(t: TaskId, a: Moment, m: Moment, r: Result<CancelOutcome, ManagerError>, b: Moment)
    requires m.l == a.l && m.pending == a.pending && m.submitted == a.submitted && m.faults >= a.faults && !a.l.degraded && !a.l.frozen
    requires Kept(a.w.db, m.w.db, {}) && Kept(a.w.db, b.w.db, {t}) && CancelAnswered(t, m, r, b)
    ensures CancelAnswered(t, a, r, b)
  {
    if t in a.w.db.rows { KeptRow(a.w.db, m.w.db, t); }
    hide Kept, SameIdentity;
  }

  // What a cancel does depends on the row: a queued one is cancelled, a running one is told to
  // stop and keeps running, a final one stays as it is.
  ghost predicate CancelFollows(row: Task, a: Moment, r: Result<CancelOutcome, ManagerError>, b: Moment) {
    r == Err(ManagerFrozen) || r == Err(ReadFailed) ||
    match row.status
    case Queued =>
      && b.submitted == a.submitted + [WriteTransition(row.id, Queued, ToCancelled)] && b.l == a.l
      && (r == Err(WriteFailed)
          || (r.Ok? && r.value.CancelDone? && SameIdentity(row, r.value.task) && r.value.task.failure == None))
    case Running => b.submitted == a.submitted && r.Ok? && r.value.CancelAccepted?
    case Cancelled => b.submitted == a.submitted && b.l == a.l && r == Ok(CancelDone(row))
    case _ => b.submitted == a.submitted && b.l == a.l && r == Err(NotCancellable(row))
  }

  ghost predicate EventAnswered(t: TaskId, event: Payload, a: Moment, r: Result<nat, EventError>, b: Moment) {
    && (b.l == a.l || (!a.l.degraded && !a.l.frozen && b.l == Degraded(a.l) && b.faults > a.faults
                       && forall u | u in b.l.active :: b.l.active[u]))
    && (a.l.frozen || a.l.degraded ==> b.submitted == a.submitted)
    && (match r
        case Ok(id) => t in a.l.active && !b.l.degraded && LogHas(a.w.db, b.w.db, id, t, event)
        case Err(TaskNotRunning) => !b.l.degraded && (t !in a.l.active || (t in b.w.db.rows && b.w.db.rows[t].status != Running))
        case Err(EventStoreDegraded) => b.l.degraded || b.w.frozenFlag || b.w.service.state != Ready)
    && (if b.l.degraded && !b.w.frozenFlag then b.pending == a.pending + [PendingEvent(t, event)]
        else b.pending == a.pending || b.pending == a.pending + [PendingEvent(t, event)])
    && (!b.l.degraded ==> b.pending == a.pending && Kept(a.w.db, b.w.db, {t}))
  }

  ghost predicate FinishHandled(t: TaskId, outcome: RunnerOutcome, a: Moment, b: Moment) {
    && b.l.launches == a.l.launches && b.l.finished == a.l.finished + (if t in a.l.launches then {t} else {})
    && b.l.active.Keys == a.l.active.Keys - {t} && b.l.frozen == a.l.frozen && b.l.sealed == a.l.sealed
    && (a.l.degraded || a.l.frozen || t !in a.l.active ==> b.submitted == a.submitted && b.l.degraded == a.l.degraded)
    && (b.l.degraded && !a.l.degraded ==> b.faults > a.faults && forall u | u in b.l.active :: b.l.active[u])
    && (!b.l.degraded ==> Kept(a.w.db, b.w.db, {t}) && b.pending == a.pending)
    && (b.l.degraded && !b.w.frozenFlag && t in a.l.active ==> b.pending == a.pending + [PendingTerminal(t, outcome)])
    && (!b.l.degraded && !b.w.frozenFlag && t in a.l.active ==>
          && (b.w.service.state == Ready ==> b.l.scanRequested)
          && t in a.w.db.rows && t in b.w.db.rows && Settles(a.w.db.rows[t], outcome, b.w.db.rows[t]))
  }

  ghost predicate FinalizeAnswered(a: Moment, r: Result<Recovery, FinalizeError>, b: Moment) {
    && b.w.coordinator.Absent? && b.submitted == a.submitted
    && match r
       case Ok(recovery) =>
         && b.l == a.l.(degraded := false, scanRequested := true) && b.pending == []
         && recovery == DegradedRecovery(|a.pending|, b.w.service.generation) && b.w.service.state == Ready
         && NoneRunning(b.w.db) && a.w.coordinator.Finalizing? && a.w.coordinator.highWatermark <= b.w.published
       case Err(_) => b.l == a.l && b.pending == a.pending && (b.w.frozenFlag || b.w.service.state == Quiescing)
  }

  ghost predicate QuiesceAnswered(failure: TaskFailure, a: Moment, r: Result<QuiesceResult, ManagerError>, b: Moment) {
    && b.w.frozenFlag && b.pending == a.pending
    && match r
       case Err(ManagerFrozen) => b.l == a.l && b.submitted == a.submitted
       case Err(e) => e == Invariant && b.faults > a.faults && Froze(a, b)
       case Ok(result) =>
         && Froze(a, b) && result.handles == a.l.active.Keys && b.submitted == a.submitted + [WriteRecovery(failure)]
         && (result.NotDurable? ==> b.faults > a.faults)
         && (result.Durable? ==>
               && AllInterrupted(a.w.db, b.w.db)
               && QuiescedBy(a.w.db, failure, result.interrupted, result.highWatermark, b.w.db)
               && (Drained(a.w) ==> b.l.sealed == Some(b.w.db.log) && result.highWatermark == LastId(b.w.db.log)))
  }

  ghost predicate Froze(a: Moment, b: Moment) {
    !a.l.frozen && b.l == a.l.(frozen := true, scanRequested := false, sealed := b.l.sealed)
  }

  datatype Reply =
    | Notified(notified: Result<(), ManagerError>)
    | Answered(answered: Result<CancelOutcome, ManagerError>)
    | EventReply(reported: Result<nat, EventError>)
    | Finalized(finalized: Result<Recovery, FinalizeError>)
    | Quiesced(quiesced: Result<QuiesceResult, ManagerError>)
    | NoReply

  datatype Message =
    | NotifyMessage
    | CancelMessage(t: TaskId)
    | EventMessage(t: TaskId, event: RunnerEvent)
    | FinishedMessage(t: TaskId, outcome: RunnerOutcome)
    | FinalizeMessage
    | QuiesceMessage(failure: TaskFailure)

  // The row after a runner's result that was written: a running row takes the result, a row
  // that recovery or a cancel already settled keeps what it had.
  ghost predicate Settles(before: Task, outcome: RunnerOutcome, after: Task) {
    if before.status == Running then
      match outcome
      case Succeeded => after.status == Completed && after.failure == None
      case Stopped => after.status == Cancelled && after.failure == None
      case Broke(failure) => after.status == Failed && after.failure == Some(failure)
    else after == before
  }

  ghost predicate Stored(db: Db, t: TaskId, task: Task) {
    t in db.rows && db.rows[t] == task
  }

  // `queued` lists the rows that were queued, oldest first; those before `n` have left the
  // queue and the rest is still there.
  ghost predicate ScanResult(before: Db, queued: seq<TaskId>, n: nat, after: Db) {
    && n <= |queued| && SortedIds(after.rows, queued)
    && (forall t | t in before.rows && before.rows[t].status == Queued :: t in queued)
    && (forall i | 0 <= i < |queued| && queued[i] in after.rows :: i < n <==> after.rows[queued[i]].status != Queued)
  }

  ghost predicate ScanAt(snapshot: Db, queued: seq<TaskId>, n: nat, db: Db) {
    && n <= |queued| && Extends(snapshot, db)
    && Lists(snapshot.rows, (set t | t in snapshot.rows && snapshot.rows[t].status == Queued), queued)
    && (forall i | 0 <= i < n :: queued[i] in db.rows && db.rows[queued[i]].status != Queued)
    && (forall i | n <= i < |queued| :: queued[i] in db.rows && queued[i] in snapshot.rows
                                         && db.rows[queued[i]] == snapshot.rows[queued[i]])
  }

  lemma ScanStarts(before: Db, snapshot: Db, queued: seq<TaskId>)
    requires Lists(snapshot.rows, (set t | t in snapshot.rows && snapshot.rows[t].status == Queued), queued)
    ensures ScanAt(snapshot, queued, 0, snapshot)
  {
    ExtendsReflexive(snapshot);
    assert forall i | 0 <= i < |queued| :: queued[i] in queued;
  }

  lemma ScanReaches(snapshot: Db, queued: seq<TaskId>, n: nat, db: Db)
    requires ScanAt(snapshot, queued, n, db) && n < |queued| && Inv(snapshot)
    ensures queued[n] in db.rows && db.rows[queued[n]].status == Queued
    ensures db.rows[queued[n]].repositoryId in snapshot.repositories
  {
    assert queued[n] in queued;
  }

  lemma ScanSteps(snapshot: Db, queued: seq<TaskId>, n: nat, before: Db, after: Db)
    requires ScanAt(snapshot, queued, n, before) && n < |queued| && Extends(before, after)
    requires Kept(before, after, {queued[n]}) && queued[n] in after.rows
    ensures after.rows[queued[n]].status != Queued ==> ScanAt(snapshot, queued, n + 1, after)
    ensures after.rows[queued[n]] == before.rows[queued[n]] ==> ScanAt(snapshot, queued, n, after)
  {
    ExtendsTransitive(snapshot, before, after);
    forall i | 0 <= i < |queued| && i != n ensures queued[i] != queued[n] {
      if i < n { assert Before(snapshot.rows, queued[i], queued[n]); } else { assert Before(snapshot.rows, queued[n], queued[i]); }
    }
    hide Extends, Before;
  }

  lemma PrefixGrows<T>(start: seq<T>, s: seq<T>, n: nat)
    requires n < |s|
    ensures start + s[..n] + [s[n]] == start + s[..n + 1]
  {
    assert s[..n + 1] == s[..n] + [s[n]];
  }

  lemma ScanEnds(before: Db, snapshot: Db, queued: seq<TaskId>, n: nat, after: Db)
    requires Kept(before, snapshot, {}) && ScanAt(snapshot, queued, n, after)
    ensures ScanResult(before, queued, n, after)
  {
    assert forall i | 0 <= i < |queued| :: queued[i] in queued;
  }
}
