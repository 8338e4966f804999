/** What the task manager keeps true at every point where it waits. */
module ManagerState {
  import opened Domain
  import opened EventLog
  import opened StoreModel
  import opened World
  import opened Process
  import Laws = StoreLaws

  datatype RunnerOutcome = Succeeded | Stopped | Broke(failure: TaskFailure)
  {
    function Transition(): TaskTransition {
      match this
      case Succeeded => ToCompleted
      case Stopped => ToCancelled
      case Broke(failure) => ToFailed(failure)
    }
  }

  datatype PendingResult =
    | PendingEvent(t: TaskId, payload: Payload)
    | PendingTerminal(t: TaskId, outcome: RunnerOutcome)

  // The manager's own fields. `active` maps a task to whether its runner was told to stop;
  // `launches` lists every runner ever started, `finished` those whose RunnerFinished message
  // was taken, `held` the task whose entry a write holds: a claim before its launch or a result
  // after its runner ended. `sealed` is the log after a durable quiesce.
  datatype Local = Local(
    concurrency: nat,
    permits: nat,
    active: map<TaskId, bool>,
    scanRequested: bool,
    degraded: bool,
    frozen: bool,
    launches: seq<TaskId>,
    finished: set<TaskId>,
    held: set<TaskId>,
    sealed: Option<seq<TaskEvent>>)

  // The runners that were started and have not reported yet.
  function Live(l: Local): set<TaskId> {
    set t | t in l.launches && t !in l.finished
  }

  ghost predicate PermitsConserved(l: Local) {
    l.permits + |l.active| == l.concurrency && l.active.Keys == Live(l) + l.held && Live(l) !! l.held
  }

  // No task id is launched twice: a launched row never returns to the queue.
  ghost predicate LaunchedOnce(l: Local, db: Db) {
    && (forall i, j | 0 <= i < j < |l.launches| :: l.launches[i] != l.launches[j])
    && (forall t | t in l.launches :: t in db.rows && db.rows[t].status != Queued)
    && (forall t | t in l.finished :: t in l.launches)
  }

  ghost predicate RunningActive(active: set<TaskId>, db: Db) {
    forall t | t in db.rows && db.rows[t].status == Running :: t in active
  }

  ghost predicate Episode(l: Local, w: Shared) {
    && (!l.degraded ==> w.coordinator.Absent?)
    && (l.degraded ==> !l.scanRequested && w.service.state != Ready)
    && (w.service.state == StoreDegraded ==> l.degraded)
    && (l.frozen ==> w.frozenFlag)
    && (!w.frozenFlag && !l.degraded ==> RunningActive(l.active.Keys, w.db))
  }

  ghost predicate SealKept(l: Local, w: Shared) {
    l.sealed.Some? ==> l.frozen && Sealed(w) && w.db.log == l.sealed.value
  }

  ghost predicate Safe(l: Local, w: Shared) {
    WInv(w) && !w.ownPending && PermitsConserved(l) && LaunchedOnce(l, w.db) && Episode(l, w) && SealKept(l, w)
  }

  // What a message may do to the world: the log only grows, final rows stand, and neither the
  // freeze flag nor a closed or drained gate is ever undone.
  ghost predicate Moves(a: Shared, b: Shared) {
    && Extends(a.db, b.db)
    && (forall t | t in a.db.rows && a.db.rows[t].IsTerminal() && t in b.db.rows :: b.db.rows[t] == a.db.rows[t])
    && (a.frozenFlag ==> b.frozenFlag)
    && (a.gateClosed ==> b.gateClosed)
    && (Drained(a) ==> Drained(b))
  }

  // Every row of `a` outside `except` stands unchanged in `b`.
  ghost predicate Kept(a: Db, b: Db, except: set<TaskId>) {
    forall t | t in a.rows && t !in except :: t in b.rows && b.rows[t] == a.rows[t]
  }

  lemma MovesReflexive(w: Shared)
    ensures Moves(w, w)
  {
    ExtendsReflexive(w.db);
  }

  lemma MovesExtend(a: Shared, b: Shared)
    requires Moves(a, b)
    ensures Extends(a.db, b.db)
  {
  }

  lemma MovesTransitive(a: Shared, b: Shared, c: Shared)
    requires Moves(a, b) && Moves(b, c)
    ensures Moves(a, c)
  {
    ExtendsTransitive(a.db, b.db, c.db);
    assert a.db.rows.Keys <= b.db.rows.Keys;
  }

  lemma KeptFrom(a: Db, b: Db, c: Db, except: set<TaskId>)
    requires Kept(a, b, {}) && Kept(b, c, except)
    ensures Kept(a, c, except)
  {
  }

  lemma KeptIfAbsent(a: Shared, b: Shared, except: set<TaskId>)
    requires a.coordinator.Absent? ==> Kept(a.db, b.db, {})
    ensures a.coordinator.Absent? ==> Kept(a.db, b.db, except)
  {
  }

  lemma KeptNow(a: Db, b: Db, all: bool, t: TaskId)
    requires (all ==> Kept(a, b, {})) && t in a.rows
    ensures all ==> t in b.rows && b.rows[t] == a.rows[t]
  {
  }

  lemma RelyFinalizing(a: Shared, b: Shared)
    requires Rely(a, b) && a.coordinator.Finalizing?
    ensures b.coordinator == a.coordinator
  {
  }

  lemma MovesHasRow(a: Shared, b: Shared, t: TaskId)
    requires Moves(a, b) && t in a.db.rows
    ensures t in b.db.rows
  {
    assert a.db.rows.Keys <= b.db.rows.Keys;
  }

  lemma LogHasSince(a: Shared, b: Shared, c: Shared, id: nat, t: TaskId, payload: Payload)
    requires Moves(a, b) && LogHas(b.db, c.db, id, t, payload)
    ensures LogHas(a.db, c.db, id, t, payload)
  {
    assert |a.db.log| <= |b.db.log|;
  }

  lemma KeptReflexive(db: Db, except: set<TaskId>)
    ensures Kept(db, db, except)
  {
  }

  // Two waits in a row, while no recovery runs.
  lemma Then(a: Shared, b: Shared, c: Shared, t: TaskId)
    requires Moves(a, b) && Moves(b, c)
    requires Kept(a.db, b.db, {t}) && Kept(b.db, c.db, {})
    requires t in b.db.rows
    ensures Moves(a, c) && Kept(a.db, c.db, {t}) && t in c.db.rows && c.db.rows[t] == b.db.rows[t]
  {
    MovesTransitive(a, b, c);
  }

  lemma ThenWrites(a: Shared, b: Shared, c: Shared, t: TaskId)
    requires Moves(a, b) && Moves(b, c) && Kept(a.db, b.db, {t}) && Kept(b.db, c.db, {t})
    ensures Moves(a, c) && Kept(a.db, c.db, {t})
  {
    MovesTransitive(a, b, c);
  }

  lemma KeptRow(a: Db, b: Db, t: TaskId)
    requires Kept(a, b, {}) && t in a.rows
    ensures t in b.rows && b.rows[t] == a.rows[t]
  {
  }

  lemma KeptWeaker(a: Db, b: Db, except: set<TaskId>)
    requires Kept(a, b, {})
    ensures Kept(a, b, except)
  {
  }

  lemma KeptTransitive(a: Db, b: Db, c: Db, except: set<TaskId>)
    requires Kept(a, b, except) && Kept(b, c, except)
    ensures Kept(a, c, except)
  {
  }

  lemma IdentityKept(a: Shared, b: Shared, t: TaskId)
    requires Moves(a, b) && t in a.db.rows
    ensures t in b.db.rows && SameIdentity(a.db.rows[t], b.db.rows[t])
  {
    assert a.db.rows.Keys <= b.db.rows.Keys;
  }

  lemma RelyMoves(a: Shared, b: Shared)
    requires Rely(a, b)
    ensures Moves(a, b)
    ensures a.coordinator.Absent? ==> Kept(a.db, b.db, {})
  {
    assert a.db.rows.Keys <= b.db.rows.Keys;
    hide Extends, SealRely;
  }

  lemma SafeFacts(l: Local, w: Shared)
    requires Safe(l, w)
    ensures WInv(w) && Inv(w.db) && !w.ownPending && w.behind == []
    ensures !l.degraded ==> w.coordinator.Absent?
    ensures l.degraded ==> !l.scanRequested
    ensures !l.frozen ==> l.sealed.None?
    ensures !w.frozenFlag ==> !l.frozen
    ensures !w.frozenFlag && !l.degraded ==> RunningActive(l.active.Keys, w.db)
  {
  }

  lemma SealedFacts(l: Local, w: Shared)
    requires Safe(l, w)
    ensures l.sealed.Some? ==> l.frozen && w.db.log == l.sealed.value && Incomplete(w.db) == {}
  {
  }

  lemma SubsetSize<T>(a: set<T>, b: set<T>)
    requires a <= b
    ensures |a| <= |b|
  {
    assert b == a + (b - a);
  }

  // At every wait at most `concurrency` runners are alive, and each has its entry.
  lemma AtMostConcurrency(l: Local, w: Shared)
    requires Safe(l, w)
    ensures Live(l) <= l.active.Keys && |Live(l)| <= |l.active| <= l.concurrency
  {
    hide WInv, Sealed, LaunchedOnce, Episode;
    SubsetSize(Live(l), l.active.Keys);
  }

  lemma QueuedIsNew(l: Local, w: Shared, t: TaskId)
    requires Safe(l, w) && l.held == {} && t in w.db.rows && w.db.rows[t].status == Queued
    ensures t !in l.active && t !in l.launches
  {
  }

  lemma ActiveIsLaunched(l: Local, w: Shared, t: TaskId)
    requires Safe(l, w) && l.held == {}
    ensures t in l.active ==> t in l.launches && t in w.db.rows
  {
  }

  lemma RunningIsActive(active: set<TaskId>, db: Db, t: TaskId)
    requires RunningActive(active, db) && t in db.rows && db.rows[t].status == Running
    ensures t in active
  {
  }

  lemma RowId(db: Db, t: TaskId)
    requires Inv(db) && t in db.rows
    ensures db.rows[t].id == t
  {
  }

  lemma CancellingIsSafe(l: Local, w: Shared, t: TaskId)
    requires Safe(l, w) && t in l.active
    ensures Safe(l.(active := l.active[t := true]), w)
  {
    assert l.active[t := true].Keys == l.active.Keys;
    SameKeysSameSize(l.active, l.active[t := true]);
    hide WInv, Sealed;
  }

  function AllTold(l: Local): Local {
    l.(active := map t | t in l.active :: true)
  }

  lemma TellingAllIsSafe(l: Local, w: Shared)
    requires Safe(l, w)
    ensures Safe(AllTold(l), w)
  {
    assert AllTold(l).active.Keys == l.active.Keys;
    SameKeysSameSize(l.active, AllTold(l).active);
    hide WInv, Sealed;
  }

  // ----- the others' steps keep the manager safe -----

  lemma LaunchedOnceStable(l: Local, a: Shared, b: Shared)
    requires LaunchedOnce(l, a.db) && Rely(a, b)
    ensures LaunchedOnce(l, b.db)
  {
    assert a.db.rows.Keys <= b.db.rows.Keys;
    hide FlagsRely, SealRely, Extends;
  }

  lemma RunningActiveStable(active: set<TaskId>, a: Shared, b: Shared)
    requires RunningActive(active, a.db) && Rely(a, b)
    ensures RunningActive(active, b.db)
  {
    hide FlagsRely, SealRely, Extends;
  }

  lemma SafeStable(l: Local, a: Shared, b: Shared)
    requires Safe(l, a) && Rely(a, b) && WInv(b)
    ensures Safe(l, b)
  {
    LaunchedOnceStable(l, a, b);
    if !a.frozenFlag && !l.degraded { RunningActiveStable(l.active.Keys, a, b); }
    hide WInv, LaunchedOnce, RunningActive, Extends, RowsStand, Sealed, PermitsConserved;
  }

  // ----- the manager's own writes -----

  // The rows a write may touch, and how.
  ghost predicate WriteRows(db: Db, write: Write, after: Db) {
    && Extends(db, after) && db.rows.Keys == after.rows.Keys
    && (forall t | t in db.rows && t in after.rows ::
          || after.rows[t] == db.rows[t]
          || (db.rows[t].status.IsIncomplete() && after.rows[t].status != Queued
              && (after.rows[t].status == Running ==>
                    db.rows[t].status == Running || (write.WriteTransition? && write.t == t && write.transition.ToRunning?))))
    && (write.WriteTransition? || write.WritePanel? ==> Kept(db, after, {write.t}))
  }

  lemma RowWritten(db: Db, write: Write, after: Db)
    requires write.WriteTransition? || write.WritePanel?
    requires write.t in db.rows && write.t in after.rows && after.rows == db.rows[write.t := after.rows[write.t]]
    requires db.rows[write.t].status.IsIncomplete() && after.rows[write.t].status != Queued && Extends(db, after)
    requires after.rows[write.t].status == Running ==>
               db.rows[write.t].status == Running || (write.WriteTransition? && write.transition.ToRunning?)
    ensures WriteRows(db, write, after)
  {
    hide Extends;
  }

  lemma RecoveryWritten(db: Db, failure: TaskFailure, now: Timestamp)
    requires Inv(db)
    ensures WriteRows(db, WriteRecovery(failure), RecoverAll(db, now, failure))
  {
    hide Inv, Extends, Incomplete;
    RecoverStands(db, now, failure);
    var ids := OrderOf(db);
    RecoverKeys(db, now, failure);
  }

  lemma RecoverKeys(db: Db, now: Timestamp, failure: TaskFailure)
    ensures RecoverAll(db, now, failure).rows.Keys == db.rows.Keys
  {
  }

  lemma TransitionRows(db: Db, t: TaskId, expected: TaskStatus, transition: TaskTransition, now: Timestamp)
    requires Extends(db, TransitionWithEvent(db, t, expected, transition, now).0)
    ensures WriteRows(db, WriteTransition(t, expected, transition), TransitionWithEvent(db, t, expected, transition, now).0)
  {
    hide Extends, WriteRows;
    var write := WriteTransition(t, expected, transition);
    if expected.CanTransitionTo(transition.Next()) && CanApply(db, t, expected) {
      RowWritten(db, write, TransitionWithEvent(db, t, expected, transition, now).0);
    } else {
      UnchangedWritten(db, write);
    }
  }

  lemma PanelRows(db: Db, t: TaskId, payload: Payload, now: Timestamp)
    requires Extends(db, AppendRunningEvent(db, t, payload, now).0)
    ensures WriteRows(db, WritePanel(t, payload), AppendRunningEvent(db, t, payload, now).0)
  {
    hide Extends, WriteRows;
    if !payload.Lifecycle? && CanApply(db, t, Running) {
      RowWritten(db, WritePanel(t, payload), AppendRunningEvent(db, t, payload, now).0);
    } else {
      UnchangedWritten(db, WritePanel(t, payload));
    }
  }

  lemma WrittenRows(db: Db, write: Write, now: Timestamp)
    requires Inv(db)
    ensures WriteRows(db, write, Written(db, write, now))
  {
    WrittenKeepsInv(db, write, now);
    hide Inv, Extends, WriteRows, TransitionWithEvent, AppendRunningEvent;
    match write
    case WriteTransition(t, expected, transition) => TransitionRows(db, t, expected, transition, now);
    case WritePanel(t, payload) => PanelRows(db, t, payload, now);
    case WriteRecovery(failure) => RecoveryWritten(db, failure, now);
  }

  lemma UnchangedWritten(db: Db, write: Write)
    ensures WriteRows(db, write, db)
  {
    ExtendsReflexive(db);
  }

  lemma LaunchedOnceWritten(l: Local, db: Db, write: Write, after: Db)
    requires LaunchedOnce(l, db) && WriteRows(db, write, after)
    ensures LaunchedOnce(l, after)
  {
    hide Extends, Kept;
  }

  lemma RunningActiveWritten(active: set<TaskId>, db: Db, write: Write, after: Db)
    requires RunningActive(active, db) && WriteRows(db, write, after)
    requires write.WriteTransition? && write.transition.ToRunning? ==> write.t in active
    ensures RunningActive(active, after)
  {
    hide Extends, Kept;
  }

  lemma WriteMoves(mid: Shared, write: Write, after: Db)
    requires WriteRows(mid.db, write, after)
    ensures Moves(mid, Resumed(mid, after))
  {
    hide Extends, Kept;
  }

  ghost function Outcome(mid: Shared, write: Write, now: Timestamp, wrote: bool): Shared {
    Resumed(mid, if wrote then Written(mid.db, write, now) else mid.db)
  }

  lemma TurnMoves(a: Shared, mid: Shared)
    requires TurnTaken(a, mid)
    ensures Moves(a, mid)
    ensures a.coordinator.Absent? ==> Kept(a.db, mid.db, {})
  {
    RelyMoves(a.(ownPending := true), mid);
    hide Extends, Rely;
  }

  lemma WriteLaunched(l: Local, a: Shared, mid: Shared, write: Write, db: Db)
    requires LaunchedOnce(l, a.db) && TurnTaken(a, mid) && WriteRows(mid.db, write, db)
    ensures LaunchedOnce(l, db)
  {
    LaunchedOnceStable(l, a.(ownPending := true), mid);
    LaunchedOnceWritten(l, mid.db, write, db);
  }

  lemma WriteRunning(active: set<TaskId>, a: Shared, mid: Shared, write: Write, db: Db)
    requires RunningActive(active, a.db) && TurnTaken(a, mid) && WriteRows(mid.db, write, db)
    requires write.WriteTransition? && write.transition.ToRunning? ==> write.t in active
    ensures RunningActive(active, db)
  {
    RunningActiveStable(active, a.(ownPending := true), mid);
    RunningActiveWritten(active, mid.db, write, db);
  }

  lemma OutcomeRows(mid: Shared, write: Write, now: Timestamp, wrote: bool)
    requires Inv(mid.db)
    ensures WriteRows(mid.db, write, Outcome(mid, write, now, wrote).db)
  {
    WrittenRows(mid.db, write, now);
    UnchangedWritten(mid.db, write);
  }

  lemma WholeWriteMoves(a: Shared, mid: Shared, write: Write, now: Timestamp, wrote: bool, b: Shared)
    requires TurnTaken(a, mid) && WriteRows(mid.db, write, Outcome(mid, write, now, wrote).db)
    requires Rely(Outcome(mid, write, now, wrote), b)
    ensures Moves(a, b)
  {
    var done := Outcome(mid, write, now, wrote);
    hide Written, WriteRows, Rely, Moves, TurnTaken;
    TurnMoves(a, mid);
    WriteMoves(mid, write, done.db);
    RelyMoves(done, b);
    MovesTransitive(a, mid, done);
    MovesTransitive(a, done, b);
  }

  // The whole of a write: others before it, the write, others after it.
  lemma WriteIsSafe(l: Local, a: Shared, mid: Shared, write: Write, now: Timestamp, wrote: bool, b: Shared)
    requires Safe(l, a) && TurnTaken(a, mid) && l.sealed.None?
    requires WInv(Outcome(mid, write, now, wrote)) && Rely(Outcome(mid, write, now, wrote), b) && WInv(b)
    requires write.WriteTransition? && write.transition.ToRunning? ==> write.t in l.active
    ensures Safe(l, b) && Moves(a, b)
    ensures RunningActive(l.active.Keys, a.db) ==> RunningActive(l.active.Keys, b.db)
  {
    var done := Outcome(mid, write, now, wrote);
    assert Inv(mid.db) && LaunchedOnce(l, a.db);
    hide WInv, Written, WriteRows, Rely, TurnTaken, LaunchedOnce, RunningActive, Moves, Safe, Inv;
    OutcomeRows(mid, write, now, wrote);
    WholeWriteMoves(a, mid, write, now, wrote, b);
    WriteLaunched(l, a, mid, write, done.db);
    if RunningActive(l.active.Keys, a.db) {
      WriteRunning(l.active.Keys, a, mid, write, done.db);
      RunningActiveStable(l.active.Keys, done, b);
    }
    MidIsSafe(l, a, mid, done.db);
    SafeStable(l, done, b);
  }

  lemma MidIsSafe(l: Local, a: Shared, mid: Shared, db: Db)
    requires Safe(l, a) && TurnTaken(a, mid) && l.sealed.None? && WInv(Resumed(mid, db))
    requires LaunchedOnce(l, db)
    requires RunningActive(l.active.Keys, a.db) ==> RunningActive(l.active.Keys, db)
    ensures Safe(l, Resumed(mid, db))
  {
    hide WInv, LaunchedOnce, RunningActive, Extends, RowsStand, SealRely, PermitsConserved;
  }

  // ----- the manager's steps on its own fields -----

  function Without(l: Local, t: TaskId): Local {
    if t in l.active
    then l.(permits := l.permits + 1, active := l.active - {t}, held := l.held - {t})
    else l
  }

  lemma RemovalFreesPermit(l: Local, t: TaskId)
    requires PermitsConserved(l) && (t in l.active ==> t in l.held)
    ensures PermitsConserved(Without(l, t))
  {
    assert Live(Without(l, t)) == Live(l);
    if t in l.active { assert l.active == (l.active - {t})[t := l.active[t]]; }
  }

  lemma RemovalKeepsEpisode(l: Local, w: Shared, t: TaskId)
    requires Episode(l, w)
    requires w.frozenFlag || l.degraded || t !in w.db.rows || w.db.rows[t].status != Running
    ensures Episode(Without(l, t), w)
  {
  }

  lemma RemovalKeepsRest(l: Local, w: Shared, t: TaskId)
    requires LaunchedOnce(l, w.db) && SealKept(l, w)
    ensures LaunchedOnce(Without(l, t), w.db) && SealKept(Without(l, t), w)
  {
    hide Sealed;
  }

  // Only an entry that no live runner has may be removed.
  lemma RemovalIsSafe(l: Local, w: Shared, t: TaskId)
    requires Safe(l, w) && (t in l.active ==> t in l.held)
    requires w.frozenFlag || l.degraded || t !in w.db.rows || w.db.rows[t].status != Running
    ensures Safe(Without(l, t), w)
  {
    hide WInv, PermitsConserved, LaunchedOnce, Episode, SealKept;
    RemovalFreesPermit(l, t);
    RemovalKeepsEpisode(l, w, t);
    RemovalKeepsRest(l, w, t);
  }

  function Registered(l: Local, t: TaskId): Local
    requires l.permits > 0
  {
    l.(permits := l.permits - 1, active := l.active[t := false], held := {t})
  }

  lemma RegisteringTakesPermit(l: Local, t: TaskId)
    requires PermitsConserved(l) && t !in l.active && l.held == {} && l.permits > 0
    ensures PermitsConserved(Registered(l, t))
  {
    assert Live(Registered(l, t)) == Live(l);
  }

  lemma RegisteringKeepsRest(l: Local, w: Shared, t: TaskId)
    requires LaunchedOnce(l, w.db) && SealKept(l, w) && Episode(l, w) && l.permits > 0
    ensures LaunchedOnce(Registered(l, t), w.db) && SealKept(Registered(l, t), w) && Episode(Registered(l, t), w)
  {
    hide Sealed;
  }

  lemma RegisteringIsSafe(l: Local, w: Shared, t: TaskId)
    requires Safe(l, w) && t !in l.active && l.held == {} && l.permits > 0
    ensures Safe(Registered(l, t), w)
  {
    hide WInv, PermitsConserved, LaunchedOnce, Episode, SealKept;
    RegisteringTakesPermit(l, t);
    RegisteringKeepsRest(l, w, t);
  }

  lemma WithoutRegistered(l: Local, t: TaskId)
    requires l.permits > 0 && t !in l.active && l.held == {}
    ensures Without(Registered(l, t), t) == l
  {
    assert l.active[t := false] - {t} == l.active;
  }

  // `spawn_runner`: the entry is the runner's from here on.
  function Launched(l: Local, t: TaskId): Local {
    l.(launches := l.launches + [t], held := {})
  }

  lemma LaunchingKeepsPermits(l: Local, t: TaskId)
    requires PermitsConserved(l) && l.held == {t} && t !in l.finished
    ensures PermitsConserved(Launched(l, t))
  {
    assert Live(Launched(l, t)) == Live(l) + {t};
  }

  lemma LaunchingKeepsOnce(l: Local, db: Db, t: TaskId)
    requires LaunchedOnce(l, db) && t !in l.launches && t in db.rows && db.rows[t].status != Queued
    ensures LaunchedOnce(Launched(l, t), db) && t !in l.finished
  {
  }

  lemma LaunchingIsSafe(l: Local, w: Shared, t: TaskId)
    requires Safe(l, w) && l.held == {t}
    requires t !in l.launches && t in w.db.rows && w.db.rows[t].status != Queued
    ensures Safe(Launched(l, t), w)
  {
    hide WInv, PermitsConserved, LaunchedOnce, Sealed;
    LaunchingKeepsOnce(l, w.db, t);
    LaunchingKeepsPermits(l, t);
  }

  // A RunnerFinished message of `t` is taken: a launched runner has ended, and its entry is
  // held until its result is settled.
  function Ended(l: Local, t: TaskId): Local {
    l.(finished := if t in l.launches then l.finished + {t} else l.finished,
       held := if t in l.active then {t} else {})
  }

  lemma EndingKeepsPermits(l: Local, t: TaskId)
    requires PermitsConserved(l) && l.held == {}
    ensures PermitsConserved(Ended(l, t))
  {
    assert Live(Ended(l, t)) == Live(l) - {t};
  }

  lemma EndingKeepsRest(l: Local, w: Shared, t: TaskId)
    requires LaunchedOnce(l, w.db) && SealKept(l, w) && Episode(l, w)
    ensures LaunchedOnce(Ended(l, t), w.db) && SealKept(Ended(l, t), w) && Episode(Ended(l, t), w)
  {
    hide Sealed;
  }

  lemma EndingIsSafe(l: Local, w: Shared, t: TaskId)
    requires Safe(l, w) && l.held == {}
    ensures Safe(Ended(l, t), w)
    ensures t in l.active ==> t in l.launches && t in w.db.rows
  {
    ActiveIsLaunched(l, w, t);
    hide WInv, PermitsConserved, LaunchedOnce, Episode, SealKept;
    EndingKeepsPermits(l, t);
    EndingKeepsRest(l, w, t);
  }

  lemma ScanningIsSafe(l: Local, w: Shared)
    requires Safe(l, w) && !l.degraded
    ensures Safe(l.(scanRequested := true), w)
  {
    hide WInv, Sealed;
  }

  function Degraded(l: Local): Local {
    l.(degraded := true, scanRequested := false, active := map t | t in l.active :: true)
  }

  lemma DegradedKeepsKeys(l: Local)
    ensures Degraded(l).active.Keys == l.active.Keys
  {
  }

  lemma DegradedKeepsPermits(l: Local)
    requires PermitsConserved(l)
    ensures PermitsConserved(Degraded(l))
  {
    assert Degraded(l).active.Keys == l.active.Keys;
    SameKeysSameSize(l.active, Degraded(l).active);
  }

  lemma SameKeysSameSize(a: map<TaskId, bool>, b: map<TaskId, bool>)
    requires a.Keys == b.Keys
    ensures |a| == |b|
  {
    assert |a| == |a.Keys| && |b| == |b.Keys|;
  }

  function WithService(w: Shared, next: ServiceState): Shared {
    match SetService(w.service, next) case Ok(service) => w.(service := service) case Err(_) => w
  }

  lemma DegradingKeepsWInv(w: Shared)
    requires WInv(w) && w.coordinator.Absent?
    ensures WInv(WithService(w, StoreDegraded).(coordinator := Trying))
  {
    hide Inv, NoneRunning;
  }

  lemma DegradingKeepsLocal(l: Local, w: Shared)
    requires LaunchedOnce(l, w.db) && SealKept(l, w) && !l.frozen
    ensures LaunchedOnce(Degraded(l), w.db)
    ensures SealKept(Degraded(l), WithService(w, StoreDegraded).(coordinator := Trying))
  {
  }

  lemma DegradingIsSafe(l: Local, w: Shared)
    requires Safe(l, w) && !l.degraded && !l.frozen
    ensures Safe(Degraded(l), WithService(w, StoreDegraded).(coordinator := Trying))
    ensures Moves(w, WithService(w, StoreDegraded).(coordinator := Trying))
  {
    MovesReflexive(w);
    DegradedKeepsPermits(l);
    DegradingKeepsWInv(w);
    DegradingKeepsLocal(l, w);
    hide WInv, Extends, PermitsConserved, LaunchedOnce, SealKept, RunningActive;
  }

  lemma FreezingIsSafe(l: Local, w: Shared)
    requires Safe(l, w)
    ensures Safe(l.(frozen := true, scanRequested := false), WithService(w.(frozenFlag := true), Quiescing))
    ensures Moves(w, WithService(w.(frozenFlag := true), Quiescing))
  {
    hide Inv, Incomplete, Extends, NoGrowth, PermitsConserved, LaunchedOnce;
    MovesReflexive(w);
    FlagsKeepLaunches(l, l.(frozen := true, scanRequested := false), w.db);
  }

  // Permits and launches do not depend on the manager's flags.
  lemma FlagsKeepLaunches(l: Local, m: Local, db: Db)
    requires PermitsConserved(l) && LaunchedOnce(l, db)
    requires m == l.(frozen := m.frozen, degraded := m.degraded, scanRequested := m.scanRequested)
    ensures PermitsConserved(m) && LaunchedOnce(m, db)
  {
  }

  lemma ClosingIsSafe(l: Local, w: Shared)
    requires Safe(l, w)
    ensures Safe(l, BeginQuiescing(w)) && Moves(w, BeginQuiescing(w)) && BeginQuiescing(w).gateClosed
  {
    assert WInv(w);
    StepIsAllowed(w, CloseGate);
    assert Step(w, CloseGate) == BeginQuiescing(w);
    hide WInv, Rely, Safe, Moves;
    SafeStable(l, w, BeginQuiescing(w));
    RelyMoves(w, BeginQuiescing(w));
  }

  lemma FlaggingIsSafe(l: Local, w: Shared)
    requires Safe(l, w)
    ensures Safe(l, w.(frozenFlag := true)) && Moves(w, w.(frozenFlag := true))
  {
    assert WInv(w);
    StepIsAllowed(w, RaiseFreezeFlag);
    assert Step(w, RaiseFreezeFlag) == w.(frozenFlag := true);
    hide WInv, Rely, Safe, Moves;
    SafeStable(l, w, w.(frozenFlag := true));
    RelyMoves(w, w.(frozenFlag := true));
  }

  // The coordinator is done, whether or not the manager accepted its result.
  lemma DismissingIsSafe(l: Local, w: Shared)
    requires Safe(l, w) && w.coordinator.Finalizing?
    ensures Safe(l, w.(coordinator := Absent)) && Moves(w, w.(coordinator := Absent))
  {
    MovesReflexive(w);
    hide Inv, Incomplete, Extends, PermitsConserved, NoGrowth;
  }

  lemma ResumingIsSafe(l: Local, w: Shared)
    requires Safe(l, w) && w.coordinator.Finalizing? && w.service.state != Quiescing
    ensures var after := WithService(w, Ready).(coordinator := Absent);
            Safe(l.(degraded := false, scanRequested := true), after) && Moves(w, after) && after.service.state == Ready
    ensures NoneRunning(w.db) && w.coordinator.highWatermark <= w.published
  {
    hide Inv, Incomplete, Extends, PermitsConserved, LaunchedOnce, NoGrowth;
    MovesReflexive(w);
    assert NoneRunning(w.db);
    FlagsKeepLaunches(l, l.(degraded := false, scanRequested := true), w.db);
  }

  // ----- what the manager learns from a receipt -----

  // While no recovery runs, a write leaves every other row as it was, and a write that
  // changed nothing leaves them all.
  lemma WriteKeeps(a: Shared, mid: Shared, write: Write, now: Timestamp, wrote: bool, b: Shared)
    requires a.coordinator.Absent? && (write.WriteTransition? || write.WritePanel?) && Inv(mid.db)
    requires TurnTaken(a, mid) && Rely(Outcome(mid, write, now, wrote), b)
    ensures Kept(a.db, b.db, {write.t}) && Kept(Outcome(mid, write, now, wrote).db, b.db, {})
    ensures Outcome(mid, write, now, wrote).db == mid.db ==> Kept(a.db, b.db, {})
  {
    OutcomeRows(mid, write, now, wrote);
    TurnMoves(a, mid);
    StaysAbsent(a, mid);
    RelyMoves(Outcome(mid, write, now, wrote), b);
    hide WriteRows, Moves, Rely, TurnTaken, Inv, Written;
    assert WriteRows(mid.db, write, Outcome(mid, write, now, wrote).db);
    WriteRowsKept(mid.db, write, Outcome(mid, write, now, wrote).db);
  }

  lemma StaysAbsent(a: Shared, mid: Shared)
    requires a.coordinator.Absent? && TurnTaken(a, mid)
    ensures mid.coordinator.Absent?
  {
  }

  lemma WriteRowsKept(db: Db, write: Write, after: Db)
    requires WriteRows(db, write, after) && (write.WriteTransition? || write.WritePanel?)
    ensures Kept(db, after, {write.t})
  {
  }

  lemma AnswerShape(db: Db, write: Write, now: Timestamp)
    ensures write.WriteTransition? ==> Answer(db, write, now).Transitioned? || Answer(db, write, now).WriterError?
    ensures write.WritePanel? ==> Answer(db, write, now).PanelAppended? || Answer(db, write, now).WriterError?
    ensures write.WriteRecovery? ==> Answer(db, write, now).RecoveryDone? || Answer(db, write, now).WriterError?
  {
    hide RecoverAll;
  }

  // The store itself refuses none of the manager's writes.
  lemma StoreAccepts(db: Db, write: Write, now: Timestamp)
    requires Inv(db)
    requires write.WriteTransition? ==> write.t in db.rows && write.expected.CanTransitionTo(write.transition.Next())
    requires write.WritePanel? ==> write.t in db.rows && !write.payload.Lifecycle?
    ensures Answer(db, write, now) != WriterError
  {
    WrittenKeepsInv(db, write, now);
    hide Inv;
  }

  lemma TurnHasRow(a: Shared, mid: Shared, t: TaskId)
    requires TurnTaken(a, mid) && t in a.db.rows
    ensures t in mid.db.rows
  {
    assert a.db.rows.Keys <= mid.db.rows.Keys;
  }

  lemma TransitionSeen(a: Shared, mid: Shared, write: Write, now: Timestamp, b: Shared, outcome: TransitionOutcome)
    requires a.coordinator.Absent? && write.WriteTransition? && Inv(mid.db)
    requires TurnTaken(a, mid) && Rely(Outcome(mid, write, now, true), b)
    requires Answer(mid.db, write, now) == Transitioned(outcome)
    ensures Kept(a.db, b.db, {write.t}) && write.t in b.db.rows
    ensures outcome.Applied? ==>
              && b.db.rows[write.t] == outcome.task && outcome.task.status == write.transition.Next()
              && outcome.task.failure == write.transition.Failure()
              && (write.t in a.db.rows ==> a.db.rows[write.t].status == write.expected)
    ensures outcome.Conflict? ==>
              Kept(a.db, b.db, {}) && b.db.rows[write.t] == outcome.current && outcome.current.status != write.expected
  {
    WriteKeeps(a, mid, write, now, true, b);
    TurnMoves(a, mid);
    hide Moves, Rely, TurnTaken, Inv;
  }

  lemma PanelSeen(a: Shared, mid: Shared, write: Write, now: Timestamp, b: Shared, outcome: AppendOutcome)
    requires write.WritePanel? && Inv(mid.db)
    requires TurnTaken(a, mid) && Rely(Outcome(mid, write, now, true), b)
    requires Answer(mid.db, write, now) == PanelAppended(outcome)
    ensures outcome.Appended? ==> LogHas(a.db, b.db, outcome.eventId, write.t, write.payload)
    ensures outcome.NotRunning? && a.coordinator.Absent? ==> write.t in b.db.rows && b.db.rows[write.t].status != Running
  {
    var done := Outcome(mid, write, now, true);
    assert Extends(a.db, mid.db) && Extends(done.db, b.db);
    if a.coordinator.Absent? {
      StaysAbsent(a, mid);
      RelyMoves(done, b);
    }
    hide Rely, TurnTaken, Inv, Moves;
    if outcome.Appended? { AppendedSince(a.db, mid.db, done.db, b.db, write, now); }
  }

  lemma AppendedSince(a: Db, mid: Db, done: Db, b: Db, write: Write, now: Timestamp)
    requires Extends(a, mid) && Extends(done, b) && write.WritePanel? && done == Written(mid, write, now)
    requires Answer(mid, write, now).PanelAppended? && Answer(mid, write, now).appended.Appended?
    ensures LogHas(a, b, Answer(mid, write, now).appended.eventId, write.t, write.payload)
  {
    assert done.log == mid.log + [TaskEvent(Answer(mid, write, now).appended.eventId, 1, write.t, write.payload, now)];
    assert b.log[|mid.log|] == done.log[|mid.log|];
  }

  // Since `a`, the event was appended to the log.
  ghost predicate LogHas(a: Db, b: Db, id: nat, t: TaskId, payload: Payload) {
    exists k | |a.log| <= k < |b.log| :: b.log[k].id == id && b.log[k].taskId == t && b.log[k].payload == payload
  }

  // Every row that was incomplete in `a` is interrupted in `b`.
  ghost predicate AllInterrupted(a: Db, b: Db) {
    forall t | t in a.rows && a.rows[t].status.IsIncomplete() :: t in b.rows && b.rows[t].status == TaskStatus.Interrupted
  }

  // Between `a` and `b` one recovery was committed, with `failure` for every row it interrupted;
  // it interrupted that many rows and left that last event.
  ghost predicate QuiescedBy(a: Db, failure: TaskFailure, interrupted: nat, highWatermark: nat, b: Db) {
    exists mid, now, done :: RecoveredInside(a, mid, now, failure, done, b)
                             && interrupted == |done.log| - |mid.log| && highWatermark == LastId(done.log)
  }

  ghost predicate RecoveredInside(a: Db, mid: Db, now: Timestamp, failure: TaskFailure, done: Db, b: Db) {
    && Extends(a, mid) && Extends(done, b)
    && Laws.RecoverAnswered(mid, now, failure, done) && Laws.AllRecovered(mid, failure, done)
  }

  lemma RecoveryIsOne(a: Shared, mid: Shared, failure: TaskFailure, now: Timestamp, b: Shared)
    requires Inv(mid.db) && TurnTaken(a, mid) && Rely(Outcome(mid, WriteRecovery(failure), now, true), b)
    requires Answer(mid.db, WriteRecovery(failure), now).RecoveryDone?
    ensures var receipt := Answer(mid.db, WriteRecovery(failure), now);
            QuiescedBy(a.db, failure, receipt.interrupted, receipt.highWatermark, b.db)
  {
    hide Inv, Recover, Laws.RecoverAnswered, Laws.AllRecovered, FlagsRely, SealRely, RowsStand;
    var done := RecoverAll(mid.db, now, failure);
    InvHasForest(mid.db);
    RecoverAllCommits(mid.db, now, failure);
    Laws.RecoverIsAnswered(mid.db, now, failure, done);
    assert RecoveredInside(a.db, mid.db, now, failure, done, b.db);
  }

  lemma InvHasForest(db: Db)
    requires Inv(db)
    ensures Forest(db.rows)
  {
  }

  lemma RecoverAllCommits(db: Db, now: Timestamp, failure: TaskFailure)
    requires Forest(db.rows)
    ensures Commits(db, RecoverIncomplete(now, failure), RecoverAll(db, now, failure))
  {
    hide Forest, Recover;
  }

  lemma QuiescedSince(start: Shared, a: Shared, failure: TaskFailure, interrupted: nat, highWatermark: nat, b: Db)
    requires Moves(start, a) && QuiescedBy(a.db, failure, interrupted, highWatermark, b)
    ensures QuiescedBy(start.db, failure, interrupted, highWatermark, b)
  {
    var mid, now, done :| RecoveredInside(a.db, mid, now, failure, done, b)
                          && interrupted == |done.log| - |mid.log| && highWatermark == LastId(done.log);
    ExtendsTransitive(start.db, a.db, mid);
    hide Extends, Laws.RecoverAnswered, Laws.AllRecovered;
    assert RecoveredInside(start.db, mid, now, failure, done, b);
  }

  // The others leave an incomplete row alone or interrupt it.
  ghost predicate OnlyInterrupts(a: Db, b: Db) {
    forall t | t in a.rows :: t in b.rows && (b.rows[t] == a.rows[t] || b.rows[t].status == TaskStatus.Interrupted)
  }

  lemma RelyOnlyInterrupts(a: Shared, b: Shared)
    requires Rely(a, b)
    ensures OnlyInterrupts(a.db, b.db)
  {
    assert a.db.rows.Keys <= b.db.rows.Keys;
    hide Extends, FlagsRely, SealRely;
  }

  lemma InterruptedAround(a: Db, mid: Db, done: Db, b: Db)
    requires OnlyInterrupts(a, mid) && AllInterrupted(mid, done) && OnlyInterrupts(mid, done) && OnlyInterrupts(done, b)
    ensures AllInterrupted(a, b)
  {
  }

  lemma RecoveryDoneMeans(a: Shared, mid: Shared, failure: TaskFailure, now: Timestamp, b: Shared)
    requires Inv(mid.db) && TurnTaken(a, mid) && Rely(Outcome(mid, WriteRecovery(failure), now, true), b)
    requires Answer(mid.db, WriteRecovery(failure), now).RecoveryDone?
    ensures AllInterrupted(a.db, b.db)
    ensures Answer(mid.db, WriteRecovery(failure), now).highWatermark == LastId(Outcome(mid, WriteRecovery(failure), now, true).db.log)
  {
    RecoverStands(mid.db, now, failure);
    RelyOnlyInterrupts(a.(ownPending := true), mid);
    RelyOnlyInterrupts(Outcome(mid, WriteRecovery(failure), now, true), b);
    var done := RecoverAll(mid.db, now, failure);
    RecoveredSettles(mid.db, done, failure, now);
    hide TurnTaken, Rely, Stands, Inv, RecoverAll, OnlyInterrupts, AllInterrupted;
    InterruptedAround(a.db, mid.db, done, b.db);
  }

  lemma RecoveredSettles(db: Db, done: Db, failure: TaskFailure, now: Timestamp)
    requires Stands(db, RecoverCommand(now, failure), done) && done.rows.Keys == db.rows.Keys
    ensures AllInterrupted(db, done) && OnlyInterrupts(db, done)
  {
    hide Inv, Extends;
    forall t | t in db.rows && db.rows[t].status.IsIncomplete() ensures done.rows[t].status == TaskStatus.Interrupted {
      assert t !in Incomplete(done);
    }
  }

  lemma InterruptedSince(a: Db, b: Db, c: Db)
    requires OnlyInterrupts(a, b) && AllInterrupted(b, c)
    requires forall t | t in b.rows && b.rows[t].IsTerminal() :: t in c.rows && c.rows[t] == b.rows[t]
    ensures AllInterrupted(a, c)
  {
  }

  lemma MovesSettled(a: Shared, b: Shared)
    requires Moves(a, b)
    ensures forall t | t in a.db.rows && a.db.rows[t].IsTerminal() :: t in b.db.rows && b.db.rows[t] == a.db.rows[t]
  {
    assert a.db.rows.Keys <= b.db.rows.Keys;
  }

  lemma MovesFlag(a: Shared, b: Shared)
    requires Moves(a, b)
    ensures a.frozenFlag ==> b.frozenFlag
  {
  }

  lemma MovesClosed(a: Shared, b: Shared)
    requires Moves(a, b)
    ensures a.gateClosed ==> b.gateClosed
  {
  }

  lemma MovesDrained(a: Shared, b: Shared)
    requires Moves(a, b) && Drained(a)
    ensures Drained(b)
  {
  }

  lemma SealingIsSafe(l: Local, w: Shared)
    requires Safe(l, w) && l.frozen && Sealed(w)
    ensures Safe(l.(sealed := Some(w.db.log)), w)
  {
    hide WInv, Sealed;
  }

  lemma NotScanningIsSafe(l: Local, w: Shared)
    requires Safe(l, w)
    ensures Safe(l.(scanRequested := false), w)
  {
    hide WInv, Sealed;
  }

  // A recovery written after the gate drained leaves nobody who could make the log grow.
  lemma RecoverySeals(a: Shared, mid: Shared, failure: TaskFailure, now: Timestamp, b: Shared)
    requires WInv(mid) && Drained(a) && TurnTaken(a, mid) && a.behind == []
    requires Rely(Outcome(mid, WriteRecovery(failure), now, true), b)
    ensures Sealed(b) && b.db.log == Outcome(mid, WriteRecovery(failure), now, true).db.log
  {
    RecoverStands(mid.db, now, failure);
    RecoveredIsSealed(a, mid, RecoverAll(mid.db, now, failure));
    hide WInv, TurnTaken, Stands, Sealed;
  }

  lemma RecoveredIsSealed(a: Shared, mid: Shared, db: Db)
    requires Drained(a) && TurnTaken(a, mid) && Incomplete(db) == {}
    ensures Sealed(Resumed(mid, db))
  {
    hide WInv, Incomplete, Extends, RowsStand, SealRely;
  }
}
