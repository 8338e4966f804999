/** The order in which a shutdown closes the gate, drains it and quiesces the manager. */
module Shutdown {
  import opened Domain
  import opened EventLog
  import opened StoreModel
  import opened World
  import opened Process
  import opened ManagerState
  import opened TaskManager

  datatype ShutdownOutcome = Clean | Unclean

  // `MutationGate::wait_for_idle` under a deadline. The manager's actor goes on meanwhile: it
  // takes the messages `meanwhile`, one between any two looks at the gate.
  method WaitForIdle(manager: Manager, meanwhile: seq<Option<Message>>) returns (idle: bool, ghost records: seq<TurnRecord>)
    requires manager.Valid() && manager.env.w.gateClosed
    modifies manager, manager.env
    ensures manager.Valid() && Moves(old(manager.env.w), manager.env.w)
    ensures idle <==> Drained(manager.env.w)
    ensures old(manager.launches) <= manager.launches && manager.env.faults >= old(manager.env.faults)
    ensures AllHandled(old(manager.Now()), meanwhile, records, manager.Now())
  {
    hide Safe, WInv, Moves, Reported, AllHandled, TurnFits, Follows;
    MovesReflexive(manager.env.w);
    records := [];
    ghost var start := manager.Now();
    NothingHandled(start);
    assert meanwhile[..0] == [];
    idle := manager.env.w.gateActive == 0;
    for n := 0 to |meanwhile|
      invariant manager.Valid() && Moves(old(manager.env.w), manager.env.w) && manager.env.w.gateClosed
      invariant idle <==> Drained(manager.env.w)
      invariant old(manager.launches) <= manager.launches && manager.env.faults >= old(manager.env.faults)
      invariant AllHandled(start, meanwhile[..n], records, manager.Now())
    {
      ghost var before, from := manager.env.w, manager.Now();
      ghost var record := manager.Turn(meanwhile[n]);
      OneMoreHandled(start, meanwhile[..n], records, from, meanwhile[n], record);
      assert meanwhile[..n] + [meanwhile[n]] == meanwhile[..n + 1];
      records := records + [record];
      MovesClosed(before, manager.env.w);
      MovesTransitive(old(manager.env.w), before, manager.env.w);
      idle := manager.env.w.gateActive == 0;
    }
    assert meanwhile[..|meanwhile|] == meanwhile;
  }

  // The backlog, and then the quiesce message of a manager whose gate is drained.
  method QuiesceIdle(manager: Manager, backlog: seq<Option<Message>>, failure: TaskFailure)
    returns (answer: Result<QuiesceResult, ManagerError>)
    requires manager.Valid() && Drained(manager.env.w)
    modifies manager, manager.env
    ensures manager.Valid() && Moves(old(manager.env.w), manager.env.w) && manager.env.w.gateClosed
    ensures manager.env.faults >= old(manager.env.faults)
    ensures answer.Ok? ==> manager.env.w.frozenFlag
    ensures answer.Ok? && answer.value.Durable? ==>
              && manager.sealed == Some(manager.env.w.db.log) && Incomplete(manager.env.w.db) == {}
              && answer.value.highWatermark == LastId(manager.env.w.db.log)
    ensures answer.Err? || !answer.value.Durable? ==> answer == Err(ManagerFrozen) || manager.env.faults > old(manager.env.faults)
    ensures answer.Ok? ==> exists earlier :: manager.env.submitted == earlier + [WriteRecovery(failure)]
  {
    hide Safe, WInv, Rely, Moves, Incomplete, Reported, AllHandled, QuiesceAnswered;
    var env := manager.env;
    ghost var before := env.w;
    var _, _ := manager.Run(backlog);
    MovesDrained(before, env.w);
    ghost var mid := env.w;
    answer := manager.Quiesce(failure);
    MovesDrained(mid, env.w);
    MovesTransitive(old(env.w), mid, env.w);
    if answer.Ok? && answer.value.Durable? { SealedFacts(manager.State(), env.w); }
  }

  // `RuntimeShutdown::shutdown` up to the flush; `meanwhile` is what the manager handles while
  // the gate drains and `backlog` what it still handles before the quiesce message. A clean
  // outcome means that the store is sealed: nothing is queued or running, and `Manager.Run`
  // says the log never grows again. The outcome is unclean only if the gate did not drain in
  // time, somebody else had frozen the manager, or something failed. Either way the gate is
  // closed, the manager frozen, and every runner told to stop.
  method ShutDown(manager: Manager, meanwhile: seq<Option<Message>>, backlog: seq<Option<Message>>, failure: TaskFailure)
    returns (outcome: ShutdownOutcome, ghost quiesced: Option<Result<QuiesceResult, ManagerError>>)
    requires manager.Valid()
    modifies manager, manager.env
    ensures manager.Valid() && Moves(old(manager.env.w), manager.env.w)
    ensures manager.env.w.frozenFlag && manager.env.w.gateClosed && forall t | t in manager.active :: manager.active[t]
    ensures outcome == Clean ==> manager.sealed == Some(manager.env.w.db.log) && Incomplete(manager.env.w.db) == {}
    ensures outcome == Clean ==> quiesced.Some? && quiesced.value.Ok? && quiesced.value.value.Durable?
    ensures outcome == Clean ==> quiesced.value.value.highWatermark == LastId(manager.env.w.db.log)
    ensures quiesced.None? ==> manager.env.w.gateActive > 0
    ensures outcome == Unclean ==>
              quiesced.None? || quiesced == Some(Err(ManagerFrozen)) || manager.env.faults > old(manager.env.faults)
    ensures quiesced.Some? && quiesced.value.Ok? ==>
              exists earlier :: manager.env.submitted == earlier + [WriteRecovery(failure)]
  {
    hide Safe, WInv, Rely, Moves, Incomplete, Reported, AllHandled, QuiesceAnswered;
    var env := manager.env;
    quiesced := None;
    ClosingIsSafe(manager.State(), env.w);
    env.w := BeginQuiescing(env.w);
    ghost var before := env.w;
    outcome := Unclean;
    var idle, _ := WaitForIdle(manager, meanwhile);
    MovesClosed(before, env.w);
    MovesTransitive(old(env.w), before, env.w);
    if idle {
      before := env.w;
      var answer := QuiesceIdle(manager, backlog, failure);
      quiesced := Some(answer);
      MovesTransitive(old(env.w), before, env.w);
      var elapsed := env.Fails();
      if answer.Ok? && answer.value.Durable? && !elapsed {
        SealedFacts(manager.State(), env.w);
        manager.CancelAll();
        return Clean, quiesced;
      }
    }
    // `freeze_and_cancel`
    before := env.w;
    FlaggingIsSafe(manager.State(), env.w);
    env.w := env.w.(frozenFlag := true);
    MovesTransitive(old(env.w), before, env.w);
    manager.CancelAll();
  }
}
