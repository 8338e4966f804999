/** The stream client together with the bridge that feeds the reducer. */
module Session {
  import opened Domain
  import opened EventLog
  import opened Client
  import opened ClientRun
  import World

  // What `decodeFrame` made of a frame.
  datatype Arrival =
    | PersistedEvent(event: TaskEvent)
    | UnknownKind(id: nat, kind: string)
    | ServiceUpdate(state: World.ServiceState, generation: nat)
    | ResetRequested(latestEventId: nat)
    | Undecodable

  datatype StreamEnd = EndOfFile | TransportError | HttpTransient | HttpError | BadContent | Unauthorized | TruncatedStream

  datatype Connection = Connection(arrivals: seq<Arrival>, end: StreamEnd)

  datatype Attempt = BootstrapFails | BootstrapUnauthorized | Bootstraps(bootstrap: Bootstrap)

  datatype Exit = Stopped | ExpiredSession | Transient(cursorAdvanced: bool) | Protocol(cursorAdvanced: bool)
  datatype Recovered = Done | Expired | StoppedRecovering

  // What an arrival says about its own schema: the decoder lets no other through.
  predicate FromDecoder(arrival: Arrival, schemaVersion: nat) {
    arrival.PersistedEvent? ==> arrival.event.schemaVersion == schemaVersion
  }

  predicate HasId(arrival: Arrival) {
    arrival.PersistedEvent? || arrival.UnknownKind?
  }

  function IdOf(arrival: Arrival): nat
    requires HasId(arrival)
  {
    match arrival case PersistedEvent(event) => event.id case UnknownKind(id, _) => id
  }

  // The reducer's two protocol-error branches.
  predicate Rejects(state: AgentState, action: Action) {
    match action
    case EventReceived(event) => event.schemaVersion != SUPPORTED_SCHEMA_VERSION || event.id < state.appliedEventId
    case EventUnknown(id, _, schemaVersion) => schemaVersion != SUPPORTED_SCHEMA_VERSION || id < state.appliedEventId
    case _ => false
  }

  // Arrivals a gap-free server may send to a reader at `cursor`.
  predicate GoesOn(arrivals: seq<Arrival>, cursor: nat)
    decreases |arrivals|
  {
    arrivals == []
    || (!arrivals[0].ResetRequested? && !arrivals[0].Undecodable?
        && (HasId(arrivals[0]) ==> cursor < IdOf(arrivals[0]))
        && GoesOn(arrivals[1..], if HasId(arrivals[0]) then IdOf(arrivals[0]) else cursor))
  }

  function CursorAfter(arrivals: seq<Arrival>, cursor: nat): nat
    decreases |arrivals|
  {
    if arrivals == [] then cursor
    else CursorAfter(arrivals[1..], if HasId(arrivals[0]) then IdOf(arrivals[0]) else cursor)
  }

  // ----- what a connection comes to -----

  // A frame that ends the connection for good: the client has to recover.
  predicate Breaks(arrival: Arrival, cursor: nat) {
    arrival.ResetRequested? || arrival.Undecodable? || (HasId(arrival) && IdOf(arrival) < cursor)
  }

  // What is handed to the reducer; an id that the cursor already has is dropped.
  function HandedOne(arrival: Arrival, cursor: nat, schemaVersion: nat): seq<Action> {
    match arrival
    case PersistedEvent(event) => if event.id == cursor then [] else [EventReceived(event)]
    case UnknownKind(id, kind) => if id == cursor then [] else [EventUnknown(id, kind, schemaVersion)]
    case ServiceUpdate(state, generation) => [ServiceReceived(state, generation)]
    case _ => []
  }

  function Past(arrival: Arrival, cursor: nat): nat {
    if HasId(arrival) then IdOf(arrival) else cursor
  }

  function Handed(arrivals: seq<Arrival>, cursor: nat, schemaVersion: nat): seq<Action>
    decreases |arrivals|
  {
    if arrivals == [] || Breaks(arrivals[0], cursor) then []
    else HandedOne(arrivals[0], cursor, schemaVersion) + Handed(arrivals[1..], Past(arrivals[0], cursor), schemaVersion)
  }

  // The cursor after the arrivals before the first one that breaks, and whether none does.
  function Reach(arrivals: seq<Arrival>, cursor: nat): (nat, bool)
    decreases |arrivals|
  {
    if arrivals == [] then (cursor, true)
    else if Breaks(arrivals[0], cursor) then (cursor, false)
    else Reach(arrivals[1..], Past(arrivals[0], cursor))
  }

  predicate Streams(end: StreamEnd) {
    end in {EndOfFile, TransportError, TruncatedStream}
  }

  function ReachedBy(connection: Connection, cursor: nat): nat {
    if Streams(connection.end) then Reach(connection.arrivals, cursor).0 else cursor
  }

  function HandedBy(connection: Connection, cursor: nat, schemaVersion: nat): seq<Action> {
    if Streams(connection.end) then Handed(connection.arrivals, cursor, schemaVersion) else []
  }

  // How a connection that was opened at `cursor` ends, if nobody stops the client.
  function ExitOf(connection: Connection, cursor: nat): Exit {
    match connection.end
    case Unauthorized => ExpiredSession
    case HttpTransient => Transient(false)
    case HttpError => Protocol(false)
    case BadContent => Protocol(false)
    case TruncatedStream => Protocol(ReachedBy(connection, cursor) > cursor)
    case _ =>
      if Reach(connection.arrivals, cursor).1 then Transient(ReachedBy(connection, cursor) > cursor)
      else Protocol(ReachedBy(connection, cursor) > cursor)
  }

  // A stream that only goes on never breaks, and all of it is applied.
  lemma {:induction false} GoingOnReaches(arrivals: seq<Arrival>, cursor: nat)
    requires GoesOn(arrivals, cursor)
    ensures Reach(arrivals, cursor) == (CursorAfter(arrivals, cursor), true)
    decreases |arrivals|
  {
    if arrivals != [] { GoingOnReaches(arrivals[1..], Past(arrivals[0], cursor)); }
  }

  lemma {:induction false} ReachesForward(arrivals: seq<Arrival>, cursor: nat)
    ensures Reach(arrivals, cursor).0 >= cursor
    decreases |arrivals|
  {
    if arrivals != [] && !Breaks(arrivals[0], cursor) { ReachesForward(arrivals[1..], Past(arrivals[0], cursor)); }
  }

  // ----- what a run comes to -----

  // One connection of a run: the cursor it was opened with, how it ended, the bootstrap that the
  // recovery after it installed, how many recovery attempts were used up by then, and how many
  // failures in a row the wait before the next connection counts.
  datatype Visit = Visit(openedAt: nat, exit: Exit, recovered: Option<Bootstrap>, attempts: nat, streak: nat)

  ghost predicate AllFailed(attempts: seq<Attempt>, lo: nat, hi: int) {
    forall i | lo <= i < hi && i < |attempts| :: attempts[i] == BootstrapFails
  }

  // Only a protocol exit is followed by a recovery, and that takes the first bootstrap that is
  // answered.
  ghost predicate RecoveryFits(recoveries: seq<Attempt>, before: nat, visit: Visit) {
    && before <= visit.attempts <= |recoveries|
    && (!visit.exit.Protocol? ==> visit.recovered.None? && visit.attempts == before)
    && (visit.recovered.Some? ==>
          && before < visit.attempts && recoveries[visit.attempts - 1] == Bootstraps(visit.recovered.value)
          && AllFailed(recoveries, before, visit.attempts - 1))
  }

  // The cursor with which the next connection is opened, if there is one.
  function OpensNext(connection: Connection, visit: Visit): Option<nat> {
    match visit.exit
    case Transient(_) => Some(ReachedBy(connection, visit.openedAt))
    case Protocol(_) => (match visit.recovered case Some(bootstrap) => Some(bootstrap.latestEventId) case None => None)
    case _ => None
  }

  predicate Advanced(connection: Connection, visit: Visit) {
    || (visit.exit.Transient? && visit.exit.cursorAdvanced) || (visit.exit.Protocol? && visit.exit.cursorAdvanced)
    || (visit.recovered.Some? && visit.recovered.value.latestEventId > ReachedBy(connection, visit.openedAt))
  }

  function AttemptsBefore(visits: seq<Visit>, n: nat): nat
    requires n <= |visits|
  {
    if n == 0 then 0 else visits[n - 1].attempts
  }

  ghost predicate VisitFits(connections: seq<Connection>, recoveries: seq<Attempt>, visits: seq<Visit>, n: nat)
    requires n < |visits| <= |connections|
  {
    && (visits[n].exit == Stopped || visits[n].exit == ExitOf(connections[n], visits[n].openedAt))
    && RecoveryFits(recoveries, AttemptsBefore(visits, n), visits[n])
    && (n + 1 < |visits| ==> OpensNext(connections[n], visits[n]) == Some(visits[n + 1].openedAt))
    && (OpensNext(connections[n], visits[n]).Some? ==>
          visits[n].streak == if Advanced(connections[n], visits[n]) || n == 0 then 0 else visits[n - 1].streak + 1)
  }

  ghost predicate AllFit(connections: seq<Connection>, recoveries: seq<Attempt>, visits: seq<Visit>) {
    |visits| <= |connections| && forall n | 0 <= n < |visits| :: VisitFits(connections, recoveries, visits, n)
  }

  // Why a run ended that nobody stopped: the session had expired, or no recovery was answered.
  ghost predicate EndedBecause(recoveries: seq<Attempt>, before: nat, visit: Visit) {
    || visit.exit == ExpiredSession
    || (visit.exit.Protocol? && visit.recovered.None?
        && (|| (before < visit.attempts && visit.attempts <= |recoveries|
            && recoveries[visit.attempts - 1] == BootstrapUnauthorized)
            || (visit.attempts == |recoveries| && AllFailed(recoveries, before, |recoveries|))))
  }

  // Everything that such a run hands to the reducer.
  function AllHanded(connections: seq<Connection>, visits: seq<Visit>, schemaVersion: nat): seq<Action>
    requires |visits| <= |connections|
    decreases |visits|
  {
    if visits == [] then []
    else
      var n := |visits| - 1;
      AllHanded(connections, visits[..n], schemaVersion) + VisitHands(connections[n], visits[n], schemaVersion)
  }

  function VisitHands(connection: Connection, visit: Visit, schemaVersion: nat): seq<Action> {
    HandedBy(connection, visit.openedAt, schemaVersion)
    + match visit.recovered case Some(bootstrap) => [BootstrapReceived(bootstrap)] case None => []
  }

  // ----- streams that follow a log -----

  function PersistedCount(arrivals: seq<Arrival>): nat {
    if arrivals == [] then 0
    else PersistedCount(arrivals[..|arrivals| - 1]) + if arrivals[|arrivals| - 1].PersistedEvent? then 1 else 0
  }

  predicate FollowsAt(log: seq<TaskEvent>, position: nat, arrival: Arrival) {
    match arrival
    case PersistedEvent(event) => position < |log| && event == log[position]
    case UnknownKind(_, _) => false
    case _ => true
  }

  // The persisted arrivals are the events of the log from `position` on.
  ghost predicate ArrivalsFollow(log: seq<TaskEvent>, position: nat, arrivals: seq<Arrival>) {
    forall n | 0 <= n < |arrivals| :: FollowedAt(log, position, arrivals, n)
  }

  ghost predicate FollowedAt(log: seq<TaskEvent>, position: nat, arrivals: seq<Arrival>, n: nat)
    requires n < |arrivals|
  {
    FollowsAt(log, position + PersistedCount(arrivals[..n]), arrivals[n])
  }

  // An action handed to the reducer, and how many events of the log are behind it afterwards.
  datatype Dispatched = Dispatched(action: Action, to: nat)

  ghost predicate FollowsOne(log: seq<TaskEvent>, from: nat, item: Dispatched) {
    match item.action
    case EventReceived(event) => from < |log| && event == log[from] && item.to == from + 1
    case ServiceReceived(_, _) => item.to == from
    case BootstrapReceived(bootstrap) => item.to <= |log| && IsSnapshot(log[..item.to], bootstrap)
    case _ => false
  }

  function EndOf(start: nat, dispatched: seq<Dispatched>): nat {
    if dispatched == [] then start else dispatched[|dispatched| - 1].to
  }

  // Every action moves on from where the one before it left off.
  ghost predicate FollowsLog(log: seq<TaskEvent>, start: nat, dispatched: seq<Dispatched>) {
    forall i | 0 <= i < |dispatched| :: FollowsOne(log, EndOf(start, dispatched[..i]), dispatched[i])
  }

  lemma FollowsOneMore(log: seq<TaskEvent>, start: nat, dispatched: seq<Dispatched>, item: Dispatched)
    requires FollowsLog(log, start, dispatched) && FollowsOne(log, EndOf(start, dispatched), item)
    ensures FollowsLog(log, start, dispatched + [item]) && EndOf(start, dispatched + [item]) == item.to
  {
    hide FollowsOne;
    var more := dispatched + [item];
    forall i | 0 <= i < |more| ensures FollowsOne(log, EndOf(start, more[..i]), more[i]) {
      if i < |dispatched| { assert more[..i] == dispatched[..i]; } else { assert more[..i] == dispatched; }
    }
  }

  function ReduceAll(state: AgentState, dispatched: seq<Dispatched>): AgentState {
    if dispatched == [] then state
    else Reduce(ReduceAll(state, dispatched[..|dispatched| - 1]), dispatched[|dispatched| - 1].action)
  }

  lemma ReduceOneMore(state: AgentState, dispatched: seq<Dispatched>, item: Dispatched)
    ensures ReduceAll(state, dispatched + [item]) == Reduce(ReduceAll(state, dispatched), item.action)
  {
    hide Reduce;
    assert (dispatched + [item])[..|dispatched|] == dispatched;
  }

  // A bootstrap that was read from the log, and where.
  ghost predicate WasRead(log: seq<TaskEvent>, bootstrap: Bootstrap) {
    exists p :: 0 <= p <= |log| && IsSnapshot(log[..p], bootstrap)
  }

  ghost function ReadAt(log: seq<TaskEvent>, bootstrap: Bootstrap): (p: nat)
    requires WasRead(log, bootstrap)
    ensures p <= |log| && IsSnapshot(log[..p], bootstrap)
  {
    var p :| 0 <= p <= |log| && IsSnapshot(log[..p], bootstrap);
    p
  }

  ghost function NextPosition(log: seq<TaskEvent>, position: nat, action: Action): (to: Option<nat>)
    ensures to.Some? ==> FollowsOne(log, position, Dispatched(action, to.value))
  {
    match action
    case EventReceived(event) => if position < |log| && event == log[position] then Some(position + 1) else None
    case ServiceReceived(_, _) => Some(position)
    case BootstrapReceived(bootstrap) => if WasRead(log, bootstrap) then Some(ReadAt(log, bootstrap)) else None
    case _ => None
  }

  ghost predicate AllRead(log: seq<TaskEvent>, attempts: seq<Attempt>) {
    forall i | 0 <= i < |attempts| && attempts[i].Bootstraps? :: WasRead(log, attempts[i].bootstrap)
  }

  // The ids handed on since a bootstrap at `since`: each once, ascending, up to the cursor.
  ghost predicate OnceEach(projected: seq<nat>, since: nat, cursor: nat) {
    && (forall i, j | 0 <= i < j < |projected| :: projected[i] < projected[j])
    && (forall i | 0 <= i < |projected| :: since < projected[i] <= cursor)
    && cursor == if projected == [] then since else projected[|projected| - 1]
  }

  lemma OnceMore(projected: seq<nat>, since: nat, cursor: nat, id: nat)
    requires OnceEach(projected, since, cursor) && cursor < id
    ensures OnceEach(projected + [id], since, id)
  {
  }

  // Every connection opened so far answers with the log after the cursor it was opened with.
  ghost predicate AllFollow(log: seq<TaskEvent>, openedAt: seq<nat>, connections: seq<Connection>)
    requires |openedAt| <= |connections|
  {
    forall n | 0 <= n < |openedAt| :: ArrivalsFollow(log, Pos(log, openedAt[n]), connections[n].arrivals)
  }


  // While a stream is read: what the arrivals so far came to.
  ghost predicate Underway(arrivals: seq<Arrival>, n: nat, since: nat, cursor: nat, schemaVersion: nat, start: seq<Action>,
                           actions: seq<Action>) {
    && n <= |arrivals| && start <= actions
    && Reach(arrivals[n..], cursor) == Reach(arrivals, since)
    && actions + Handed(arrivals[n..], cursor, schemaVersion) == start + Handed(arrivals, since, schemaVersion)
  }

  lemma UnderwayStarts(arrivals: seq<Arrival>, cursor: nat, schemaVersion: nat, start: seq<Action>)
    ensures Underway(arrivals, 0, cursor, cursor, schemaVersion, start, start)
  {
    assert arrivals[0..] == arrivals;
  }

  lemma UnderwayInside(arrivals: seq<Arrival>, n: nat, since: nat, cursor: nat, schemaVersion: nat, start: seq<Action>, actions: seq<Action>)
    requires Underway(arrivals, n, since, cursor, schemaVersion, start, actions)
    ensures start <= actions <= start + Handed(arrivals, since, schemaVersion)
  {
    hide Handed, Reach;
  }

  lemma UnderwayMore(arrivals: seq<Arrival>, n: nat, since: nat, cursor: nat, schemaVersion: nat, start: seq<Action>, actions: seq<Action>)
    requires Underway(arrivals, n, since, cursor, schemaVersion, start, actions) && n < |arrivals|
    ensures Breaks(arrivals[n], cursor) ==>
              Reach(arrivals, since) == (cursor, false) && actions == start + Handed(arrivals, since, schemaVersion)
    ensures !Breaks(arrivals[n], cursor) ==>
              Underway(arrivals, n + 1, since, Past(arrivals[n], cursor), schemaVersion, start,
                       actions + HandedOne(arrivals[n], cursor, schemaVersion))
  {
    hide Breaks, HandedOne, Past;
    assert arrivals[n..][1..] == arrivals[n + 1..] && arrivals[n..][0] == arrivals[n];
    HandedSoFar(actions, HandedOne(arrivals[n], cursor, schemaVersion), Handed(arrivals[n + 1..], Past(arrivals[n], cursor), schemaVersion));
  }

  lemma UnderwayEnds(arrivals: seq<Arrival>, since: nat, cursor: nat, schemaVersion: nat, start: seq<Action>, actions: seq<Action>)
    requires Underway(arrivals, |arrivals|, since, cursor, schemaVersion, start, actions)
    ensures Reach(arrivals, since) == (cursor, true) && actions == start + Handed(arrivals, since, schemaVersion)
  {
    HandedSoFar(actions, [], []);
  }

  lemma HandedSoFar(before: seq<Action>, one: seq<Action>, rest: seq<Action>)
    ensures before + (one + rest) == (before + one) + rest && before <= before + one && before + [] == before
    ensures before <= before + rest
  {
  }

  // While a stream is read that follows the log: where the client stands.
  ghost predicate FollowedSoFar(position: nat, arrivals: seq<Arrival>, n: nat, now: nat) {
    n <= |arrivals| && now == position + PersistedCount(arrivals[..n])
  }

  lemma FollowedStarts(log: seq<TaskEvent>, position: nat, arrivals: seq<Arrival>)
    ensures FollowedSoFar(position, arrivals, 0, position)
  {
  }

  lemma FollowedMore(log: seq<TaskEvent>, position: nat, arrivals: seq<Arrival>, n: nat)
    requires n < |arrivals|
    ensures ArrivalsFollow(log, position, arrivals) ==>
              forall now: nat | FollowedSoFar(position, arrivals, n, now) :: FollowsAt(log, now, arrivals[n])
    ensures forall now: nat | FollowedSoFar(position, arrivals, n, now) ::
              FollowedSoFar(position, arrivals, n + 1, now + if arrivals[n].PersistedEvent? then 1 else 0)
  {
    hide FollowsAt;
    CountStep(arrivals, n);
    if ArrivalsFollow(log, position, arrivals) { assert FollowedAt(log, position, arrivals, n); }
  }

  lemma CountStep(arrivals: seq<Arrival>, n: nat)
    requires n < |arrivals|
    ensures PersistedCount(arrivals[..n + 1]) == PersistedCount(arrivals[..n]) + if arrivals[n].PersistedEvent? then 1 else 0
  {
    assert arrivals[..n + 1][..n] == arrivals[..n];
  }

  // The client has looked `looks` times whether it was stopped and has noticed each time that it
  // was; it looks at least once between any two actions. `left` is what later looks will find.
  ghost predicate Watches(script: seq<bool>, left: seq<bool>, looks: nat, stopped: bool, handed: nat) {
    && left == (if looks <= |script| then script[looks..] else [])
    && (forall k | 0 <= k < looks && k < |script| && script[k] :: stopped) && handed <= looks + 1
  }

  lemma LooksOnce(script: seq<bool>, left: seq<bool>, looks: nat, stopped: bool, handed: nat)
    requires Watches(script, left, looks, stopped, handed)
    ensures Watches(script, if left == [] then [] else left[1..], looks + 1, stopped || (left != [] && left[0]), handed)
    ensures handed <= looks + 1
  {
  }

  lemma WatchesStopped(script: seq<bool>, left: seq<bool>, looks: nat, stopped: bool, handed: nat)
    requires Watches(script, left, looks, stopped, handed)
    ensures Watches(script, left, looks, true, handed)
  {
  }

  class SseClient {
    const schemaVersion: nat
    // Every event the run will ever commit.
    ghost const log: seq<TaskEvent>
    var lastAppliedId: nat
    var stopped: bool
    var state: AgentState
    var stops: seq<bool>
    // Ids handed to the reducer since the last bootstrap, and how often it refused one.
    ghost var projected: seq<nat>
    ghost var since: nat
    ghost var rejections: nat
    // What was dispatched, as long as it was all `faithful` to the log from `start` on.
    ghost const initial: AgentState
    ghost const start: nat
    ghost var dispatched: seq<Dispatched>
    ghost var faithful: bool
    // Everything that was dispatched.
    ghost var actions: seq<Action>
    // What every look at the stop flag finds, and how many looks there were.
    ghost const script: seq<bool>
    ghost var looks: nat

    ghost function Position(): nat
      reads this
    {
      EndOf(start, dispatched)
    }

    ghost predicate Followed()
      reads this
    {
      faithful ==>
        && FollowsLog(log, start, dispatched) && Position() <= |log| && state == ReduceAll(initial, dispatched)
        && (stopped || lastAppliedId == LastId(log[..Position()]))
    }

    ghost predicate Valid()
      reads this
    {
      && (stopped || OnceEach(projected, since, lastAppliedId)) && Followed() && state == ReduceActions(initial, actions)
      && (schemaVersion == SUPPORTED_SCHEMA_VERSION ==>
            rejections == 0 && (stopped || state.appliedEventId == lastAppliedId))
      && Watches(script, stops, looks, stopped, |actions|)
    }

    // The hook dispatches the first bootstrap and starts the client at its cursor.
    constructor (schemaVersion: nat, state: AgentState, bootstrap: Bootstrap, stops: seq<bool>, ghost log: seq<TaskEvent>)
      ensures Valid() && !stopped && lastAppliedId == bootstrap.latestEventId && this.schemaVersion == schemaVersion
      ensures script == stops && looks == 0 && this.log == log && dispatched == [] && actions == []
      ensures this.state == initial == Reduce(state, BootstrapReceived(bootstrap))
      ensures WasRead(log, bootstrap) ==> faithful && IsSnapshot(log[..start], bootstrap)
    {
      this.schemaVersion, this.stops, this.log, script, looks := schemaVersion, stops, log, stops, 0;
      faithful, dispatched, actions := WasRead(log, bootstrap), [], [];
      initial, start := Reduce(state, BootstrapReceived(bootstrap)), if WasRead(log, bootstrap) then ReadAt(log, bootstrap) else 0;
      this.state := Reduce(state, BootstrapReceived(bootstrap));
      lastAppliedId, stopped := bootstrap.latestEventId, false;
      projected, since, rejections := [], bootstrap.latestEventId, 0;
    }

    // `stop` may be called whenever the client waits.
    method CheckStopped() returns (b: bool)
      requires Valid()
      modifies this`stops, this`stopped, this`looks
      ensures Valid() && b == stopped && (old(stopped) ==> stopped) && looks == old(looks) + 1 && |actions| <= looks
      ensures true !in old(stops) ==> true !in stops && stopped == old(stopped)
    {
      hide Watches, OnceEach, FollowsLog, ReduceAll, ReduceActions, LastId;
      LooksOnce(script, stops, looks, stopped, |actions|);
      if stops != [] {
        stopped := stopped || stops[0];
        stops := stops[1..];
      }
      looks := looks + 1;
      b := stopped;
    }

    method Dispatch(action: Action)
      requires faithful ==> FollowsLog(log, start, dispatched) && state == ReduceAll(initial, dispatched)
      requires state == ReduceActions(initial, actions)
      modifies this`state, this`rejections, this`dispatched, this`faithful, this`actions
      ensures state == Reduce(old(state), action) && actions == old(actions) + [action] && state == ReduceActions(initial, actions)
      ensures rejections == old(rejections) + if Rejects(old(state), action) then 1 else 0
      ensures faithful == (old(faithful) && NextPosition(log, old(Position()), action).Some?)
      ensures faithful ==>
                && dispatched == old(dispatched) + [Dispatched(action, NextPosition(log, old(Position()), action).value)]
                && FollowsLog(log, start, dispatched) && Position() == NextPosition(log, old(Position()), action).value
                && state == ReduceAll(initial, dispatched)
    {
      if Rejects(state, action) { rejections := rejections + 1; }
      hide Reduce, NextPosition, FollowsLog, Rejects, ReduceAll, ReduceActions;
      OneMoreAction(initial, actions, action);
      ghost var to := NextPosition(log, Position(), action);
      if to.Some? { ReduceOneMore(initial, dispatched, Dispatched(action, to.value)); }
      state := Reduce(state, action);
      actions := actions + [action];
      Record(action);
    }

    ghost method Record(action: Action)
      requires faithful ==> FollowsLog(log, start, dispatched)
      modifies this`dispatched, this`faithful
      ensures faithful == (old(faithful) && NextPosition(log, old(Position()), action).Some?)
      ensures faithful ==>
                && dispatched == old(dispatched) + [Dispatched(action, NextPosition(log, old(Position()), action).value)]
                && FollowsLog(log, start, dispatched) && Position() == NextPosition(log, old(Position()), action).value
    {
      hide NextPosition, FollowsLog, FollowsOne;
      var to := NextPosition(log, Position(), action);
      faithful := faithful && to.Some?;
      if faithful {
        FollowsOneMore(log, start, dispatched, Dispatched(action, to.value));
        dispatched := dispatched + [Dispatched(action, to.value)];
      }
    }

    // `#applyFrame`
    method ApplyFrame(arrival: Arrival) returns (ok: bool)
      requires Valid() && !stopped && |actions| <= looks && FromDecoder(arrival, schemaVersion) && Ascending(log)
      modifies this`lastAppliedId, this`state, this`projected, this`rejections, this`dispatched, this`faithful, this`actions
      ensures Valid() && since == old(since)
      // An arrival that follows the log is taken, and keeps the run faithful.
      ensures old(faithful) && FollowsAt(log, old(Position()), arrival) ==>
                faithful && Position() == old(Position()) + if arrival.PersistedEvent? then 1 else 0
      ensures ok <==> !Breaks(arrival, old(lastAppliedId))
      ensures ok <==> !arrival.ResetRequested? && !arrival.Undecodable? && (HasId(arrival) ==> IdOf(arrival) >= old(lastAppliedId))
      ensures actions == old(actions) + if ok then HandedOne(arrival, old(lastAppliedId), schemaVersion) else []
      ensures lastAppliedId == if ok && HasId(arrival) then IdOf(arrival) else old(lastAppliedId)
      ensures projected == if ok && HasId(arrival) && IdOf(arrival) > old(lastAppliedId) then old(projected) + [IdOf(arrival)]
                           else old(projected)
      ensures !ok || (HasId(arrival) && IdOf(arrival) == old(lastAppliedId)) ==> state == old(state)
      // The reducer follows the client's cursor exactly when the schema is the supported one.
      ensures ok && HasId(arrival) && IdOf(arrival) > old(lastAppliedId) && old(state).appliedEventId == old(lastAppliedId) ==>
                (state.appliedEventId == lastAppliedId <==> schemaVersion == SUPPORTED_SCHEMA_VERSION)
    {
      hide Watches, FollowsLog, FollowsOne, ReduceAll, ReduceActions, Reduce, Ascending, LastId, OnceEach;
      if faithful && Position() < |log| { NextIsNewer(log, Position()); }
      if arrival.ResetRequested? || arrival.Undecodable? { return false; }
      if HasId(arrival) {
        if IdOf(arrival) == lastAppliedId { return true; }
        if IdOf(arrival) < lastAppliedId { return false; }
      }
      ApplyNewer(arrival);
      ok := true;
    }

    // What is newer than the cursor goes to the reducer.
    method ApplyNewer(arrival: Arrival)
      requires Valid() && !stopped && |actions| <= looks && FromDecoder(arrival, schemaVersion)
      requires !arrival.ResetRequested? && !arrival.Undecodable? && (HasId(arrival) ==> IdOf(arrival) > lastAppliedId)
      modifies this`lastAppliedId, this`state, this`projected, this`rejections, this`dispatched, this`faithful, this`actions
      ensures Valid() && since == old(since)
      ensures old(faithful) && FollowsAt(log, old(Position()), arrival) ==>
                faithful && Position() == old(Position()) + if arrival.PersistedEvent? then 1 else 0
      ensures lastAppliedId == if HasId(arrival) then IdOf(arrival) else old(lastAppliedId)
      ensures actions == old(actions) + HandedOne(arrival, old(lastAppliedId), schemaVersion)
      ensures projected == if HasId(arrival) then old(projected) + [IdOf(arrival)] else old(projected)
      ensures HasId(arrival) && old(state).appliedEventId == old(lastAppliedId) ==>
                (state.appliedEventId == lastAppliedId <==> schemaVersion == SUPPORTED_SCHEMA_VERSION)
    {
      hide FollowsLog, FollowsOne, ReduceAll, ReduceActions, Reduce, LastId, Rejects, OnceEach;
      if faithful && Position() < |log| { PrefixEnds(log, Position()); }
      RejectedMeans(state, arrival, schemaVersion);
      if HasId(arrival) { OnceMore(projected, since, lastAppliedId, IdOf(arrival)); }
      match arrival {
        case UnknownKind(id, kind) =>
          UnknownMovesCursor(state, id, kind, schemaVersion);
          lastAppliedId, projected := id, projected + [id];
          Dispatch(EventUnknown(id, kind, schemaVersion));
        case PersistedEvent(event) =>
          EventMovesCursor(state, event);
          Dispatch(EventReceived(event));
          lastAppliedId, projected := event.id, projected + [event.id];
        case ServiceUpdate(service, generation) =>
          ServiceKeepsCursor(state, service, generation);
          Dispatch(ServiceReceived(service, generation));
      }
    }

    // `#openOnce`: checks the response, and reads until the stream ends or a frame fails.
    method OpenOnce(connection: Connection) returns (exit: Exit)
      requires Valid() && !stopped && Ascending(log)
      requires forall i | 0 <= i < |connection.arrivals| :: FromDecoder(connection.arrivals[i], schemaVersion)
      modifies this
      ensures Valid() && since == old(since) && (exit != Stopped ==> !stopped) && lastAppliedId >= old(lastAppliedId)
      ensures exit.Transient? || exit.Protocol? ==> exit.cursorAdvanced == (lastAppliedId > old(lastAppliedId))
      // A server that goes on from the cursor never causes a protocol exit.
      ensures GoesOn(connection.arrivals, old(lastAppliedId)) && connection.end in {EndOfFile, TransportError, HttpTransient} ==>
                !exit.Protocol?
      ensures exit == ExpiredSession ==> connection.end == Unauthorized
      // Such a stream is applied to its end.
      ensures GoesOn(connection.arrivals, old(lastAppliedId)) && exit.Transient? && connection.end != HttpTransient ==>
                lastAppliedId == CursorAfter(connection.arrivals, old(lastAppliedId))
      ensures old(faithful) && ArrivalsFollow(log, old(Position()), connection.arrivals) ==> faithful
      // A connection that nobody stopped ends as its frames and its end say.
      ensures exit != Stopped ==>
                && exit == ExitOf(connection, old(lastAppliedId)) && lastAppliedId == ReachedBy(connection, old(lastAppliedId))
                && actions == old(actions) + HandedBy(connection, old(lastAppliedId), schemaVersion)
      ensures exit == Stopped ==>
                stopped && old(actions) <= actions <= old(actions) + HandedBy(connection, old(lastAppliedId), schemaVersion)
      ensures true !in old(stops) ==> true !in stops && exit != Stopped
    {
      hide Watches, OnceEach, Reduce, Rejects, FollowsLog, ReduceAll, ReduceActions, FollowsAt, Ascending, LastId, GoesOn, CursorAfter;
      hide Reach, Handed, Breaks, HandedOne, ArrivalsFollow;
      HandedSoFar(actions, [], HandedBy(connection, lastAppliedId, schemaVersion));
      if GoesOn(connection.arrivals, lastAppliedId) { GoingOnReaches(connection.arrivals, lastAppliedId); }
      var stop := CheckStopped();
      if stop { return Stopped; }
      match connection.end {
        case Unauthorized => return ExpiredSession;
        case HttpTransient => return Transient(false);
        case HttpError => return Protocol(false);
        case BadContent => return Protocol(false);
        case _ =>
      }
      exit := ReadStream(connection);
    }

    // The read loop.
    method ReadStream(connection: Connection) returns (exit: Exit)
      requires Valid() && !stopped && Ascending(log) && Streams(connection.end)
      requires forall i | 0 <= i < |connection.arrivals| :: FromDecoder(connection.arrivals[i], schemaVersion)
      modifies this
      ensures Valid() && since == old(since) && (exit != Stopped ==> !stopped) && lastAppliedId >= old(lastAppliedId)
      ensures old(faithful) && ArrivalsFollow(log, old(Position()), connection.arrivals) ==> faithful
      ensures exit != Stopped ==>
                && exit == ExitOf(connection, old(lastAppliedId)) && lastAppliedId == ReachedBy(connection, old(lastAppliedId))
                && actions == old(actions) + HandedBy(connection, old(lastAppliedId), schemaVersion)
      ensures exit == Stopped ==>
                stopped && old(actions) <= actions <= old(actions) + HandedBy(connection, old(lastAppliedId), schemaVersion)
      ensures true !in old(stops) ==> true !in stops && exit != Stopped
    {
      hide Watches, OnceEach, Reduce, Rejects, FollowsLog, ReduceAll, ReduceActions, FollowsAt, Ascending, LastId, PersistedCount;
      hide Reach, Handed, Breaks, HandedOne, ArrivalsFollow, Underway, FollowedSoFar;
      var cursorAtOpen := lastAppliedId;
      ghost var start, position := actions, Position();
      UnderwayStarts(connection.arrivals, lastAppliedId, schemaVersion, actions);
      FollowedStarts(log, position, connection.arrivals);
      for n := 0 to |connection.arrivals|
        invariant Valid() && !stopped && since == old(since) && lastAppliedId >= cursorAtOpen
        invariant Underway(connection.arrivals, n, cursorAtOpen, lastAppliedId, schemaVersion, start, actions)
        invariant true !in old(stops) ==> true !in stops
        invariant old(faithful) && ArrivalsFollow(log, position, connection.arrivals) ==>
                    faithful && FollowedSoFar(position, connection.arrivals, n, Position())
      {
        var stop := CheckStopped();
        UnderwayInside(connection.arrivals, n, cursorAtOpen, lastAppliedId, schemaVersion, start, actions);
        if stop { return Stopped; }
        var arrival := connection.arrivals[n];
        UnderwayMore(connection.arrivals, n, cursorAtOpen, lastAppliedId, schemaVersion, start, actions);
        FollowedMore(log, position, connection.arrivals, n);
        var ok := ApplyFrame(arrival);
        if !ok { HandedSoFar(actions, [], []); }
        stop := CheckStopped();
        if stop {
          if ok { UnderwayInside(connection.arrivals, n + 1, cursorAtOpen, lastAppliedId, schemaVersion, start, actions); }
          return Stopped;
        }
        if !ok { return Protocol(lastAppliedId > cursorAtOpen); }
      }
      UnderwayEnds(connection.arrivals, cursorAtOpen, lastAppliedId, schemaVersion, start, actions);
      if connection.end == TruncatedStream { return Protocol(lastAppliedId > cursorAtOpen); }
      exit := Transient(lastAppliedId > cursorAtOpen);
    }

    // `#recover`: retries the bootstrap until it is installed, with the attempts from `from` on.
    method Recover(attempts: seq<Attempt>, from: nat) returns (outcome: Recovered, used: nat)
      requires Valid() && !stopped && from <= |attempts|
      modifies this
      ensures Valid() && from <= used <= |attempts|
      ensures outcome == Done ==> !stopped && projected == [] && since == lastAppliedId && state.appliedEventId == lastAppliedId
      ensures outcome == StoppedRecovering ==> stopped || used == |attempts|
      ensures old(faithful) && AllRead(log, attempts) ==> faithful
      // The first bootstrap that is answered is dispatched and installed.
      ensures outcome == Done ==>
                && from < used && attempts[used - 1].Bootstraps? && lastAppliedId == attempts[used - 1].bootstrap.latestEventId
                && actions == old(actions) + [BootstrapReceived(attempts[used - 1].bootstrap)]
      ensures outcome == Expired ==> from < used && attempts[used - 1] == BootstrapUnauthorized && actions == old(actions)
      ensures outcome in {Done, Expired} ==> AllFailed(attempts, from, used - 1)
      ensures outcome == StoppedRecovering && !stopped ==> actions == old(actions) && AllFailed(attempts, from, |attempts|)
      ensures old(actions) <= actions && (true !in old(stops) ==> true !in stops && !stopped)
    {
      hide Watches, Reduce, FollowsLog, ReduceAll, ReduceActions, LastId;
      used := from;
      while used < |attempts|
        invariant Valid() && !stopped && from <= used <= |attempts| && faithful == old(faithful) && actions == old(actions)
        invariant AllFailed(attempts, from, used)
        invariant true !in old(stops) ==> true !in stops
        decreases |attempts| - used
      {
        var attempt := attempts[used];
        used := used + 1;
        match attempt {
          case Bootstraps(bootstrap) =>
            var installed := Install(bootstrap);
            return if installed then Done else StoppedRecovering, used;
          case _ =>
            var stop := CheckStopped();
            if stop { return StoppedRecovering, used; }
            if attempt.BootstrapUnauthorized? { return Expired, used; }
        }
      }
      outcome := StoppedRecovering;
    }

    // A bootstrap that was answered is dispatched; the cursor follows unless the client was stopped.
    method Install(bootstrap: Bootstrap) returns (installed: bool)
      requires Valid() && !stopped
      modifies this
      ensures Valid() && stopped == !installed && actions == old(actions) + [BootstrapReceived(bootstrap)]
      ensures installed ==> projected == [] && since == lastAppliedId == state.appliedEventId == bootstrap.latestEventId
      ensures old(faithful) && WasRead(log, bootstrap) ==> faithful
      ensures true !in old(stops) ==> true !in stops && installed
    {
      hide Reduce, FollowsLog, ReduceAll, ReduceActions, LastId;
      BootstrapSetsCursor(state, bootstrap);
      Dispatch(BootstrapReceived(bootstrap));
      var stop := stops != [] && stops[0];
      if stops != [] { stops := stops[1..]; }
      looks := looks + 1;
      if stop {
        stopped := true;
        return false;
      }
      lastAppliedId, projected, since := bootstrap.latestEventId, [], bootstrap.latestEventId;
      installed := true;
    }

    // `#run`: every run of the client, over any connections, bootstraps and stops. `openedAt[n]`
    // is the cursor with which connection `n` was opened, and `visits` says what each came to. A
    // run whose recoveries have all failed so far is observed as stopped.
    method Run(connections: seq<Connection>, recoveries: seq<Attempt>) returns (openedAt: seq<nat>, visits: seq<Visit>)
      requires Valid() && !stopped && Ascending(log)
      requires forall c | c in connections :: forall i | 0 <= i < |c.arrivals| :: FromDecoder(c.arrivals[i], schemaVersion)
      modifies this
      ensures Valid() && |openedAt| <= |connections|
      ensures connections != [] ==> openedAt != [] && openedAt[0] == old(lastAppliedId)
      // Connections that follow the log from where they were opened make a faithful run.
      ensures old(faithful) && AllRead(log, recoveries) && AllFollow(log, openedAt, connections) ==> faithful
      // Each connection ends as it has to and is followed by what has to follow.
      ensures |visits| == |openedAt| && (forall n | 0 <= n < |visits| :: visits[n].openedAt == openedAt[n])
      ensures AllFit(connections, recoveries, visits)
      ensures !stopped ==> |visits| == |connections|
      ensures stopped && true !in old(stops) ==>
                visits != [] && EndedBecause(recoveries, AttemptsBefore(visits, |visits| - 1), visits[|visits| - 1])
      // What was handed to the reducer.
      ensures old(actions) <= actions
      ensures true !in old(stops) ==> actions == old(actions) + AllHanded(connections, visits, schemaVersion)
    {
      hide Watches, OnceEach, Reduce, Rejects, FromDecoder, ArrivalsFollow, AllRead, FollowsLog, ReduceAll, ReduceActions, LastId, Ascending;
      hide AllFit, ExitOf, HandedBy, AllHanded, EndedBecause, AllFollow;
      openedAt, visits := [], [];
      var used, failureStreak := 0, 0;
      NothingVisited(connections, recoveries, log, schemaVersion, actions);
      while |visits| < |connections|
        invariant Valid() && !stopped && |openedAt| == |visits| <= |connections| && used <= |recoveries|
        invariant forall k | 0 <= k < |visits| :: visits[k].openedAt == openedAt[k]
        invariant |visits| == 0 ==> lastAppliedId == old(lastAppliedId)
        invariant |visits| > 0 ==> openedAt[0] == old(lastAppliedId)
        invariant AllFit(connections, recoveries, visits) && used == AttemptsBefore(visits, |visits|)
        invariant visits != [] ==> OpensNext(connections[|visits| - 1], visits[|visits| - 1]) == Some(lastAppliedId)
        invariant failureStreak == if visits == [] then 0 else visits[|visits| - 1].streak + 1
        invariant old(faithful) && AllRead(log, recoveries) && AllFollow(log, openedAt, connections) ==> faithful
        invariant old(actions) <= actions && (true !in old(stops) ==> true !in stops)
        invariant true !in old(stops) ==> actions == old(actions) + AllHanded(connections, visits, schemaVersion)
        decreases |connections| - |visits|
      {
        assert connections[|visits|] in connections;
        var visit := VisitOnce(connections[|visits|], recoveries, used, failureStreak);
        FollowMore(log, openedAt, visit.openedAt, connections);
        VisitMore(connections, recoveries, visits, visit, schemaVersion);
        HandedSoFar(old(actions), AllHanded(connections, visits, schemaVersion), VisitHands(connections[|visits|], visit, schemaVersion));
        used, failureStreak := visit.attempts, visit.streak + 1;
        openedAt, visits := openedAt + [visit.openedAt], visits + [visit];
        if stopped { return; }
        var stop := CheckStopped();
        if stop { return; }
      }
    }

    // One turn of the loop of `#run`: a connection, and the recovery after a protocol exit.
    method VisitOnce(connection: Connection, recoveries: seq<Attempt>, used: nat, streak: nat) returns (visit: Visit)
      requires Valid() && !stopped && Ascending(log) && used <= |recoveries|
      requires forall i | 0 <= i < |connection.arrivals| :: FromDecoder(connection.arrivals[i], schemaVersion)
      modifies this
      ensures Valid() && visit.openedAt == old(lastAppliedId)
      ensures visit.exit == Stopped || visit.exit == ExitOf(connection, visit.openedAt)
      ensures RecoveryFits(recoveries, used, visit)
      ensures OpensNext(connection, visit).Some? ==> visit.streak == if Advanced(connection, visit) then 0 else streak
      ensures !stopped ==> OpensNext(connection, visit) == Some(lastAppliedId)
      ensures stopped && true !in old(stops) ==> EndedBecause(recoveries, used, visit)
      ensures old(actions) <= actions
      ensures true !in old(stops) ==> true !in stops && actions == old(actions) + VisitHands(connection, visit, schemaVersion)
      ensures old(faithful) && AllRead(log, recoveries) && ArrivalsFollow(log, Pos(log, visit.openedAt), connection.arrivals) ==> faithful
    {
      hide Watches, OnceEach, Reduce, Rejects, FromDecoder, ArrivalsFollow, AllRead, FollowsLog, ReduceAll, ReduceActions, LastId;
      hide Ascending, Pos;
      hide ExitOf, HandedBy, ReachedBy;
      if faithful { PosOfPrefix(log, Position()); }
      ghost var start, handed := actions, HandedBy(connection, lastAppliedId, schemaVersion);
      var failureStreak := streak;
      visit := Visit(lastAppliedId, Stopped, None, used, streak);
      var exit := OpenOnce(connection);
      HandedSoFar(start, handed, []);
      visit := visit.(exit := exit);
      match exit {
        case Stopped => return;
        case ExpiredSession =>
          WatchesStopped(script, stops, looks, stopped, |actions|);
          stopped := true;
          return;
        case Protocol(advanced) => if advanced { failureStreak := 0; }
        case Transient(advanced) =>
          if advanced { failureStreak := 0; }
          visit := visit.(streak := failureStreak);
          return;
      }
      var reached := lastAppliedId;
      var recovered, attempts := RecoverAfter(recoveries, used);
      visit := visit.(attempts := attempts, recovered := recovered);
      if recovered.Some? {
        HandedSoFar(start, handed, [BootstrapReceived(recovered.value)]);
        if lastAppliedId > reached { failureStreak := 0; }
        visit := visit.(streak := failureStreak);
      }
    }

    // The recovery after a protocol exit, with the attempts that are left.
    method RecoverAfter(recoveries: seq<Attempt>, used: nat) returns (recovered: Option<Bootstrap>, attempts: nat)
      requires Valid() && !stopped && used <= |recoveries|
      modifies this
      ensures Valid() && used <= attempts <= |recoveries| && old(actions) <= actions
      ensures recovered.Some? ==>
                && !stopped && used < attempts && recoveries[attempts - 1] == Bootstraps(recovered.value)
                && AllFailed(recoveries, used, attempts - 1) && lastAppliedId == recovered.value.latestEventId
                && actions == old(actions) + [BootstrapReceived(recovered.value)]
      ensures recovered.None? ==> stopped
      ensures recovered.None? && true !in old(stops) ==>
                && actions == old(actions)
                && (|| (used < attempts && recoveries[attempts - 1] == BootstrapUnauthorized)
                    || (attempts == |recoveries| && AllFailed(recoveries, used, |recoveries|)))
      ensures true !in old(stops) ==> true !in stops
      ensures old(faithful) && AllRead(log, recoveries) ==> faithful
    {
      hide Watches, OnceEach, FollowsLog, ReduceAll, LastId, ReduceActions, AllRead, AllFailed;
      var outcome;
      outcome, attempts := Recover(recoveries, used);
      recovered := if outcome == Done then Some(recoveries[attempts - 1].bootstrap) else None;
      WatchesStopped(script, stops, looks, stopped, |actions|);
      stopped := outcome != Done;
    }
  }

  lemma NothingVisited(connections: seq<Connection>, recoveries: seq<Attempt>, log: seq<TaskEvent>, schemaVersion: nat, actions: seq<Action>)
    ensures AllFit(connections, recoveries, []) && AllHanded(connections, [], schemaVersion) == [] && AllFollow(log, [], connections)
    ensures actions + [] == actions
  {
  }

  lemma FollowMore(log: seq<TaskEvent>, openedAt: seq<nat>, cursor: nat, connections: seq<Connection>)
    requires |openedAt| < |connections|
    ensures AllFollow(log, openedAt + [cursor], connections) ==>
              AllFollow(log, openedAt, connections) && ArrivalsFollow(log, Pos(log, cursor), connections[|openedAt|].arrivals)
  {
    hide ArrivalsFollow, Pos;
    var more := openedAt + [cursor];
    if AllFollow(log, more, connections) {
      assert more[|openedAt|] == cursor;
      assert forall n | 0 <= n < |openedAt| :: more[n] == openedAt[n];
    }
  }

  lemma VisitMore(connections: seq<Connection>, recoveries: seq<Attempt>, visits: seq<Visit>, visit: Visit, schemaVersion: nat)
    requires AllFit(connections, recoveries, visits) && |visits| < |connections|
    requires visits != [] ==> OpensNext(connections[|visits| - 1], visits[|visits| - 1]) == Some(visit.openedAt)
    requires visit.exit == Stopped || visit.exit == ExitOf(connections[|visits|], visit.openedAt)
    requires RecoveryFits(recoveries, AttemptsBefore(visits, |visits|), visit)
    requires OpensNext(connections[|visits|], visit).Some? ==>
               visit.streak == if Advanced(connections[|visits|], visit) || visits == [] then 0 else visits[|visits| - 1].streak + 1
    ensures AllFit(connections, recoveries, visits + [visit])
    ensures AllHanded(connections, visits + [visit], schemaVersion)
         == AllHanded(connections, visits, schemaVersion) + VisitHands(connections[|visits|], visit, schemaVersion)
  {
    hide ExitOf, RecoveryFits, OpensNext, Advanced, VisitHands;
    var more := visits + [visit];
    assert more[..|visits|] == visits;
    forall n | 0 <= n < |more| ensures VisitFits(connections, recoveries, more, n) {
      if n < |visits| { assert VisitFits(connections, recoveries, visits, n); }
    }
  }

  lemma EventMovesCursor(state: AgentState, event: TaskEvent)
    ensures event.schemaVersion == SUPPORTED_SCHEMA_VERSION && event.id > state.appliedEventId ==>
              Reduce(state, EventReceived(event)).appliedEventId == event.id
    ensures event.schemaVersion != SUPPORTED_SCHEMA_VERSION ==>
              Reduce(state, EventReceived(event)).appliedEventId == state.appliedEventId
  {
  }

  lemma PrefixEnds(log: seq<TaskEvent>, position: nat)
    requires position < |log|
    ensures LastId(log[..position + 1]) == log[position].id
  {
  }

  // What the reducer would refuse of an arrival that is newer than its cursor.
  lemma RejectedMeans(state: AgentState, arrival: Arrival, schemaVersion: nat)
    ensures FromDecoder(arrival, schemaVersion) && schemaVersion == SUPPORTED_SCHEMA_VERSION ==>
              match arrival
              case PersistedEvent(event) => event.id > state.appliedEventId ==> !Rejects(state, EventReceived(event))
              case UnknownKind(id, kind) => id > state.appliedEventId ==> !Rejects(state, EventUnknown(id, kind, schemaVersion))
              case ServiceUpdate(service, generation) => !Rejects(state, ServiceReceived(service, generation))
              case _ => true
  {
  }

  lemma UnknownMovesCursor(state: AgentState, id: nat, kind: string, schemaVersion: nat)
    ensures schemaVersion == SUPPORTED_SCHEMA_VERSION && id > state.appliedEventId ==>
              Reduce(state, EventUnknown(id, kind, schemaVersion)).appliedEventId == id
    ensures schemaVersion != SUPPORTED_SCHEMA_VERSION ==>
              Reduce(state, EventUnknown(id, kind, schemaVersion)).appliedEventId == state.appliedEventId
  {
  }

  lemma ServiceKeepsCursor(state: AgentState, service: World.ServiceState, generation: nat)
    ensures Reduce(state, ServiceReceived(service, generation)).appliedEventId == state.appliedEventId
  {
  }

  lemma BootstrapSetsCursor(state: AgentState, bootstrap: Bootstrap)
    ensures Reduce(state, BootstrapReceived(bootstrap)).appliedEventId == bootstrap.latestEventId
    ensures !Rejects(state, BootstrapReceived(bootstrap))
  {
  }

  // An event that comes next in the log is newer than the cursor.
  lemma NextIsNewer(log: seq<TaskEvent>, position: nat)
    requires Ascending(log) && position < |log|
    ensures LastId(log[..position]) < log[position].id && LastId(log[..position + 1]) == log[position].id
  {
    if position > 0 { assert LastId(log[..position]) == log[position - 1].id; }
  }

  // ----- what the server delivers goes on from the cursor -----

  function Arrivals(events: seq<TaskEvent>): seq<Arrival> {
    if events == [] then [] else [PersistedEvent(events[0])] + Arrivals(events[1..])
  }

  lemma {:induction false} SliceGoesOn(log: seq<TaskEvent>, lo: nat, hi: nat, cursor: nat)
    requires Ascending(log) && lo <= hi <= |log| && (lo < hi ==> cursor < log[lo].id)
    ensures GoesOn(Arrivals(log[lo..hi]), cursor)
    decreases hi - lo
  {
    if lo < hi {
      assert log[lo..hi][1..] == log[lo + 1..hi];
      assert Arrivals(log[lo..hi])[1..] == Arrivals(log[lo + 1..hi]);
      SliceGoesOn(log, lo + 1, hi, log[lo].id);
    }
  }

  // The persisted frames of a connection opened at the client's cursor are the log from there
  // on, and such a stream never makes the client give up on the protocol.
  lemma DeliveryGoesOn(log: seq<TaskEvent>, after: nat, last: nat)
    requires Ascending(log) && after <= last
    ensures GoesOn(Arrivals(Between(log, after, last)), after)
  {
    PosMonotone(log, after, last);
    PosSplits(log, after);
    SliceGoesOn(log, Pos(log, after), Pos(log, last), after);
  }

  // ----- backing off -----

  function PowerOfTwo(n: nat): nat {
    if n == 0 then 1 else 2 * PowerOfTwo(n - 1)
  }

  function Capped(attempt: nat, baseDelayMs: nat, maxDelayMs: nat): nat {
    var wanted := baseDelayMs * PowerOfTwo(if attempt < 52 then attempt else 52);
    if maxDelayMs < wanted then maxDelayMs else wanted
  }

  function Factor(jitter: real): (f: real)
    ensures 0.5 <= f <= 1.0
  {
    var sample := if jitter < 0.0 then 0.0 else if jitter > 1.0 then 1.0 else jitter;
    0.5 + sample * 0.5
  }

  function Scaled(cap: real, factor: real): real {
    cap * factor
  }

  function Spread(cap: nat, factor: real): int {
    var delay := Scaled(cap as real, factor).Floor;
    if delay < 1 then 1 else delay
  }

  function ComputeBackoffDelay(attempt: nat, baseDelayMs: nat, maxDelayMs: nat, jitter: real): int {
    Spread(Capped(attempt, baseDelayMs, maxDelayMs), Factor(jitter))
  }

  lemma {:induction false} CapGrows(attempt: nat, more: nat, baseDelayMs: nat, maxDelayMs: nat)
    requires attempt <= more && 0 < baseDelayMs <= maxDelayMs
    ensures 0 < PowerOfTwo(attempt) <= PowerOfTwo(more)
    ensures 0 < Capped(attempt, baseDelayMs, maxDelayMs) <= Capped(more, baseDelayMs, maxDelayMs) <= maxDelayMs
  {
    PowersGrow(attempt, more);
    var a, b := if attempt < 52 then attempt else 52, if more < 52 then more else 52;
    PowersGrow(a, b);
    Products(baseDelayMs, PowerOfTwo(a), PowerOfTwo(b));
  }

  // The cap starts at the base and doubles with each failure, up to the maximum and up to 52 times.
  lemma CapDoubles(attempt: nat, baseDelayMs: nat, maxDelayMs: nat)
    requires 0 < baseDelayMs <= maxDelayMs
    ensures Capped(0, baseDelayMs, maxDelayMs) == baseDelayMs
    ensures Capped(attempt + 1, baseDelayMs, maxDelayMs)
         == if attempt >= 52 then Capped(attempt, baseDelayMs, maxDelayMs)
            else if 2 * Capped(attempt, baseDelayMs, maxDelayMs) < maxDelayMs then 2 * Capped(attempt, baseDelayMs, maxDelayMs)
            else maxDelayMs
  {
    if attempt < 52 {
      var power := PowerOfTwo(attempt);
      assert PowerOfTwo(attempt + 1) == 2 * power;
      Twice(baseDelayMs, power);
    }
    hide PowerOfTwo;
    Twice(baseDelayMs, 1);
  }

  lemma Twice(base: nat, power: nat)
    ensures base * (2 * power) == 2 * (base * power)
  {
  }

  // The jitter spreads the delay over the whole range: none gives half the cap, all gives the cap.
  lemma JitterSpreads(attempt: nat, baseDelayMs: nat, maxDelayMs: nat, jitter: real)
    requires 0 < baseDelayMs <= maxDelayMs
    ensures var cap := Capped(attempt, baseDelayMs, maxDelayMs);
            && (jitter <= 0.0 ==> ComputeBackoffDelay(attempt, baseDelayMs, maxDelayMs, jitter) == if cap < 2 then 1 else cap / 2)
            && (jitter >= 1.0 ==> ComputeBackoffDelay(attempt, baseDelayMs, maxDelayMs, jitter) == cap)
  {
    hide Capped;
    CapGrows(attempt, attempt, baseDelayMs, maxDelayMs);
    var cap := Capped(attempt, baseDelayMs, maxDelayMs);
    if jitter <= 0.0 { HalfFloor(cap); }
    if jitter >= 1.0 { WholeFloor(cap); }
  }

  lemma HalfFloor(cap: nat)
    ensures (cap as real * 0.5).Floor == cap / 2
  {
    var half := cap as real * 0.5;
    assert 2.0 * half == cap as real;
    assert cap == 2 * (cap / 2) + cap % 2;
    assert (cap / 2) as real <= half < (cap / 2) as real + 1.0;
  }

  lemma WholeFloor(cap: nat)
    ensures (cap as real * 1.0).Floor == cap
  {
  }

  lemma Products(base: nat, a: nat, b: nat)
    requires 0 < base && 0 < a <= b
    ensures 0 < base * a <= base * b
  {
    assert base * b == base * a + base * (b - a);
  }

  lemma {:induction false} PowersGrow(a: nat, b: nat)
    requires a <= b
    ensures 0 < PowerOfTwo(a) <= PowerOfTwo(b)
  {
    if b > 0 { PowersGrow(if a < b then a else a - 1, b - 1); }
  }

  // Whatever the jitter, the delay lies between half the cap and the cap, at least one
  // millisecond and never above the maximum; more failures never wait less.
  lemma BackoffIsBounded(attempt: nat, more: nat, baseDelayMs: nat, maxDelayMs: nat, jitter: real)
    requires attempt <= more && 0 < baseDelayMs <= maxDelayMs
    ensures var delay := ComputeBackoffDelay(attempt, baseDelayMs, maxDelayMs, jitter);
            && 1 <= delay <= Capped(attempt, baseDelayMs, maxDelayMs) <= maxDelayMs
            && Capped(attempt, baseDelayMs, maxDelayMs) <= 2 * delay + 1
            && delay <= ComputeBackoffDelay(more, baseDelayMs, maxDelayMs, jitter)
  {
    hide Capped, Spread;
    CapGrows(attempt, more, baseDelayMs, maxDelayMs);
    SpreadIsBounded(Capped(attempt, baseDelayMs, maxDelayMs), Capped(more, baseDelayMs, maxDelayMs), Factor(jitter));
  }

  lemma SpreadIsBounded(a: nat, b: nat, factor: real)
    requires 0 < a <= b && 0.5 <= factor <= 1.0
    ensures 1 <= Spread(a, factor) <= a && a <= 2 * Spread(a, factor) + 1 && Spread(a, factor) <= Spread(b, factor)
  {
    hide Scaled;
    ScaledGrows(a as real, b as real, factor);
    Floors(Scaled(a as real, factor), Scaled(b as real, factor), a);
  }

  lemma Floors(x: real, y: real, a: nat)
    requires 0.5 * a as real <= x <= a as real && x <= y
    ensures x.Floor <= y.Floor && 0 <= x.Floor <= a <= 2 * x.Floor + 1
  {
    assert x.Floor as real <= x < x.Floor as real + 1.0;
    assert y.Floor as real <= y < y.Floor as real + 1.0;
  }

  lemma ScaledGrows(a: real, b: real, factor: real)
    requires 0.0 <= a <= b && 0.5 <= factor <= 1.0
    ensures 0.5 * a <= Scaled(a, factor) <= a && Scaled(a, factor) <= Scaled(b, factor)
  {
    ProductGrows(a, b, factor);
  }

  lemma ProductGrows(a: real, b: real, factor: real)
    requires 0.0 <= a <= b && 0.5 <= factor <= 1.0
    ensures 0.5 * a <= a * factor <= a && a * factor <= b * factor
  {
    assert b * factor == a * factor + (b - a) * factor;
  }
}
