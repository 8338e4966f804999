/** The SQLite store, statement by statement, against the transactions of `StoreModel`. */
module TaskStore {
  import opened Domain
  import opened EventLog
  import opened TaskOrder
  import opened StoreModel
  import opened StoreLaws
  import opened Projection
  import opened Codec

  const PLACEHOLDER := JObj(map[])

  class Store {
    var repositories: set<RepositoryId>
    var rows: map<TaskId, Task>
    var records: seq<EventRecord>
    var counter: nat
    // The events as they were meant; `Valid` says the records are exactly their encoding.
    ghost var log: seq<TaskEvent>

    ghost function Contents(): Db
      reads this
    {
      Db(repositories, rows, log, counter)
    }

    ghost predicate Encoded()
      reads this
    {
      |records| == |log| && forall i | 0 <= i < |log| :: records[i] == ToRecord(log[i])
    }

    ghost predicate Valid()
      reads this
    {
      Inv(Contents()) && Encoded()
    }

    constructor ()
      ensures Valid() && Contents() == Db({}, map[], [], 0)
    {
      repositories, rows, records, counter, log := {}, map[], [], 0, [];
    }

    // ----- statements -----

    method LoadTask(t: TaskId) returns (r: Result<Option<Task>, DomainError>)
      requires Valid()
      ensures r == Ok(if t in rows then Some(rows[t]) else None)
    {
      if t !in rows { return Ok(None); }
      RowIsStored(log, t);
      match TryFromStored(rows[t])
      case Ok(task) => return Ok(Some(task));
      case Err(error) => return Err(error);
    }

    method InsertEvent(t: TaskId, kind: EventKind, payload: Json, now: Timestamp) returns (id: nat)
      modifies this`records, this`counter
      ensures id == counter == old(counter) + 1
      ensures records == old(records) + [EventRecord(id, 1, t, KindText(kind), payload, now)]
    {
      counter := counter + 1;
      records := records + [EventRecord(counter, 1, t, KindText(kind), payload, now)];
      id := counter;
    }

    // `append_lifecycle_event`, after the row has been inserted or updated.
    method AppendLifecycleEvent(t: TaskId, now: Timestamp, ghost before: map<TaskId, Task>) returns (task: Task, id: nat)
      requires Encoded() && t in rows && rows == before[t := rows[t]]
      modifies this
      ensures Contents() == AppendLifecycle(old(Contents()).(rows := before), t, old(rows[t]), now)
      ensures Encoded() && task == rows[t] && id == counter
    {
      id := InsertEvent(t, LifecycleKind(rows[t].status), PLACEHOLDER, now);
      rows := rows[t := rows[t].(lastEventId := id)];
      task := rows[t];
      var payload := PayloadJson(Lifecycle(task.status, task));
      var last := |records| - 1;
      if records[last].id == id && records[last].payload == PLACEHOLDER {
        records := records[last := records[last].(payload := payload)];
      }
      log := log + [TaskEvent(id, 1, t, Lifecycle(task.status, task), now)];
      assert rows == before[t := rows[t]];
    }

    // ----- transactions -----

    method FindByRequest(request: RequestId) returns (r: Option<TaskId>)
      requires Valid()
      ensures r == FindRequest(Contents(), request)
    {
      var rest := rows.Keys;
      while rest != {}
        invariant rest <= rows.Keys
        invariant forall t | t in rows && t !in rest :: !HasRequest(Contents(), request, t)
      {
        var t :| t in rest;
        if rows[t].clientRequestId == request {
          assert HasRequest(Contents(), request, t);
          return Some(t);
        }
        rest := rest - {t};
      }
      r := None;
    }

    method FindRetryChild(parent: TaskId) returns (r: Option<TaskId>)
      requires Valid()
      ensures r == FindRetry(Contents(), parent)
    {
      var rest := rows.Keys;
      while rest != {}
        invariant rest <= rows.Keys
        invariant forall t | t in rows && t !in rest :: !IsRetryOf(Contents(), parent, t)
      {
        var t :| t in rest;
        if rows[t].retryOf == Some(parent) {
          assert IsRetryOf(Contents(), parent, t);
          return Some(t);
        }
        rest := rest - {t};
      }
      r := None;
    }

    // INSERT INTO tasks, then the queued event.
    method InsertTask(row: Task, now: Timestamp) returns (task: Task, id: nat)
      requires Encoded() && row.id !in rows
      modifies this
      ensures Contents() == AppendLifecycle(old(Contents()), row.id, row, now)
      ensures Encoded() && row.id in rows && task == rows[row.id] && id == counter
    {
      ghost var before := rows;
      rows := rows[row.id := row];
      task, id := AppendLifecycleEvent(row.id, now, before);
    }

    method CreateTask(request: RequestId, repository: RepositoryId, prompt: string, newId: TaskId, now: Timestamp)
      returns (r: Result<CreateOutcome, StoreError>)
      requires Valid() && newId !in rows
      modifies this
      ensures Valid()
      ensures (Contents(), r) == Create(old(Contents()), request, repository, prompt, newId, now)
      ensures CreateAnswered(old(Contents()), request, repository, prompt, newId, now, Contents(), r)
    {
      CreateKeepsInv(Contents(), request, repository, prompt, newId, now);
      CreateIsAnswered(Contents(), request, repository, prompt, newId, now);
      hide CreateAnswered, Inv, Extends, TryNewPrompt, KindText, PayloadJson, Encoded, AppendLifecycle;
      var input := TryNewPrompt(prompt);
      if input.Err? { return Err(StoreError.Domain(input.error)); }
      var existing := FindByRequest(request);
      if existing.Some? {
        var task := rows[existing.value];
        if task.repositoryId != repository || task.prompt != input.value { return Err(IdempotencyConflict); }
        return Ok(Existing(task));
      }
      if repository !in repositories { return Err(Database); }
      var task, id := InsertTask(NewRow(newId, request, repository, input.value, 1, None, now), now);
      r := Ok(Created(task, id));
    }

    method RetryTask(source: TaskId, newId: TaskId, newRequest: RequestId, now: Timestamp)
      returns (r: Result<CreateOutcome, StoreError>)
      requires Valid() && newId !in rows && forall t :: !HasRequest(Contents(), newRequest, t)
      modifies this
      ensures Valid()
      ensures (Contents(), r) == Retry(old(Contents()), source, newId, newRequest, now)
      ensures RetryAnswered(old(Contents()), source, newId, newRequest, now, Contents(), r)
    {
      RetryKeepsInv(Contents(), source, newId, newRequest, now);
      RetryIsAnswered(Contents(), source, newId, newRequest, now);
      hide RetryAnswered, Inv, Extends, KindText, PayloadJson, Encoded, AppendLifecycle;
      if source !in rows { return Err(TaskNotFound); }
      var task := rows[source];
      if !task.status.IsRetryable() { return Err(TaskNotRetryable); }
      var existing := FindRetryChild(source);
      if existing.Some? { return Ok(Existing(rows[existing.value])); }
      if task.attempt == MAX_ATTEMPT { return Err(TaskAttemptOverflow); }
      var row, id := InsertTask(
        NewRow(newId, newRequest, task.repositoryId, task.prompt, task.attempt + 1, Some(source), now), now);
      r := Ok(Created(row, id));
    }

    method TransitionTask(t: TaskId, expected: TaskStatus, transition: TaskTransition, now: Timestamp)
      returns (r: Result<TransitionOutcome, StoreError>)
      requires Valid()
      modifies this
      ensures Valid()
      ensures (Contents(), r) == TransitionWithEvent(old(Contents()), t, expected, transition, now)
      ensures TransitionAnswered(old(Contents()), t, expected, transition, now, Contents(), r)
    {
      hide TransitionAnswered, Inv, PayloadJson, KindText;
      TransitionIsAnswered(Contents(), t, expected, transition, now);
      if !expected.CanTransitionTo(transition.Next()) { return Err(IllegalTransition(expected, transition.Next())); }
      if t !in rows || rows[t].status != expected {
        if t !in rows { return Err(TaskNotFound); }
        return Ok(Conflict(rows[t]));
      }
      TransitionKeepsInv(Contents(), t, transition, now);
      ghost var before := rows;
      if transition.ToRunning? {
        rows := rows[t := rows[t].(status := Running, startedAt := Some(now), finishedAt := None, failure := None)];
      } else {
        rows := rows[t := rows[t].(status := transition.Next(), finishedAt := Some(now), failure := transition.Failure())];
      }
      var task, id := AppendLifecycleEvent(t, now, before);
      r := Ok(Applied(task, id));
    }

    method AppendEvent(t: TaskId, payload: Payload, now: Timestamp) returns (r: Result<AppendOutcome, StoreError>)
      requires Valid()
      modifies this
      ensures Valid()
      ensures (Contents(), r) == AppendRunningEvent(old(Contents()), t, payload, now)
      ensures AppendAnswered(old(Contents()), t, payload, now, Contents(), r)
    {
      hide AppendAnswered, Inv, PayloadJson, KindText;
      AppendIsAnswered(Contents(), t, payload, now);
      if payload.Lifecycle? { return Err(InvalidRunningEvent); }
      if t !in rows { return Err(TaskNotFound); }
      if rows[t].status != Running { return Ok(NotRunning(rows[t])); }
      AppendPanelKeepsInv(Contents(), t, payload, now);
      var id := InsertEvent(t, payload.Kind(), PayloadJson(payload), now);
      rows := rows[t := rows[t].(lastEventId := id)];
      log := log + [TaskEvent(id, 1, t, payload, now)];
      r := Ok(Appended(id));
    }

    // One turn of the recovery loop.
    method InterruptTask(t: TaskId, now: Timestamp, failure: TaskFailure) returns (id: nat)
      requires Encoded() && t in rows
      modifies this
      ensures Encoded() && Contents() == Interrupt(old(Contents()), t, now, failure) && id == counter
    {
      ghost var before := rows;
      rows := rows[t := rows[t].(status := TaskStatus.Interrupted, finishedAt := Some(now), failure := Some(failure))];
      var task, eventId := AppendLifecycleEvent(t, now, before);
      id := eventId;
    }

    method HighWatermark() returns (high: nat)
      requires Encoded()
      ensures high == LastId(log)
    {
      hide PayloadJson, KindText;
      high := if records == [] then 0 else records[|records| - 1].id;
    }

    method RecoverIncompleteTasks(now: Timestamp, failure: TaskFailure) returns (r: RecoveryOutcome)
      requires Valid()
      modifies this
      ensures Valid() && Commits(old(Contents()), RecoverIncomplete(now, failure), Contents())
      ensures RecoverAnswered(old(Contents()), now, failure, Contents()) && AllRecovered(old(Contents()), failure, Contents())
      ensures Incomplete(Contents()) == {}
      ensures r.interruptedCount == |log| - |old(log)| && r.highWatermark == LastId(log)
      ensures r.firstEventId == if r.interruptedCount == 0 then None else Some(log[|old(log)|].id)
      ensures r.lastEventId == if r.interruptedCount == 0 then None else Some(LastId(log))
    {
      hide Inv, Encoded, AppendLifecycle, Commits, Incomplete, Recover, RecoverAnswered, AllRecovered;
      var ids := Select(rows, set t | t in rows && rows[t].status.IsIncomplete());
      IncompleteListed(Contents(), ids);
      ghost var start := Contents();
      var eventIds: seq<nat> := [];
      RecoverInterrupts(start, ids, now, failure);
      RecoverNothing(start, now, failure);
      assert ids[..0] == [];
      for n := 0 to |ids|
        invariant Encoded() && Contents() == Recover(start, ids[..n], now, failure)
        invariant Inv(Contents()) && |log| == |start.log| + n && |eventIds| == n
        invariant n > 0 ==> eventIds[0] == log[|start.log|].id && eventIds[n - 1] == LastId(log)
      {
        RecoverPrefix(start, ids, n, now, failure);
        InterruptAppends(Contents(), ids[n], now, failure);
        var id := InterruptTask(ids[n], now, failure);
        eventIds := eventIds + [id];
      }
      assert ids[..|ids|] == ids;
      RecoveryLeavesNone(start, ids, now, failure);
      RecoverIsAnswered(start, now, failure, Contents());
      var high := HighWatermark();
      r := RecoveryOutcome(|eventIds|, if eventIds == [] then None else Some(eventIds[0]),
                           if eventIds == [] then None else Some(eventIds[|eventIds| - 1]), high);
    }

    // ----- reads -----

    // `events_after`: one page of the log, each record decoded.
    method EventsAfter(after: nat, limit: nat) returns (r: Result<seq<TaskEvent>, ReadError>, high: nat)
      requires Valid()
      ensures high == LastId(log)
      ensures r == Ok(Page(log, after, limit))
    {
      hide ToRecord, EventFromRecord, Inv;
      LogOf(Contents());
      high := HighWatermark();
      PosSplits(log, after);
      ghost var lo := Pos(log, after);
      var events := [];
      var n := 0;
      while n < |records| && |events| < limit
        invariant n <= |records| && |events| <= limit
        invariant n <= lo ==> events == []
        invariant lo <= n ==> events == log[lo..n]
      {
        ReadsBack(Contents(), n);
        if after < records[n].id <= high {
          SliceGrows(log, lo, n);
          match EventFromRecord(records[n]) {
            case Ok(event) => events := events + [event];
            case Err(error) => assert false;
          }
        }
        n := n + 1;
      }
      PageEnds(log, after, limit, if n < lo then lo else n);
      r := Ok(events);
    }

    // `task_detail`
    method LoadDetail(t: TaskId) returns (r: Result<Option<TaskDetail>, ReadError>)
      requires Valid()
      ensures r == Ok(DetailOf(log, t))
    {
      hide PayloadJson, KindText, EventFromRecord, Inv;
      LogOf(Contents());
      var loaded := LoadTask(t);
      var task: Option<Task> := None;
      match loaded {
        case Ok(found) => task := found;
        case Err(error) => assert false;
      }
      if task.None? { return Ok(None); }
      var events := [];
      for n := 0 to |records|
        invariant events == EventsOf(log[..n], t)
      {
        assert log[..n + 1][..n] == log[..n];
        if records[n].taskId == t {
          ReadsBack(Contents(), n);
          match EventFromRecord(records[n]) {
            case Ok(event) => events := events + [event];
            case Err(error) => assert false;
          }
        }
      }
      assert log[..|records|] == log;
      var high := HighWatermark();
      var detail := ProjectTaskDetail(task.value, events, high);
      r := Ok(Some(detail));
    }
  }

  lemma PageEnds(log: seq<TaskEvent>, after: int, limit: nat, n: nat)
    requires Pos(log, after) <= n <= |log| && n - Pos(log, after) <= limit
    requires n == |log| || n - Pos(log, after) == limit
    ensures Page(log, after, limit) == log[Pos(log, after)..n]
  {
  }

  lemma RecoverNothing(db: Db, now: Timestamp, failure: TaskFailure)
    ensures Recover(db, [], now, failure) == db
  {
  }

  lemma IncompleteListed(db: Db, ids: seq<TaskId>)
    requires Lists(db.rows, (set t | t in db.rows && db.rows[t].status.IsIncomplete()), ids)
    ensures Lists(db.rows, Incomplete(db), ids) && forall t | t in ids :: t in db.rows && db.rows[t].status.IsIncomplete()
  {
  }

  lemma RecoveryLeavesNone(db: Db, ids: seq<TaskId>, now: Timestamp, failure: TaskFailure)
    requires Inv(db) && Lists(db.rows, Incomplete(db), ids)
    ensures Commits(db, RecoverIncomplete(now, failure), Recover(db, ids, now, failure))
    ensures Incomplete(Recover(db, ids, now, failure)) == {}
  {
    hide Inv;
    RecoverInterrupts(db, ids, now, failure);
  }

  lemma InterruptAppends(db: Db, t: TaskId, now: Timestamp, failure: TaskFailure)
    requires t in db.rows
    ensures var r := Interrupt(db, t, now, failure);
            db.log <= r.log && |r.log| == |db.log| + 1 && LastId(r.log) == r.counter
  {
  }

  lemma LogOf(db: Db)
    requires Inv(db)
    ensures Ascending(db.log)
    ensures forall t :: Row(db.log, t) == if t in db.rows then Some(db.rows[t]) else None
  {
  }

  // Every record of a reachable store reads back as the event that was written.
  lemma ReadsBack(db: Db, n: nat)
    requires Inv(db) && n < |db.log|
    ensures EventFromRecord(ToRecord(db.log[n])) == Ok(db.log[n])
    ensures ToRecord(db.log[n]).id == db.log[n].id
  {
    hide EventFromRecord;
    RecordRoundTrips(db.log[n], Row(db.log[..n], db.log[n].taskId));
  }

  lemma RecoverPrefix(db: Db, ids: seq<TaskId>, n: nat, now: Timestamp, failure: TaskFailure)
    requires Inv(db) && SortedIds(db.rows, ids) && n < |ids|
    requires forall t | t in ids :: db.rows[t].status.IsIncomplete()
    ensures Inv(Recover(db, ids[..n + 1], now, failure))
    ensures ids[n] in Recover(db, ids[..n], now, failure).rows
    ensures Recover(db, ids[..n + 1], now, failure) == Interrupt(Recover(db, ids[..n], now, failure), ids[n], now, failure)
  {
    hide Inv;
    assert ids[..n + 1][..n] == ids[..n];
    RecoverInterrupts(db, ids[..n + 1], now, failure);
  }
}
