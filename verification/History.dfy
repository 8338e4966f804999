/** What a well-formed log says about the life of one task. */
module History {
  import opened Domain
  import opened EventLog
  import opened StoreModel

  // ----- the word of a task's events -----

  function Word(log: seq<TaskEvent>, t: TaskId): seq<EventKind> {
    if log == [] then []
    else
      var before := Word(log[..|log| - 1], t);
      var last := log[|log| - 1];
      if last.taskId == t then before + [last.payload.Kind()] else before
  }

  predicate IsPanel(kind: EventKind) {
    kind in {PlanUpdated, ActivityAppended, DiffUpdated, TestUpdated}
  }

  predicate IsFinal(kind: EventKind) {
    kind in {TaskCompleted, TaskFailed, TaskCancelled, TaskInterrupted}
  }

  // queued; then either straight to cancelled/interrupted, or started, panel events, and at
  // most one final event.
  predicate LegalWord(word: seq<EventKind>) {
    && word != [] && word[0] == TaskQueued
    && (|word| > 1 ==>
          || (|word| == 2 && word[1] in {TaskCancelled, TaskInterrupted})
          || (&& word[1] == TaskStarted
              && (forall i | 2 <= i < |word| - 1 :: IsPanel(word[i]))
              && (|word| > 2 ==> IsPanel(word[|word| - 1]) || IsFinal(word[|word| - 1]))))
  }

  function StatusAfter(word: seq<EventKind>): TaskStatus
    requires word != []
  {
    match word[|word| - 1]
    case TaskQueued => Queued
    case TaskCompleted => Completed
    case TaskFailed => Failed
    case TaskCancelled => Cancelled
    case TaskInterrupted => Interrupted
    case _ => Running
  }

  lemma {:induction false} EveryWordIsLegal(log: seq<TaskEvent>, t: TaskId)
    requires WellFormed(log)
    ensures Row(log, t).None? <==> Word(log, t) == []
    ensures Row(log, t).Some? ==> LegalWord(Word(log, t)) && StatusAfter(Word(log, t)) == Row(log, t).value.status
  {
    if log != [] {
      var front, last := log[..|log| - 1], log[|log| - 1];
      WellFormedPrefix(log, |log| - 1);
      hide LegalWord, StatusAfter, LegalNext, ApplyToRow;
      EveryWordIsLegal(front, t);
      if last.taskId == t {
        assert LegalNext(Row(front, t), last);
        WordGrows(Word(front, t), Row(front, t), last);
      }
    }
  }

  lemma WordGrows(word: seq<EventKind>, row: Option<Task>, event: TaskEvent)
    requires row.None? <==> word == []
    requires row.Some? ==> LegalWord(word) && StatusAfter(word) == row.value.status
    requires LegalNext(row, event)
    ensures LegalWord(word + [event.payload.Kind()])
    ensures ApplyToRow(row, event).Some?
    ensures StatusAfter(word + [event.payload.Kind()]) == ApplyToRow(row, event).value.status
  {
  }

  // ----- versions of a row -----

  // The row of `t` as its event number `id` left it.
  function Version(log: seq<TaskEvent>, t: TaskId, id: int): Option<Task> {
    Row(log[..Pos(log, id)], t)
  }

  // A row of any prefix is the version its own `last_event_id` names, and no later event of
  // the prefix belongs to the task.
  lemma {:induction false} RowIsItsVersion(log: seq<TaskEvent>, n: nat, t: TaskId)
    requires WellFormed(log) && n <= |log| && Row(log[..n], t).Some?
    ensures Version(log, t, Row(log[..n], t).value.lastEventId) == Row(log[..n], t)
    ensures Pos(log, Row(log[..n], t).value.lastEventId) <= n
    ensures forall i | Pos(log, Row(log[..n], t).value.lastEventId) <= i < n :: log[i].taskId != t
  {
    hide Pos, Ascending, Row, LegalNext;
    LastEventMakesRow(log, n, t);
    if log[n - 1].taskId == t {
      EventPos(log, n - 1);
    } else {
      RowIsItsVersion(log, n - 1, t);
    }
  }

  lemma LastEventMakesRow(log: seq<TaskEvent>, n: nat, t: TaskId)
    requires WellFormed(log) && n <= |log| && Row(log[..n], t).Some?
    ensures n > 0
    ensures if log[n - 1].taskId == t then Row(log[..n], t).value.lastEventId == log[n - 1].id
            else Row(log[..n], t) == Row(log[..n - 1], t)
  {
    hide Ascending;
    assert log[..n][..n - 1] == log[..n - 1];
    if log[n - 1].taskId == t { assert LegalNext(Row(log[..n - 1], t), log[n - 1]); }
  }

  lemma {:induction false} RowsOnlyMoveForward(log: seq<TaskEvent>, m: nat, n: nat, t: TaskId)
    requires WellFormed(log) && m <= n <= |log| && Row(log[..m], t).Some?
    ensures Row(log[..n], t).Some?
    ensures Row(log[..m], t).value.lastEventId <= Row(log[..n], t).value.lastEventId
    ensures SameIdentity(Row(log[..m], t).value, Row(log[..n], t).value)
    ensures Row(log[..m], t).value.IsTerminal() ==> Row(log[..n], t) == Row(log[..m], t)
    decreases n
  {
    hide WellFormed;
    if m < n {
      RowsOnlyMoveForward(log, m, n - 1, t);
      RowStep(log, n - 1, t);
    }
  }

  lemma RowStep(log: seq<TaskEvent>, n: nat, t: TaskId)
    requires WellFormed(log) && n < |log| && Row(log[..n], t).Some?
    ensures Row(log[..n + 1], t).Some?
    ensures Row(log[..n], t).value.lastEventId <= Row(log[..n + 1], t).value.lastEventId
    ensures SameIdentity(Row(log[..n], t).value, Row(log[..n + 1], t).value)
    ensures Row(log[..n], t).value.IsTerminal() ==> Row(log[..n + 1], t) == Row(log[..n], t)
  {
    hide Ascending;
    assert log[..n + 1][..n] == log[..n];
    assert LegalNext(Row(log[..n], log[n].taskId), log[n]);
    WellFormedPrefix(log, n);
    RowIsStored(log[..n], t);
    NewestId(log, n);
  }

  // Two versions with the same `last_event_id` are the same row; the greater id is the later row.
  lemma VersionsAreOrdered(log: seq<TaskEvent>, m: nat, n: nat, t: TaskId)
    requires WellFormed(log) && m <= |log| && n <= |log|
    requires Row(log[..m], t).Some? && Row(log[..n], t).Some?
    ensures Row(log[..m], t).value.lastEventId == Row(log[..n], t).value.lastEventId ==> Row(log[..m], t) == Row(log[..n], t)
    ensures Row(log[..m], t).value.lastEventId < Row(log[..n], t).value.lastEventId ==> m < n && !Row(log[..m], t).value.IsTerminal()
  {
    RowIsItsVersion(log, m, t);
    RowIsItsVersion(log, n, t);
    if n <= m { RowsOnlyMoveForward(log, n, m, t); } else { RowsOnlyMoveForward(log, m, n, t); }
  }

  // ----- the retry forest -----

  // `path` starts at a first attempt and every later task retries the one before it.
  ghost predicate IsLineage(rows: map<TaskId, Task>, path: seq<TaskId>) {
    && path != []
    && (forall i | 0 <= i < |path| :: path[i] in rows && rows[path[i]].attempt == i + 1)
    && rows[path[0]].retryOf.None?
    && forall i | 0 < i < |path| :: rows[path[i]].retryOf == Some(path[i - 1])
  }

  // Walking up `retry_of` from any row reaches attempt 1 after attempt - 1 steps.
  lemma {:induction false} AncestryEnds(rows: map<TaskId, Task>, t: TaskId) returns (path: seq<TaskId>)
    requires Forest(rows) && t in rows
    ensures IsLineage(rows, path) && path[|path| - 1] == t && |path| == rows[t].attempt
    decreases rows[t].attempt
  {
    match rows[t].retryOf
    case None => path := [t];
    case Some(p) =>
      var above := AncestryEnds(rows, p);
      path := above + [t];
      hide Forest;
      LineageGrows(rows, above, t);
  }

  lemma LineageGrows(rows: map<TaskId, Task>, path: seq<TaskId>, t: TaskId)
    requires IsLineage(rows, path) && t in rows
    requires rows[t].retryOf == Some(path[|path| - 1]) && rows[t].attempt == |path| + 1
    ensures IsLineage(rows, path + [t])
  {
  }
}
