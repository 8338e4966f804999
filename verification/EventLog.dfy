/** The append-only event log, its cursors, and the task row a log prefix determines. */
module EventLog {
  import opened Domain

  ghost predicate Ascending(log: seq<TaskEvent>) {
    && (forall i | 0 <= i < |log| :: log[i].id > 0)
    && (forall i, j | 0 <= i < j < |log| :: log[i].id < log[j].id)
  }

  function LastId(log: seq<TaskEvent>): nat {
    if log == [] then 0 else log[|log| - 1].id
  }

  // How many events of an ascending log a reader at `cursor` has seen.
  function Pos(log: seq<TaskEvent>, cursor: int): (p: nat)
    ensures p <= |log|
  {
    if log == [] || log[|log| - 1].id <= cursor then |log| else Pos(log[..|log| - 1], cursor)
  }

  lemma {:induction false} PosSplits(log: seq<TaskEvent>, cursor: int)
    requires Ascending(log)
    ensures forall i | 0 <= i < |log| :: i < Pos(log, cursor) <==> log[i].id <= cursor
  {
    if log != [] && log[|log| - 1].id > cursor {
      var front := log[..|log| - 1];
      PosSplits(front, cursor);
      forall i | 0 <= i < |log| ensures i < Pos(log, cursor) <==> log[i].id <= cursor {
        if i < |front| { assert front[i] == log[i]; }
      }
    }
  }

  lemma PosUnique(log: seq<TaskEvent>, cursor: int, p: nat)
    requires Ascending(log) && p <= |log|
    requires p > 0 ==> log[p - 1].id <= cursor
    requires p < |log| ==> cursor < log[p].id
    ensures Pos(log, cursor) == p
  {
    PosSplits(log, cursor);
  }

  lemma EventPos(log: seq<TaskEvent>, k: nat)
    requires Ascending(log) && k < |log|
    ensures Pos(log, log[k].id) == k + 1
  {
    PosUnique(log, log[k].id, k + 1);
  }

  lemma PosMonotone(log: seq<TaskEvent>, a: int, b: int)
    requires Ascending(log) && a <= b
    ensures Pos(log, a) <= Pos(log, b)
  {
    PosSplits(log, a);
    PosSplits(log, b);
    assert Pos(log, a) == 0 || log[Pos(log, a) - 1].id <= b;
  }

  lemma PosOfPrefix(log: seq<TaskEvent>, k: nat)
    requires Ascending(log) && k <= |log|
    ensures Pos(log, LastId(log[..k])) == k
  {
    PosUnique(log, LastId(log[..k]), k);
  }

  // The events a reader at `after` still has to see to reach `through`.
  function Between(log: seq<TaskEvent>, after: int, through: int): seq<TaskEvent> {
    var lo, hi := Pos(log, after), Pos(log, through);
    if lo <= hi then log[lo..hi] else []
  }

  // The first `limit` events after `after`, in order.
  function Page(log: seq<TaskEvent>, after: int, limit: nat): seq<TaskEvent> {
    var lo := Pos(log, after);
    if limit < |log| - lo then log[lo..lo + limit] else log[lo..]
  }

  lemma PosOfSlice(log: seq<TaskEvent>, lo: nat, hi: nat, cursor: int)
    requires Ascending(log) && lo <= hi <= |log|
    ensures Pos(log[lo..hi], cursor) == (if Pos(log, cursor) < lo then 0 else if Pos(log, cursor) > hi then hi - lo else Pos(log, cursor) - lo)
  {
    PosSplits(log, cursor);
    PosUnique(log[lo..hi], cursor, if Pos(log, cursor) < lo then 0 else if Pos(log, cursor) > hi then hi - lo else Pos(log, cursor) - lo);
  }

  // A page read when `c` events were committed is a slice of the whole log.
  lemma PageOfPrefix(log: seq<TaskEvent>, c: nat, cursor: int, limit: nat)
    requires Ascending(log) && c <= |log| && Pos(log, cursor) <= c
    ensures var p := Pos(log, cursor);
            Page(log[..c], cursor, limit) == log[p..if limit < c - p then p + limit else c]
  {
    assert log[0..c] == log[..c];
    PosOfSlice(log, 0, c, cursor);
  }

  // A page that goes on at position `p` and stays below `h`.
  ghost predicate IsNext(log: seq<TaskEvent>, p: nat, h: nat, page: seq<TaskEvent>) {
    p + |page| <= h <= |log| && forall i | 0 <= i < |page| :: page[i] == log[p + i]
  }

  lemma LastIdGrows(log: seq<TaskEvent>, a: nat, b: nat)
    requires Ascending(log) && a <= b <= |log|
    ensures LastId(log[..a]) <= LastId(log[..b])
  {
    if a > 0 { assert LastId(log[..a]) == log[a - 1].id && LastId(log[..b]) == log[b - 1].id; }
  }

  lemma SliceAscending(log: seq<TaskEvent>, lo: nat, n: nat)
    requires Ascending(log) && lo <= n <= |log|
    ensures Ascending(log[lo..n])
  {
  }

  lemma SliceGrows<T>(s: seq<T>, lo: nat, n: nat)
    requires lo <= n < |s|
    ensures s[lo..n] + [s[n]] == s[lo..n + 1]
  {
  }

  // ----- the row of a task -----

  function ApplyToRow(row: Option<Task>, event: TaskEvent): Option<Task> {
    match event.payload
    case Lifecycle(_, task) => Some(task)
    case _ => if row.Some? then Some(row.value.(lastEventId := event.id)) else None
  }

  function Row(log: seq<TaskEvent>, t: TaskId): Option<Task> {
    if log == [] then None
    else
      var before := Row(log[..|log| - 1], t);
      var last := log[|log| - 1];
      if last.taskId == t then ApplyToRow(before, last) else before
  }

  // A transition may change the progress columns of a row and nothing else.
  predicate SameIdentity(a: Task, b: Task) {
    b == a.(status := b.status, startedAt := b.startedAt, finishedAt := b.finishedAt, lastEventId := b.lastEventId,
            failure := b.failure)
  }

  // Whether `event` may follow a log in which its task has the row `row`.
  predicate LegalNext(row: Option<Task>, event: TaskEvent) {
    && event.schemaVersion == 1
    && match event.payload
       case Lifecycle(next, task) =>
         && task.id == event.taskId && task.lastEventId == event.id && task.status == next
         && task.attempt > 0 && task.StateIsValid()
         && (if next == Queued then row.None?
             else row.Some? && row.value.status.CanTransitionTo(next) && SameIdentity(row.value, task)
                  && (next != Running ==> task.startedAt == row.value.startedAt))
       case _ => row.Some? && row.value.status == Running
  }

  ghost predicate WellFormed(log: seq<TaskEvent>) {
    && Ascending(log)
    && forall i | 0 <= i < |log| :: LegalNext(Row(log[..i], log[i].taskId), log[i])
  }

  lemma NewestId(log: seq<TaskEvent>, n: nat)
    requires WellFormed(log) && n < |log|
    ensures LastId(log[..n]) < log[n].id
  {
    assert n > 0 ==> LastId(log[..n]) == log[n - 1].id < log[n].id;
  }

  lemma WellFormedPrefix(log: seq<TaskEvent>, n: nat)
    requires WellFormed(log) && n <= |log|
    ensures WellFormed(log[..n])
  {
    forall i | 0 <= i < n ensures LegalNext(Row(log[..n][..i], log[..n][i].taskId), log[..n][i]) {
      assert log[..n][..i] == log[..i];
    }
  }

  lemma WellFormedAppend(log: seq<TaskEvent>, event: TaskEvent)
    requires WellFormed(log) && LastId(log) < event.id && LegalNext(Row(log, event.taskId), event)
    ensures WellFormed(log + [event])
    ensures forall t :: Row(log + [event], t)
                     == if t == event.taskId then ApplyToRow(Row(log, t), event) else Row(log, t)
  {
    hide Row, LegalNext, Ascending;
    var more := log + [event];
    AscendingAppend(log, event);
    forall i | 0 <= i < |more| ensures LegalNext(Row(more[..i], more[i].taskId), more[i]) {
      if i < |log| { assert more[..i] == log[..i]; } else { assert more[..i] == log; }
    }
    forall t { RowAppend(log, event, t); }
  }

  lemma AscendingAppend(log: seq<TaskEvent>, event: TaskEvent)
    requires Ascending(log) && LastId(log) < event.id
    ensures Ascending(log + [event])
  {
  }

  lemma RowAppend(log: seq<TaskEvent>, event: TaskEvent, t: TaskId)
    ensures Row(log + [event], t) == if t == event.taskId then ApplyToRow(Row(log, t), event) else Row(log, t)
  {
    var more := log + [event];
    assert more[..|more| - 1] == log;
  }

  // A row read from a well-formed log always passes `Task::try_from_stored` and names the
  // last event of its task.
  lemma {:induction false} RowIsStored(log: seq<TaskEvent>, t: TaskId)
    requires WellFormed(log) && Row(log, t).Some?
    ensures Row(log, t).value.id == t && Row(log, t).value.lastEventId <= LastId(log)
    ensures TryFromStored(Row(log, t).value) == Ok(Row(log, t).value)
  {
    var front, last := log[..|log| - 1], log[|log| - 1];
    WellFormedPrefix(log, |log| - 1);
    assert LegalNext(Row(front, last.taskId), last);
    if Row(front, t).Some? { RowIsStored(front, t); }
  }

  // ----- sorting by id -----

  // A stable sort by id, one event at a time.
  function InsertById(sorted: seq<TaskEvent>, event: TaskEvent): seq<TaskEvent> {
    if sorted != [] && sorted[|sorted| - 1].id > event.id
    then InsertById(sorted[..|sorted| - 1], event) + [sorted[|sorted| - 1]]
    else sorted + [event]
  }

  function SortById(events: seq<TaskEvent>): seq<TaskEvent> {
    if events == [] then [] else InsertById(SortById(events[..|events| - 1]), events[|events| - 1])
  }

  ghost predicate InOrder(events: seq<TaskEvent>) {
    forall i, j | 0 <= i < j < |events| :: events[i].id <= events[j].id
  }

  // Sorting keeps what it is given and puts it in order.
  lemma {:induction false} SortByIdSorts(events: seq<TaskEvent>)
    ensures multiset(SortById(events)) == multiset(events) && InOrder(SortById(events))
  {
    hide InOrder, InsertById;
    if events == [] {
      NothingInOrder();
    } else {
      var front, last := events[..|events| - 1], events[|events| - 1];
      assert events == front + [last];
      SortByIdSorts(front);
      InsertKeepsSorted(SortById(front), last);
    }
  }

  lemma NothingInOrder()
    ensures InOrder([])
  {
  }

  lemma AppendInOrder(events: seq<TaskEvent>, event: TaskEvent)
    requires InOrder(events) && forall i | 0 <= i < |events| :: events[i].id <= event.id
    ensures InOrder(events + [event])
  {
  }

  lemma FrontInOrder(events: seq<TaskEvent>)
    requires InOrder(events) && events != []
    ensures InOrder(events[..|events| - 1])
    ensures forall i | 0 <= i < |events| :: events[i].id <= events[|events| - 1].id
  {
  }

  lemma {:induction false} InsertKeepsSorted(sorted: seq<TaskEvent>, event: TaskEvent)
    requires InOrder(sorted)
    ensures multiset(InsertById(sorted, event)) == multiset(sorted) + multiset{event} && InOrder(InsertById(sorted, event))
  {
    hide InOrder;
    if sorted != [] { FrontInOrder(sorted); }
    if sorted != [] && sorted[|sorted| - 1].id > event.id {
      var front, last := sorted[..|sorted| - 1], sorted[|sorted| - 1];
      InsertKeepsSorted(front, event);
      var more := InsertById(front, event);
      BoundedBy(more, front, event, last.id);
      JoinsMultiset(more, front, event, last);
      AppendInOrder(more, last);
      assert sorted == front + [last];
    } else {
      AppendInOrder(sorted, event);
      AppendsMultiset(sorted, event);
    }
  }

  lemma AppendsMultiset(sorted: seq<TaskEvent>, event: TaskEvent)
    ensures multiset(sorted + [event]) == multiset(sorted) + multiset{event}
  {
  }

  lemma BoundedBy(more: seq<TaskEvent>, front: seq<TaskEvent>, event: TaskEvent, bound: nat)
    requires multiset(more) == multiset(front) + multiset{event} && event.id <= bound
    requires forall i | 0 <= i < |front| :: front[i].id <= bound
    ensures forall i | 0 <= i < |more| :: more[i].id <= bound
  {
    forall i | 0 <= i < |more| ensures more[i].id <= bound {
      assert more[i] in multiset(more);
      if more[i] != event { assert more[i] in multiset(front) && more[i] in front; }
    }
  }

  lemma JoinsMultiset(more: seq<TaskEvent>, front: seq<TaskEvent>, event: TaskEvent, last: TaskEvent)
    requires multiset(more) == multiset(front) + multiset{event}
    ensures multiset(more + [last]) == multiset(front + [last]) + multiset{event}
  {
  }

  lemma InsertLast(sorted: seq<TaskEvent>, event: TaskEvent)
    requires sorted == [] || sorted[|sorted| - 1].id <= event.id
    ensures InsertById(sorted, event) == sorted + [event]
  {
  }

  lemma {:induction false} SortedAlready(events: seq<TaskEvent>)
    requires Ascending(events)
    ensures SortById(events) == events
  {
    hide InsertById;
    if events != [] {
      var front, last := events[..|events| - 1], events[|events| - 1];
      assert events == front + [last];
      SortedAlready(front);
      InsertLast(front, last);
    }
  }
}
