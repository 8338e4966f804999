/** The client's incremental detail against the server's projection of a log prefix. */
module ClientView {
  import opened Domain
  import opened EventLog
  import opened Projection
  import opened Client

  function Max(a: int, b: int): int {
    if a < b then b else a
  }

  // `d` shows exactly what the server would answer after the first `k` events.
  ghost predicate Shows(log: seq<TaskEvent>, k: nat, t: TaskId, d: TaskDetail) {
    k <= |log| && DetailOf(log[..k], t).Some? && d.(eventCursor := 0) == DetailOf(log[..k], t).value.(eventCursor := 0)
  }

  lemma {:induction false} ProjectionIgnoresTask(a: Task, b: Task, events: seq<TaskEvent>, m: nat, n: nat)
    ensures Project(a, events, m).(task := b, eventCursor := n) == Project(b, events, n)
  {
    if events != [] { ProjectionIgnoresTask(a, b, events[..|events| - 1], m, n); }
  }

  lemma ShowsTask(log: seq<TaskEvent>, k: nat, t: TaskId, d: TaskDetail)
    requires WellFormed(log) && Shows(log, k, t, d)
    ensures Row(log[..k], t) == Some(d.task) && d.task.id == t && d.task.lastEventId <= LastId(log[..k])
  {
    WellFormedPrefix(log, k);
    RowIsStored(log[..k], t);
    ProjectionCarries(Row(log[..k], t).value, EventsOf(log[..k], t), LastId(log[..k]));
    assert d.task == d.(eventCursor := 0).task;
  }

  // What one more event of the task does to the server's answer.
  lemma DetailGrows(log: seq<TaskEvent>, k: nat, t: TaskId)
    requires k < |log| && log[k].taskId == t && Row(log[..k], t).Some?
    requires ApplyToRow(Row(log[..k], t), log[k]).Some?
    ensures DetailOf(log[..k + 1], t).Some?
    ensures var row := ApplyToRow(Row(log[..k], t), log[k]).value;
            DetailOf(log[..k + 1], t).value.(eventCursor := 0)
            == ProjectEvent(DetailOf(log[..k], t).value, log[k]).(task := row, eventCursor := 0)
  {
    var row := ApplyToRow(Row(log[..k], t), log[k]).value;
    assert log[..k + 1][..k] == log[..k];
    assert EventsOf(log[..k + 1], t) == EventsOf(log[..k], t) + [log[k]];
    var events := EventsOf(log[..k], t);
    assert (events + [log[k]])[..|events|] == events;
    ProjectionIgnoresTask(Row(log[..k], t).value, row, events, LastId(log[..k]), LastId(log[..k + 1]));
  }

  lemma ShowsSkip(log: seq<TaskEvent>, k: nat, t: TaskId, d: TaskDetail)
    requires Shows(log, k, t, d) && k < |log| && log[k].taskId != t
    ensures Shows(log, k + 1, t, d)
  {
    assert log[..k + 1][..k] == log[..k];
    var row := Row(log[..k], t).value;
    ProjectionCarries(row, EventsOf(log[..k], t), LastId(log[..k]));
    ProjectionIgnoresTask(row, row, EventsOf(log[..k], t), LastId(log[..k]), LastId(log[..k + 1]));
  }

  lemma OwnEventsComeBefore(log: seq<TaskEvent>, k: nat, t: TaskId)
    requires WellFormed(log) && k < |log|
    ensures forall i | 0 <= i < |EventsOf(log[..k], t)| :: EventsOf(log[..k], t)[i].id < log[k].id
  {
    var events := EventsOf(log[..k], t);
    WellFormedPrefix(log, k);
    WellFormedAscends(log);
    PrefixEnd(log, k, k + 1);
    EventsOfAreOwn(log[..k], t);
    hide WellFormed, Ascending, EventsOf, LastId;
    forall i | 0 <= i < |events| ensures events[i].id < log[k].id { assert events[i] in events; }
  }

  // The timeline cannot already hold an event that comes later than all it was made of.
  lemma NotYetOnTimeline(log: seq<TaskEvent>, k: nat, t: TaskId, d: TaskDetail)
    requires WellFormed(log) && k < |log| && Shows(log, k, t, d)
    ensures !OnTimeline(d.timeline, log[k].id)
  {
    hide WellFormed, EventsOf;
    OwnEventsComeBefore(log, k, t);
    TimelineBounded(Row(log[..k], t).value, EventsOf(log[..k], t), LastId(log[..k]), log[k].id);
    var shown := Project(Row(log[..k], t).value, EventsOf(log[..k], t), LastId(log[..k]));
    assert d.(eventCursor := 0) == shown.(eventCursor := 0);
    assert d.timeline == shown.timeline;
    assert forall i | 0 <= i < |d.timeline| :: d.timeline[i] in d.timeline;
  }

  // The client's timeline entry is the server's: only failed and interrupted rows carry a failure.
  lemma TimelineEntriesAgree(event: TaskEvent, row: Option<Task>)
    requires event.payload.Lifecycle? && LegalNext(row, event)
    ensures ClientTimelineEntry(event, event.payload.task) == ToTimelineEntry(event, event.payload.task.failure)
  {
  }

  // Applying an event to a detail that shows everything before it shows it too.
  lemma ShowsApply(log: seq<TaskEvent>, k: nat, t: TaskId, d: TaskDetail)
    requires WellFormed(log) && Shows(log, k, t, d) && k < |log|
    requires log[k].taskId == t && d.eventCursor < log[k].id
    ensures Shows(log, k + 1, t, ApplyEvent(d, log[k])) && ApplyEvent(d, log[k]).eventCursor == log[k].id
  {
    hide Ascending, Row;
    var event := log[k];
    ShowsTask(log, k, t, d);
    NotYetOnTimeline(log, k, t, d);
    assert LegalNext(Row(log[..k], t), event);
    NewestId(log, k);
    DetailGrows(log, k, t);
    if event.payload.Lifecycle? { TimelineEntriesAgree(event, Row(log[..k], t)); }
    hide WellFormed, LegalNext, DetailOf, OnTimeline, HasEntry, ToTimelineEntry, ClientTimelineEntry;
    assert d.(eventCursor := 0) == DetailOf(log[..k], t).value.(eventCursor := 0);
  }

  // ----- the buffer -----

  lemma EventsOfSlice(log: seq<TaskEvent>, base: nat, n: nat, t: TaskId)
    requires base < n <= |log|
    ensures EventsOf(log[base..n], t) == EventsOf(log[base..n - 1], t) + if log[n - 1].taskId == t then [log[n - 1]] else []
  {
    assert log[base..n][..n - 1 - base] == log[base..n - 1];
  }

  lemma AfterLast(events: seq<TaskEvent>, event: TaskEvent, cursor: nat)
    ensures After(events + [event], cursor) == After(events, cursor) + if event.id > cursor then [event] else []
  {
    assert (events + [event])[..|events|] == events;
  }

  lemma ApplyLast(d: TaskDetail, events: seq<TaskEvent>, event: TaskEvent)
    ensures ApplyAll(d, events + [event]) == ApplyEvent(ApplyAll(d, events), event)
  {
    assert (events + [event])[..|events|] == events;
  }

  lemma WellFormedAscends(log: seq<TaskEvent>)
    requires WellFormed(log)
    ensures Ascending(log)
  {
  }

  lemma PrefixEnd(log: seq<TaskEvent>, p: nat, n: nat)
    requires Ascending(log) && p <= |log| && 0 < n <= |log|
    ensures log[n - 1].id > LastId(log[..p]) <==> p < n
    ensures LastId(log[..n]) == log[n - 1].id
  {
    assert p > 0 ==> LastId(log[..p]) == log[p - 1].id;
  }

  // Dropping what a snapshot of the first `p` events covers leaves the task's events after `p`.
  lemma {:induction false} BufferAfterSnapshot(log: seq<TaskEvent>, base: nat, p: nat, n: nat, t: TaskId)
    requires Ascending(log) && base <= p <= |log| && base <= n <= |log|
    ensures After(EventsOf(log[base..n], t), LastId(log[..p])) == if p <= n then EventsOf(log[p..n], t) else []
  {
    hide Ascending, LastId, EventsOf, After;
    if n == base {
      NothingBetween(log, base, t, LastId(log[..p]));
      if p == n { assert log[p..n] == log[base..n]; }
    } else {
      BufferAfterSnapshot(log, base, p, n - 1, t);
      PrefixEnd(log, p, n);
      EventsOfSlice(log, base, n, t);
      if p < n { EventsOfSlice(log, p, n, t); } else { NothingBetween(log, p, t, 0); }
      AfterLast(EventsOf(log[base..n - 1], t), log[n - 1], LastId(log[..p]));
      assert EventsOf(log[base..n - 1], t) + [] == EventsOf(log[base..n - 1], t);
    }
  }

  lemma NothingBetween(log: seq<TaskEvent>, n: nat, t: TaskId, cursor: nat)
    requires n <= |log|
    ensures EventsOf(log[n..n], t) == [] && After(EventsOf(log[n..n], t), cursor) == []
    ensures forall d: TaskDetail :: ApplyAll(d, []) == d
  {
  }

  // Replaying the task's events after `p` on a snapshot of the first `p`.
  lemma {:induction false} ShowsReplay(log: seq<TaskEvent>, p: nat, n: nat, t: TaskId, d: TaskDetail)
    requires WellFormed(log) && p <= n <= |log| && Shows(log, p, t, d) && d.eventCursor == LastId(log[..p])
    ensures Shows(log, n, t, ApplyAll(d, EventsOf(log[p..n], t)))
    ensures LastId(log[..p]) <= ApplyAll(d, EventsOf(log[p..n], t)).eventCursor <= LastId(log[..n])
    decreases n
  {
    hide WellFormed, LastId, EventsOf, Shows, ApplyEvent, ApplyAll;
    if n == p {
      NothingBetween(log, p, t, 0);
    } else {
      WellFormedAscends(log);
      PrefixEnd(log, n - 1, n);
      PrefixEnd(log, p, n);
      ShowsReplay(log, p, n - 1, t, d);
      EventsOfSlice(log, p, n, t);
      var before := EventsOf(log[p..n - 1], t);
      if log[n - 1].taskId == t {
        ApplyLast(d, before, log[n - 1]);
        ShowsApply(log, n - 1, t, ApplyAll(d, before));
      } else {
        assert before + [] == before;
        ShowsSkip(log, n - 1, t, ApplyAll(d, before));
      }
    }
  }

  // Installing a snapshot taken after the selection brings the detail to whichever is later:
  // the snapshot or the events already applied.
  lemma InstalledShows(log: seq<TaskEvent>, base: nat, p: nat, n: nat, state: AgentState, t: TaskId)
    requires WellFormed(log) && base <= p <= |log| && base <= n <= |log| && DetailOf(log[..p], t).Some?
    requires Buffered(state, t) == EventsOf(log[base..n], t)
    ensures var d := Installed(state, t, DetailOf(log[..p], t).value);
            && Shows(log, Max(p, n), t, d)
            && LastId(log[..p]) <= d.eventCursor <= LastId(log[..Max(p, n)])
  {
    var snapshot := DetailOf(log[..p], t).value;
    ProjectionCarries(Row(log[..p], t).value, EventsOf(log[..p], t), LastId(log[..p]));
    BufferAfterSnapshot(log, base, p, n, t);
    var rest := if p <= n then EventsOf(log[p..n], t) else [];
    if p <= n {
      SliceAscending(log, p, n);
      EventsOfAreOwn(log[p..n], t);
      ShowsReplay(log, p, n, t, snapshot);
    }
    SortedAlready(rest);
  }
}
