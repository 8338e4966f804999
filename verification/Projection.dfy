/** The server's projection of one task: `project_task_detail` over the task's events. */
module Projection {
  import opened Domain
  import opened EventLog

  datatype TaskDetail = TaskDetail(
    task: Task,
    plan: Option<PlanSnapshot>,
    activity: seq<ActivityEntry>,
    diff: Option<DiffSnapshot>,
    tests: Option<TestSnapshot>,
    timeline: seq<TimelineEntry>,
    eventCursor: nat)

  function TimelineLabel(kind: EventKind): string {
    match kind
    case TaskQueued => "Task queued"
    case TaskStarted => "Task started"
    case TaskCompleted => "Task completed"
    case TaskFailed => "Task failed"
    case TaskCancelled => "Task cancelled"
    case TaskInterrupted => "Task interrupted"
    case _ => ""
  }

  function ToTimelineEntry(event: TaskEvent, taskFailure: Option<TaskFailure>): TimelineEntry {
    var kind := event.payload.Kind();
    TimelineEntry(event.id, kind, TimelineLabel(kind), event.createdAt,
                  if kind in {TaskFailed, TaskInterrupted} then taskFailure else None)
  }

  predicate HasEntry(activity: seq<ActivityEntry>, id: string) {
    exists i :: 0 <= i < |activity| && activity[i].id == id
  }

  // One turn of the projection loop.
  function ProjectEvent(detail: TaskDetail, event: TaskEvent): TaskDetail {
    match event.payload
    case Plan(plan) => detail.(plan := Some(plan))
    case Activity(entry) =>
      if HasEntry(detail.activity, entry.id) then detail else detail.(activity := detail.activity + [entry])
    case Diff(diff) => detail.(diff := Some(diff))
    case Tests(tests) => detail.(tests := Some(tests))
    case Lifecycle(_, task) => detail.(timeline := detail.timeline + [ToTimelineEntry(event, task.failure)])
  }

  function Project(task: Task, events: seq<TaskEvent>, cursor: nat): TaskDetail {
    if events == [] then TaskDetail(task, None, [], None, None, [], cursor)
    else ProjectEvent(Project(task, events[..|events| - 1], cursor), events[|events| - 1])
  }

  lemma {:induction false} ProjectionCarries(task: Task, events: seq<TaskEvent>, cursor: nat)
    ensures Project(task, events, cursor).task == task && Project(task, events, cursor).eventCursor == cursor
  {
    if events != [] { ProjectionCarries(task, events[..|events| - 1], cursor); }
  }

  function EventsOf(log: seq<TaskEvent>, t: TaskId): seq<TaskEvent> {
    if log == [] then []
    else
      var before := EventsOf(log[..|log| - 1], t);
      if log[|log| - 1].taskId == t then before + [log[|log| - 1]] else before
  }

  // What `GET /tasks/:id` answers when the store holds `log`.
  function DetailOf(log: seq<TaskEvent>, t: TaskId): Option<TaskDetail> {
    match Row(log, t)
    case None => None
    case Some(task) => Some(Project(task, EventsOf(log, t), LastId(log)))
  }

  method ProjectTaskDetail(task: Task, events: seq<TaskEvent>, cursor: nat) returns (detail: TaskDetail)
    ensures detail == Project(task, events, cursor)
  {
    detail := TaskDetail(task, None, [], None, None, [], cursor);
    for n := 0 to |events|
      invariant detail == Project(task, events[..n], cursor)
    {
      var event := events[n];
      match event.payload {
        case Plan(plan) => detail := detail.(plan := Some(plan));
        case Activity(entry) =>
          if !HasEntry(detail.activity, entry.id) {
            detail := detail.(activity := detail.activity + [entry]);
          }
        case Diff(diff) => detail := detail.(diff := Some(diff));
        case Tests(tests) => detail := detail.(tests := Some(tests));
        case Lifecycle(_, carried) =>
          detail := detail.(timeline := detail.timeline + [ToTimelineEntry(event, carried.failure)]);
      }
      assert events[..n + 1][..n] == events[..n];
    }
    assert events[..|events|] == events;
  }

  // ----- facts about the projection -----

  lemma {:induction false} EventsOfAreOwn(log: seq<TaskEvent>, t: TaskId)
    requires Ascending(log)
    ensures Ascending(EventsOf(log, t))
    ensures forall e | e in EventsOf(log, t) :: e.taskId == t && e in log && e.id <= LastId(log)
  {
    if log != [] {
      var front := log[..|log| - 1];
      EventsOfAreOwn(front, t);
      assert forall e | e in front :: e in log;
      assert forall e | e in EventsOf(front, t) :: e.id <= LastId(front) < LastId(log) || front == [];
    }
  }

  // The projection shows what a reader wants: last plan, last diff, last tests, and every
  // activity id once, in order of first appearance.
  predicate ShowsEntry(events: seq<TaskEvent>, id: string) {
    exists i :: 0 <= i < |events| && events[i].payload.Activity? && events[i].payload.entry.id == id
  }

  lemma OneMoreEntry(activity: seq<ActivityEntry>, entry: ActivityEntry, id: string)
    ensures HasEntry(activity + [entry], id) <==> HasEntry(activity, id) || entry.id == id
  {
    var more := activity + [entry];
    if i :| 0 <= i < |activity| && activity[i].id == id { assert more[i].id == id; }
    assert more[|activity|] == entry;
  }

  lemma OneMoreShown(front: seq<TaskEvent>, last: TaskEvent, id: string)
    ensures ShowsEntry(front + [last], id) <==> ShowsEntry(front, id) || (last.payload.Activity? && last.payload.entry.id == id)
  {
    var more := front + [last];
    if i :| 0 <= i < |front| && front[i].payload.Activity? && front[i].payload.entry.id == id { assert more[i] == front[i]; }
    assert more[|front|] == last;
  }

  ghost predicate DistinctEntries(activity: seq<ActivityEntry>) {
    forall i, j | 0 <= i < j < |activity| :: activity[i].id != activity[j].id
  }

  lemma StillDistinct(activity: seq<ActivityEntry>, entry: ActivityEntry)
    requires DistinctEntries(activity) && !HasEntry(activity, entry.id)
    ensures DistinctEntries(activity + [entry])
  {
  }

  lemma {:induction false} ActivityIsDeduplicated(task: Task, events: seq<TaskEvent>, cursor: nat)
    ensures DistinctEntries(Project(task, events, cursor).activity)
    ensures forall id :: HasEntry(Project(task, events, cursor).activity, id) <==> ShowsEntry(events, id)
  {
    hide HasEntry, ShowsEntry, DistinctEntries, ToTimelineEntry;
    if events == [] {
      NoEntries();
    } else {
      var front, last := events[..|events| - 1], events[|events| - 1];
      ActivityIsDeduplicated(task, front, cursor);
      var before, after := Project(task, front, cursor).activity, Project(task, events, cursor).activity;
      assert events == front + [last];
      if last.payload.Activity? && !HasEntry(before, last.payload.entry.id) { StillDistinct(before, last.payload.entry); }
      forall id ensures HasEntry(after, id) <==> ShowsEntry(events, id) {
        OneMoreShown(front, last, id);
        if last.payload.Activity? { OneMoreEntry(before, last.payload.entry, id); }
      }
    }
  }

  lemma NoEntries()
    ensures DistinctEntries([]) && forall id :: !HasEntry([], id) && !ShowsEntry([], id)
  {
  }

  // The entries of the activity events, each id only where it appears first.
  function FirstEntries(events: seq<TaskEvent>): seq<ActivityEntry> {
    if events == [] then []
    else
      var front, last := events[..|events| - 1], events[|events| - 1];
      match last.payload
      case Activity(entry) => FirstEntries(front) + (if ShowsEntry(front, entry.id) then [] else [entry])
      case _ => FirstEntries(front)
  }

  lemma {:induction false} ActivityIsFirst(task: Task, events: seq<TaskEvent>, cursor: nat)
    ensures Project(task, events, cursor).activity == FirstEntries(events)
  {
    hide HasEntry, ShowsEntry, ToTimelineEntry;
    if events != [] {
      ActivityIsFirst(task, events[..|events| - 1], cursor);
      ActivityIsDeduplicated(task, events[..|events| - 1], cursor);
    }
  }

  lemma {:induction false} EventsOfAll(log: seq<TaskEvent>, t: TaskId)
    ensures forall e :: e in EventsOf(log, t) <==> e in log && e.taskId == t
  {
    if log != [] {
      var front, last := log[..|log| - 1], log[|log| - 1];
      EventsOfAll(front, t);
      assert log == front + [last];
    }
  }

  lemma {:induction false} TimelineBounded(task: Task, events: seq<TaskEvent>, cursor: nat, bound: nat)
    requires forall i | 0 <= i < |events| :: events[i].id < bound
    ensures forall e | e in Project(task, events, cursor).timeline :: e.eventId < bound
  {
    if events != [] { TimelineBounded(task, events[..|events| - 1], cursor, bound); }
  }

  // ----- the other panels -----

  // The value of the last event that carries one.
  ghost predicate IsLatest<T(!new)>(events: seq<TaskEvent>, read: TaskEvent -> Option<T>, shown: Option<T>) {
    match shown
    case None => forall i | 0 <= i < |events| :: read(events[i]).None?
    case Some(_) => exists i :: 0 <= i < |events| && read(events[i]) == shown && forall j | i < j < |events| :: read(events[j]).None?
  }

  function PlanIn(event: TaskEvent): Option<PlanSnapshot> {
    match event.payload case Plan(plan) => Some(plan) case _ => None
  }

  function DiffIn(event: TaskEvent): Option<DiffSnapshot> {
    match event.payload case Diff(diff) => Some(diff) case _ => None
  }

  function TestsIn(event: TaskEvent): Option<TestSnapshot> {
    match event.payload case Tests(tests) => Some(tests) case _ => None
  }

  lemma LatestGrows<T(!new)>(events: seq<TaskEvent>, event: TaskEvent, read: TaskEvent -> Option<T>, shown: Option<T>)
    requires IsLatest(events, read, shown)
    ensures IsLatest(events + [event], read, if read(event).Some? then read(event) else shown)
  {
    var more := events + [event];
    if read(event).Some? {
      assert more[|events|] == event;
    } else if shown.Some? {
      var i :| 0 <= i < |events| && read(events[i]) == shown && forall j | i < j < |events| :: read(events[j]).None?;
      assert more[i] == events[i];
    }
  }

  // Plan, diff and tests show the latest snapshot, or nothing if there never was one.
  lemma {:induction false} PanelsShowTheLatest(task: Task, events: seq<TaskEvent>, cursor: nat)
    ensures IsLatest(events, PlanIn, Project(task, events, cursor).plan)
    ensures IsLatest(events, DiffIn, Project(task, events, cursor).diff)
    ensures IsLatest(events, TestsIn, Project(task, events, cursor).tests)
  {
    hide IsLatest;
    if events == [] {
      NothingYet(PlanIn);
      NothingYet(DiffIn);
      NothingYet(TestsIn);
    } else {
      var front, last := events[..|events| - 1], events[|events| - 1];
      var before := Project(task, front, cursor);
      assert events == front + [last];
      PanelsShowTheLatest(task, front, cursor);
      LatestGrows(front, last, PlanIn, before.plan);
      LatestGrows(front, last, DiffIn, before.diff);
      LatestGrows(front, last, TestsIn, before.tests);
    }
  }

  lemma NothingYet<T(!new)>(read: TaskEvent -> Option<T>)
    ensures IsLatest([], read, None)
  {
  }

  function Lifecycles(events: seq<TaskEvent>): (own: seq<TaskEvent>)
    ensures forall e | e in own :: e.payload.Lifecycle?
  {
    if events == [] then []
    else
      var before := Lifecycles(events[..|events| - 1]);
      if events[|events| - 1].payload.Lifecycle? then before + [events[|events| - 1]] else before
  }

  // The timeline is the lifecycle events in order, each with the failure its own row carries.
  lemma {:induction false} TimelineIsLifecycle(task: Task, events: seq<TaskEvent>, cursor: nat)
    ensures var timeline, own := Project(task, events, cursor).timeline, Lifecycles(events);
            |timeline| == |own| && forall i | 0 <= i < |own| :: timeline[i] == ToTimelineEntry(own[i], own[i].payload.task.failure)
  {
    hide ToTimelineEntry;
    if events != [] {
      TimelineIsLifecycle(task, events[..|events| - 1], cursor);
    }
  }
}
