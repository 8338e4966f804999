/** The attempts shown for one task: up `retry_of` to the first attempt, then down again. */
module RetryChain {
  import opened Domain
  import opened StoreModel
  import opened History

  // Where a task stands in the order: the last of its places, or behind every place of any order.
  function OrderIndex(taskOrder: seq<TaskId>, t: TaskId): (index: nat)
    ensures t in taskOrder ==> index < |taskOrder| && taskOrder[index] == t && t !in taskOrder[index + 1..]
    ensures t !in taskOrder ==> index == 0x1F_FFFF_FFFF_FFFF
  {
    if taskOrder == [] then 0x1F_FFFF_FFFF_FFFF
    else if taskOrder[|taskOrder| - 1] == t then |taskOrder| - 1
    else OrderIndex(taskOrder[..|taskOrder| - 1], t)
  }

  predicate ComesFirst(a: Task, b: Task, taskOrder: seq<TaskId>) {
    a.attempt < b.attempt || (a.attempt == b.attempt && OrderIndex(taskOrder, a.id) <= OrderIndex(taskOrder, b.id))
  }

  // `.sort(...)[0]`
  method First(candidates: set<Task>, taskOrder: seq<TaskId>) returns (first: Option<Task>)
    ensures first.None? <==> candidates == {}
    ensures first.Some? ==> first.value in candidates && forall c | c in candidates :: ComesFirst(first.value, c, taskOrder)
    ensures first.Some? ==> forall c | c in candidates ::
              && first.value.attempt <= c.attempt
              && (first.value.attempt == c.attempt ==> OrderIndex(taskOrder, first.value.id) <= OrderIndex(taskOrder, c.id))
  {
    first := None;
    var rest := candidates;
    while rest != {}
      invariant rest <= candidates
      invariant first.None? <==> rest == candidates
      invariant first.Some? ==>
                  first.value in candidates && forall c | c in candidates && c !in rest :: ComesFirst(first.value, c, taskOrder)
    {
      var c :| c in rest;
      if first.None? || !ComesFirst(first.value, c, taskOrder) { first := Some(c); }
      rest := rest - {c};
    }
  }

  ghost function Ids(chain: seq<Task>): (ids: seq<TaskId>)
    ensures |ids| == |chain| && forall i | 0 <= i < |chain| :: ids[i] == chain[i].id
  {
    seq(|chain|, i requires 0 <= i < |chain| => chain[i].id)
  }

  method Next(here: Task, tasksById: map<TaskId, Task>, seen: set<TaskId>, taskOrder: seq<TaskId>) returns (next: Option<Task>)
    ensures next.None? ==> forall c | c in tasksById.Values && c.retryOf == Some(here.id) :: c.id in seen
    ensures next.Some? ==> next.value in tasksById.Values && next.value.retryOf == Some(here.id) && next.value.id !in seen
    ensures next.Some? ==> forall c | c in tasksById.Values && c.retryOf == Some(here.id) && c.id !in seen ::
                             ComesFirst(next.value, c, taskOrder)
  {
    var candidates := set c | c in tasksById.Values && c.retryOf == Some(here.id) && c.id !in seen;
    next := First(candidates, taskOrder);
    assert next.None? ==> forall c | c in tasksById.Values && c.retryOf == Some(here.id) && c.id !in seen :: c in candidates;
  }

  // Every task the walks can meet.
  ghost function Reachable(task: Task, tasksById: map<TaskId, Task>): set<TaskId> {
    {task.id} + set t | t in tasksById :: tasksById[t].id
  }

  ghost predicate Childless(rows: map<TaskId, Task>, t: TaskId) {
    forall c | c in rows :: rows[c].retryOf != Some(t)
  }

  predicate Stored(rows: map<TaskId, Task>, task: Task) {
    task.id in rows && rows[task.id] == task
  }

  // On the way up: `down` leads from the current root back to the task.
  ghost predicate Climbing(rows: map<TaskId, Task>, task: Task, root: Task, down: seq<TaskId>, seen: set<TaskId>) {
    && Stored(rows, root) && down != [] && down[0] == root.id && down[|down| - 1] == task.id
    && (forall i | 0 <= i < |down| :: down[i] in rows && rows[down[i]].attempt == root.attempt + i)
    && (forall i | 0 < i < |down| :: rows[down[i]].retryOf == Some(down[i - 1]))
    && (forall t | t in seen :: t in rows && rows[t].attempt > root.attempt)
  }

  lemma ClimbStep(rows: map<TaskId, Task>, task: Task, root: Task, down: seq<TaskId>, seen: set<TaskId>)
    requires Forest(rows) && Climbing(rows, task, root, down, seen) && root.retryOf.Some?
    ensures root.retryOf.value in rows && root.id !in seen
    ensures Climbing(rows, task, rows[root.retryOf.value], [root.retryOf.value] + down, seen + {root.id})
  {
    var parent := rows[root.retryOf.value];
    assert parent.id == root.retryOf.value && root.attempt == parent.attempt + 1;
    hide Forest;
    ClimbOn(rows, task, root, parent, down, seen);
  }

  lemma ClimbOn(rows: map<TaskId, Task>, task: Task, root: Task, parent: Task, down: seq<TaskId>, seen: set<TaskId>)
    requires Climbing(rows, task, root, down, seen) && Stored(rows, parent)
    requires root.retryOf == Some(parent.id) && root.attempt == parent.attempt + 1
    ensures Climbing(rows, task, parent, [parent.id] + down, seen + {root.id})
  {
    var longer := [parent.id] + down;
    forall i | 0 < i < |longer| ensures longer[i] in rows && rows[longer[i]].retryOf == Some(longer[i - 1]) {
      assert longer[i] == down[i - 1] && (i > 1 ==> longer[i - 1] == down[i - 2]);
    }
  }

  lemma ClimbEnds(rows: map<TaskId, Task>, task: Task, root: Task, down: seq<TaskId>, seen: set<TaskId>)
    requires Forest(rows) && Climbing(rows, task, root, down, seen) && root.retryOf.None?
    ensures IsLineage(rows, down)
  {
    assert root.attempt == 1;
    hide Forest;
  }

  // Up to the first attempt; on a table with a cycle or a missing parent, wherever that leaves it.
  method FindRoot(task: Task, tasksById: map<TaskId, Task>) returns (root: Task, ghost down: seq<TaskId>)
    ensures root == task || root in tasksById.Values
    ensures Forest(tasksById) && Stored(tasksById, task) ==>
              Stored(tasksById, root) && IsLineage(tasksById, down) && down[0] == root.id && down[|down| - 1] == task.id
  {
    hide Forest, IsLineage, Climbing;
    root := task;
    down := [task.id];
    var seenAncestors: set<TaskId> := {};
    ghost var good := Forest(tasksById) && Stored(tasksById, task);
    if good { ClimbStarts(tasksById, task); }
    while root.retryOf.Some?
      invariant root == task || root in tasksById.Values
      invariant seenAncestors <= Reachable(task, tasksById)
      invariant good ==> Climbing(tasksById, task, root, down, seenAncestors)
      decreases |Reachable(task, tasksById) - seenAncestors|
    {
      if good { ClimbStep(tasksById, task, root, down, seenAncestors); }
      if root.id in seenAncestors { break; }
      SeesOneMore(Reachable(task, tasksById), seenAncestors, root.id);
      seenAncestors := seenAncestors + {root.id};
      if root.retryOf.value !in tasksById { break; }
      down := [root.retryOf.value] + down;
      root := tasksById[root.retryOf.value];
    }
    if good {
      ClimbEnds(tasksById, task, root, down, seenAncestors);
      ClimbingHolds(tasksById, task, root, down, seenAncestors);
    }
  }

  lemma ClimbStarts(rows: map<TaskId, Task>, task: Task)
    requires Stored(rows, task)
    ensures Climbing(rows, task, task, [task.id], {})
  {
  }

  lemma ClimbingHolds(rows: map<TaskId, Task>, task: Task, root: Task, down: seq<TaskId>, seen: set<TaskId>)
    requires Climbing(rows, task, root, down, seen)
    ensures Stored(rows, root) && down != [] && down[0] == root.id && down[|down| - 1] == task.id
  {
  }

  lemma SeesOneMore(all: set<TaskId>, seen: set<TaskId>, t: TaskId)
    requires t in all && t !in seen
    ensures |all - (seen + {t})| < |all - seen|
  {
    assert all - (seen + {t}) == (all - seen) - {t};
  }

  // The chain repeats no id, and `seen` holds the ids of the chain.
  ghost predicate SeenAre(chain: seq<Task>, seen: set<TaskId>) {
    && (forall i, j | 0 <= i < j < |chain| :: chain[i].id != chain[j].id)
    && (forall t :: t in seen <==> t in Ids(chain))
  }

  lemma NothingSeen()
    ensures SeenAre([], {})
  {
  }

  lemma SeenMore(chain: seq<Task>, seen: set<TaskId>, here: Task)
    requires SeenAre(chain, seen) && here.id !in seen
    ensures SeenAre(chain + [here], seen + {here.id})
  {
    assert Ids(chain + [here]) == Ids(chain) + [here.id];
    assert forall i | 0 <= i < |chain| :: Ids(chain)[i] in Ids(chain);
  }

  lemma SeenApart(chain: seq<Task>, seen: set<TaskId>)
    requires SeenAre(chain, seen)
    ensures forall i, j | 0 <= i < j < |chain| :: chain[i].id != chain[j].id
  {
  }

  lemma IsReachable(task: Task, tasksById: map<TaskId, Task>, here: Task)
    requires here == task || here in tasksById.Values
    ensures here.id in Reachable(task, tasksById)
  {
  }

  // On the way down: the chain so far is a lineage and `current`, if any, is its next attempt.
  ghost predicate Descending(rows: map<TaskId, Task>, root: Task, chain: seq<Task>, current: Option<Task>) {
    && (forall i | 0 <= i < |chain| :: Stored(rows, chain[i]))
    && (current.Some? ==> Stored(rows, current.value) && IsLineage(rows, Ids(chain) + [current.value.id]))
    && (current.None? ==> IsLineage(rows, Ids(chain)) && Childless(rows, chain[|chain| - 1].id))
    && (if chain == [] then current == Some(root) else chain[0] == root)
  }

  lemma IsRetry(rows: map<TaskId, Task>, next: Task, current: Task)
    requires Forest(rows) && Stored(rows, current) && next in rows.Values && next.retryOf == Some(current.id)
    ensures Stored(rows, next) && next.attempt == current.attempt + 1
  {
    var t :| t in rows && rows[t] == next;
    assert rows[t].id == t;
  }

  lemma LastAttempt(rows: map<TaskId, Task>, path: seq<TaskId>)
    requires IsLineage(rows, path)
    ensures path != [] && path[|path| - 1] in rows && rows[path[|path| - 1]].attempt == |path|
  {
  }

  lemma DescendOn(rows: map<TaskId, Task>, root: Task, chain: seq<Task>, current: Task, next: Task)
    requires Forest(rows) && Descending(rows, root, chain, Some(current))
    requires next in rows.Values && next.retryOf == Some(current.id)
    ensures Descending(rows, root, chain + [current], Some(next))
  {
    hide Forest, IsLineage;
    var path := Ids(chain) + [current.id];
    assert Ids(chain + [current]) == path && path[|chain|] == current.id;
    IsRetry(rows, next, current);
    LastAttempt(rows, path);
    LineageGrows(rows, path, next.id);
  }

  lemma DescendStop(rows: map<TaskId, Task>, root: Task, chain: seq<Task>, current: Task, seen: set<TaskId>)
    requires Forest(rows) && Descending(rows, root, chain, Some(current))
    requires SeenAre(chain + [current], seen)
    requires forall c | c in rows.Values && c.retryOf == Some(current.id) :: c.id in seen
    ensures Descending(rows, root, chain + [current], None)
  {
    var path := Ids(chain) + [current.id];
    assert Ids(chain + [current]) == path && path[|chain|] == current.id;
    NoLaterAttempt(rows, path, current, seen);
    hide Forest, IsLineage, Childless;
  }

  lemma NoLaterAttempt(rows: map<TaskId, Task>, path: seq<TaskId>, current: Task, seen: set<TaskId>)
    requires Forest(rows) && IsLineage(rows, path) && Stored(rows, current) && path[|path| - 1] == current.id
    requires forall t :: t in seen ==> t in path
    requires forall c | c in rows.Values && c.retryOf == Some(current.id) :: c.id in seen
    ensures Childless(rows, current.id)
  {
    hide Forest;
    assert forall t | t in path :: rows[t].attempt <= current.attempt;
    forall c | c in rows ensures rows[c].retryOf != Some(current.id) { AttemptOfRetry(rows, current, c); }
  }

  lemma AttemptOfRetry(rows: map<TaskId, Task>, parent: Task, c: TaskId)
    requires Forest(rows) && Stored(rows, parent) && c in rows
    ensures rows[c].id == c && rows[c] in rows.Values
    ensures rows[c].retryOf == Some(parent.id) ==> rows[c].attempt == parent.attempt + 1
  {
  }

  // `retryChain`. It terminates on every table, never repeats an id, and on a table that holds
  // every parent it is the lineage through the task, down to a task nobody retried.
  method Chain(task: Task, tasksById: map<TaskId, Task>, taskOrder: seq<TaskId>) returns (chain: seq<Task>)
    ensures chain != [] && forall i, j | 0 <= i < j < |chain| :: chain[i].id != chain[j].id
    ensures Forest(tasksById) && Stored(tasksById, task) ==> IsWholeLineage(tasksById, Ids(chain), task.id)
    ensures Forest(tasksById) && Stored(tasksById, task) ==> forall i | 0 <= i < |chain| :: Stored(tasksById, chain[i])
  {
    hide Forest, IsLineage, Descending, Stored, Reachable, IsWholeLineage, ComesFirst, SeenAre;
    ghost var good := Forest(tasksById) && Stored(tasksById, task);
    var root, down := FindRoot(task, tasksById);
    chain := [];
    var seen: set<TaskId> := {};
    var current := Some(root);
    if good { DescendStarts(tasksById, root, down); }
    NothingSeen();
    while current.Some? && current.value.id !in seen
      invariant chain == [] ==> current == Some(root) && seen == {}
      invariant current.Some? ==> current.value == task || current.value in tasksById.Values
      invariant SeenAre(chain, seen)
      invariant seen <= Reachable(task, tasksById)
      invariant current.Some? && chain != [] ==> current.value.id !in seen
      invariant good ==> Descending(tasksById, root, chain, current)
      decreases |Reachable(task, tasksById) - seen|
    {
      var here := current.value;
      IsReachable(task, tasksById, here);
      SeesOneMore(Reachable(task, tasksById), seen, here.id);
      SeenMore(chain, seen, here);
      seen := seen + {here.id};
      var next := Next(here, tasksById, seen, taskOrder);
      if good {
        if next.Some? { DescendOn(tasksById, root, chain, here, next.value); } else { DescendStop(tasksById, root, chain, here, seen); }
      }
      chain := chain + [here];
      current := next;
    }
    SeenApart(chain, seen);
    if good { DescendEnds(tasksById, root, chain, current, down); }
  }

  lemma DescendStarts(rows: map<TaskId, Task>, root: Task, down: seq<TaskId>)
    requires Forest(rows) && Stored(rows, root) && IsLineage(rows, down) && down[0] == root.id
    ensures Descending(rows, root, [], Some(root))
  {
    assert Ids([]) + [root.id] == [root.id];
  }

  // A lineage through `t` that goes on for as long as somebody retried its last task.
  ghost predicate IsWholeLineage(rows: map<TaskId, Task>, path: seq<TaskId>, t: TaskId) {
    IsLineage(rows, path) && t in path && Childless(rows, path[|path| - 1])
  }

  lemma DescendEnds(rows: map<TaskId, Task>, root: Task, chain: seq<Task>, current: Option<Task>, down: seq<TaskId>)
    requires Forest(rows) && Descending(rows, root, chain, current) && current.None? && chain != []
    requires IsLineage(rows, down) && down[0] == root.id
    ensures IsWholeLineage(rows, Ids(chain), down[|down| - 1])
    ensures forall i | 0 <= i < |chain| :: Stored(rows, chain[i])
  {
    hide Forest, Childless;
    LineagesAgree(rows, Ids(chain), down, (if |down| < |chain| then |down| else |chain|) - 1);
    if |chain| < |down| { HasRetry(rows, down, |chain|); }
    assert Ids(chain)[|down| - 1] == down[|down| - 1];
  }

  lemma HasRetry(rows: map<TaskId, Task>, path: seq<TaskId>, k: nat)
    requires IsLineage(rows, path) && 0 < k < |path|
    ensures !Childless(rows, path[k - 1])
  {
    assert rows[path[k]].retryOf == Some(path[k - 1]);
  }

  // Two lineages from the same first attempt agree as far as both go.
  lemma {:induction false} LineagesAgree(rows: map<TaskId, Task>, a: seq<TaskId>, b: seq<TaskId>, n: nat)
    requires Forest(rows) && IsLineage(rows, a) && IsLineage(rows, b) && a[0] == b[0] && n < |a| && n < |b|
    ensures forall i | 0 <= i <= n :: a[i] == b[i]
  {
    hide Forest;
    if n > 0 {
      LineagesAgree(rows, a, b, n - 1);
      OneRetry(rows, a[n], b[n], a[n - 1]);
    }
  }

  lemma OneRetry(rows: map<TaskId, Task>, a: TaskId, b: TaskId, parent: TaskId)
    requires Forest(rows) && a in rows && b in rows && rows[a].retryOf == rows[b].retryOf == Some(parent)
    ensures a == b
  {
  }

  // Going up from a shared task, two lineages have the same ancestors.
  lemma {:induction false} AncestorsAgree(rows: map<TaskId, Task>, a: seq<TaskId>, b: seq<TaskId>, n: nat)
    requires IsLineage(rows, a) && IsLineage(rows, b) && n < |a| && n < |b| && a[n] == b[n]
    ensures a[0] == b[0]
  {
    if n > 0 { AncestorsAgree(rows, a, b, n - 1); }
  }

  lemma PlaceInLineage(rows: map<TaskId, Task>, path: seq<TaskId>, t: TaskId)
    requires IsWholeLineage(rows, path, t)
    ensures t in rows && 0 < rows[t].attempt <= |path| && path[rows[t].attempt - 1] == t
  {
    var i :| 0 <= i < |path| && path[i] == t;
    assert rows[path[i]].attempt == i + 1;
  }

  // So there is only one whole lineage through a task.
  lemma WholeLineageIsUnique(rows: map<TaskId, Task>, a: seq<TaskId>, b: seq<TaskId>, t: TaskId)
    requires Forest(rows) && IsWholeLineage(rows, a, t) && IsWholeLineage(rows, b, t)
    ensures a == b && t in rows && 0 < rows[t].attempt <= |a| && a[rows[t].attempt - 1] == t
  {
    hide Forest, Childless, IsLineage;
    PlaceInLineage(rows, a, t);
    PlaceInLineage(rows, b, t);
    AncestorsAgree(rows, a, b, rows[t].attempt - 1);
    LineagesAgree(rows, a, b, (if |a| < |b| then |a| else |b|) - 1);
    if |a| < |b| { HasRetry(rows, b, |a|); }
    if |b| < |a| { HasRetry(rows, a, |b|); }
  }
}
