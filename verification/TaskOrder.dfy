/** The `ORDER BY created_at, id` order in which tasks are recovered and claimed. */
module TaskOrder {
  import opened Domain

  predicate Before(rows: map<TaskId, Task>, a: TaskId, b: TaskId)
    requires a in rows && b in rows
  {
    rows[a].createdAt < rows[b].createdAt || (rows[a].createdAt == rows[b].createdAt && a < b)
  }

  ghost predicate SortedIds(rows: map<TaskId, Task>, ids: seq<TaskId>) {
    && (forall t | t in ids :: t in rows)
    && forall i, j | 0 <= i < j < |ids| :: Before(rows, ids[i], ids[j])
  }

  // The query result: every member of `wanted`, once, oldest first.
  ghost predicate Lists(rows: map<TaskId, Task>, wanted: set<TaskId>, ids: seq<TaskId>) {
    SortedIds(rows, ids) && forall t :: t in ids <==> t in wanted
  }

  // In the terms of the columns: by `created_at`, and by id among rows of the same instant.
  ghost predicate OldestFirst(rows: map<TaskId, Task>, ids: seq<TaskId>) {
    && (forall t | t in ids :: t in rows)
    && forall i, j | 0 <= i < j < |ids| ::
         && rows[ids[i]].createdAt <= rows[ids[j]].createdAt
         && (rows[ids[i]].createdAt == rows[ids[j]].createdAt ==> ids[i] < ids[j])
  }

  lemma SortedIsOldestFirst(rows: map<TaskId, Task>, ids: seq<TaskId>)
    ensures SortedIds(rows, ids) <==> OldestFirst(rows, ids)
  {
    if SortedIds(rows, ids) {
      forall i, j | 0 <= i < j < |ids|
        ensures rows[ids[i]].createdAt <= rows[ids[j]].createdAt && (rows[ids[i]].createdAt == rows[ids[j]].createdAt ==> ids[i] < ids[j]) {
        assert Before(rows, ids[i], ids[j]);
      }
    }
  }

  lemma {:induction false} OldestExists(rows: map<TaskId, Task>, wanted: set<TaskId>)
    requires wanted <= rows.Keys && wanted != {}
    ensures exists t :: t in wanted && forall u | u in wanted && u != t :: Before(rows, t, u)
  {
    var x :| x in wanted;
    var rest := wanted - {x};
    if rest == {} {
      assert forall u | u in wanted && u != x :: u in rest;
    } else {
      OldestExists(rows, rest);
      var y :| y in rest && forall u | u in rest && u != y :: Before(rows, y, u);
      var best := if Before(rows, x, y) then x else y;
      assert forall u | u in wanted && u != x :: u in rest;
      assert best in wanted && forall u | u in wanted && u != best :: Before(rows, best, u);
    }
  }

  method Select(rows: map<TaskId, Task>, wanted: set<TaskId>) returns (ids: seq<TaskId>)
    requires wanted <= rows.Keys
    ensures Lists(rows, wanted, ids)
    ensures OldestFirst(rows, ids)
  {
    ids := [];
    var rest := wanted;
    while rest != {}
      invariant rest <= wanted
      invariant Lists(rows, wanted - rest, ids)
      invariant forall t, u | t in ids && u in rest :: Before(rows, t, u)
    {
      OldestExists(rows, rest);
      var t :| t in rest && forall u | u in rest && u != t :: Before(rows, t, u);
      var before := ids;
      ids := ids + [t];
      assert forall u :: u in ids <==> u in before || u == t;
      rest := rest - {t};
    }
    SortedIsOldestFirst(rows, ids);
  }

  // A listing has one order only, so `Lists` determines the query's answer.
  lemma {:induction false} ListingUnique(rows: map<TaskId, Task>, wanted: set<TaskId>, a: seq<TaskId>, b: seq<TaskId>)
    requires Lists(rows, wanted, a) && Lists(rows, wanted, b)
    ensures a == b
  {
    assert (a == [] || a[0] in a) && (b == [] || b[0] in b);
    if a != [] && b != [] {
      var i :| 0 <= i < |b| && b[i] == a[0];
      var j :| 0 <= j < |a| && a[j] == b[0];
      assert a[0] == b[0];
      TailLists(rows, wanted, a);
      TailLists(rows, wanted, b);
      ListingUnique(rows, wanted - {a[0]}, a[1..], b[1..]);
      assert a == [a[0]] + a[1..] && b == [b[0]] + b[1..];
    }
  }

  lemma TailLists(rows: map<TaskId, Task>, wanted: set<TaskId>, ids: seq<TaskId>)
    requires Lists(rows, wanted, ids) && ids != []
    ensures Lists(rows, wanted - {ids[0]}, ids[1..])
  {
    forall t | t in wanted && t != ids[0] ensures t in ids[1..] {
      var k :| 0 <= k < |ids| && ids[k] == t;
      assert ids[1..][k - 1] == t;
    }
    forall k | 0 <= k < |ids[1..]| ensures ids[1..][k] != ids[0] { assert Before(rows, ids[0], ids[k + 1]); }
  }
}
