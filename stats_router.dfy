/** The two handlers of routers/stats.py: counts of a principal's tasks by
    quadrant and by status, and the list of their pending tasks that have a
    deadline. An admin's scope is the whole table, anyone else's the rows
    they own. */
module StatsRouter {
  import opened Basics
  import opened TaskModel
  import opened Quadrants
  import opened TaskRouter

  datatype Role = Admin | User

  /** The authenticated caller, as `get_current_user` yields it. */
  datatype Principal = Principal(id: UserId, role: Role)

  /** The row is in the caller's scope. */
  predicate InScope(t: Task, user: Principal) {
    user.role == Admin || t.user_id == Some(user.id)
  }

  /** The ids in the caller's scope. */
  ghost function Scoped(tasks: map<TaskId, Task>, user: Principal): set<TaskId> {
    Matching(tasks, tasks.Keys, (t: Task) => InScope(t, user))
  }

  /** An admin's scope is the whole table; anyone else's is exactly the rows
      whose owner is that caller. */
  lemma ScopeByRole(tasks: map<TaskId, Task>, user: Principal)
    ensures user.role == Admin ==> Scoped(tasks, user) == tasks.Keys
    ensures user.role != Admin ==>
      Scoped(tasks, user) == set id | id in tasks && tasks[id].user_id == Some(user.id)
  {
    if user.role == Admin {
      assert forall id :: id in tasks ==> id in Scoped(tasks, user);
    } else {
      assert forall id :: id in Scoped(tasks, user) <==> id in tasks && tasks[id].user_id == Some(user.id);
    }
  }

  /** Rows whose stored quadrant is `q`. */
  function HasQuadrant(q: string): Task -> bool {
    (t: Task) => t.quadrant == q
  }

  /** Rows whose `completed` flag is `done`. */
  function HasStatus(done: bool): Task -> bool {
    (t: Task) => t.completed == done
  }

  /** The ids among `ids` whose stored quadrant is `q`. */
  ghost function InQuadrant(tasks: map<TaskId, Task>, ids: set<TaskId>, q: string): set<TaskId> {
    Matching(tasks, ids, HasQuadrant(q))
  }

  /** The ids among `ids` whose `completed` flag is `done`. */
  ghost function InStatus(tasks: map<TaskId, Task>, ids: set<TaskId>, done: bool): set<TaskId> {
    Matching(tasks, ids, HasStatus(done))
  }

  /** The quadrants stored in a set of rows. */
  ghost function QuadrantsIn(tasks: map<TaskId, Task>, ids: set<TaskId>): set<string> {
    set id | id in ids && id in tasks :: tasks[id].quadrant
  }

  /** The number of rows in a list that satisfy `p`. */
  function CountWhere(rows: seq<Task>, p: Task -> bool): nat
  {
    if rows == [] then 0
    else CountWhere(rows[..|rows| - 1], p) + (if p(rows[|rows| - 1]) then 1 else 0)
  }

  /** Extending a prefix by one row adds that row's contribution. */
  lemma CountStep(rows: seq<Task>, i: nat, p: Task -> bool)
    requires i < |rows|
    ensures CountWhere(rows[..i + 1], p) == CountWhere(rows[..i], p) + (if p(rows[i]) then 1 else 0)
  {
    assert rows[..i + 1][..i] == rows[..i];
  }

  /** A quadrant that no row holds counts zero. */
  lemma {:induction false} CountAbsent(rows: seq<Task>, q: string)
    requires q !in SeenQuadrants(rows, |rows|)
    ensures CountWhere(rows, HasQuadrant(q)) == 0
    decreases |rows|
  {
    if rows != [] {
      var init := rows[..|rows| - 1];
      assert rows[|rows| - 1].quadrant in SeenQuadrants(rows, |rows|);
      forall j | 0 <= j < |init|
        ensures init[j].quadrant != q
      {
        assert rows[j].quadrant in SeenQuadrants(rows, |rows|);
      }
      CountAbsent(init, q);
    }
  }

  /** Counting over an exact list of rows counts the matching ids. */
  lemma {:induction false} CountWhereIsCardinality(tasks: map<TaskId, Task>, rows: seq<Task>,
                                                    ids: set<TaskId>, p: Task -> bool)
    requires Lists(tasks, rows, ids)
    ensures CountWhere(rows, p) == |Matching(tasks, ids, p)|
    decreases |rows|
  {
    if rows == [] {
      assert Matching(tasks, ids, p) == {};
    } else {
      var init, last := rows[..|rows| - 1], rows[|rows| - 1];
      var rest := ids - {last.id};
      assert Ids(rows) == Ids(init) + {last.id} by { IdsAppend(init, last); assert init + [last] == rows; }
      forall i | 0 <= i < |init|
        ensures init[i].id != last.id
      {
      }
      assert last.id !in Ids(init);
      assert Ids(init) == rest;
      CountWhereIsCardinality(tasks, init, rest, p);
      assert last.id in tasks && tasks[last.id] == last;
      if p(last) {
        assert Matching(tasks, ids, p) == Matching(tasks, rest, p) + {last.id};
      } else {
        assert Matching(tasks, ids, p) == Matching(tasks, rest, p);
      }
    }
  }

  /** The per-quadrant and per-status counts over an exact list of rows are
      the sizes of the corresponding sets of ids. */
  lemma CountsAreCardinalities(tasks: map<TaskId, Task>, rows: seq<Task>, ids: set<TaskId>, q: string, done: bool)
    requires Lists(tasks, rows, ids)
    ensures CountWhere(rows, HasQuadrant(q)) == |InQuadrant(tasks, ids, q)|
    ensures CountWhere(rows, HasStatus(done)) == |InStatus(tasks, ids, done)|
  {
    CountWhereIsCardinality(tasks, rows, ids, HasQuadrant(q));
    CountWhereIsCardinality(tasks, rows, ids, HasStatus(done));
  }

  /** The statuses split any set of rows in two. */
  lemma StatusPartition(tasks: map<TaskId, Task>, ids: set<TaskId>)
    requires ids <= tasks.Keys
    ensures |InStatus(tasks, ids, true)| + |InStatus(tasks, ids, false)| == |ids|
  {
    var done, open := InStatus(tasks, ids, true), InStatus(tasks, ids, false);
    assert done + open == ids;
  }

  /** Rows of two different quadrants are different rows. */
  lemma QuadrantsDisjoint(tasks: map<TaskId, Task>, ids: set<TaskId>, q: string, q': string)
    requires q != q'
    ensures InQuadrant(tasks, ids, q) !! InQuadrant(tasks, ids, q')
  {
  }

  /** Rows holding one of the four codes are covered by the four quadrants. */
  lemma QuadrantsCover(tasks: map<TaskId, Task>, ids: set<TaskId>)
    requires ids <= tasks.Keys
    requires forall id :: id in ids ==> tasks[id].quadrant in QuadrantCodes
    ensures InQuadrant(tasks, ids, "Q1") + InQuadrant(tasks, ids, "Q2")
          + InQuadrant(tasks, ids, "Q3") + InQuadrant(tasks, ids, "Q4") == ids
  {
    forall id | id in ids
      ensures id in InQuadrant(tasks, ids, "Q1") + InQuadrant(tasks, ids, "Q2")
                  + InQuadrant(tasks, ids, "Q3") + InQuadrant(tasks, ids, "Q4")
    {
      var q := tasks[id].quadrant;
      assert id in InQuadrant(tasks, ids, q);
      assert q == "Q1" || q == "Q2" || q == "Q3" || q == "Q4";
    }
  }

  /** When every row holds one of the four codes, the four quadrant counts
      add up to the number of rows. */
  lemma {:induction false} QuadrantPartition(tasks: map<TaskId, Task>, ids: set<TaskId>)
    requires ids <= tasks.Keys
    requires forall id :: id in ids ==> tasks[id].quadrant in QuadrantCodes
    ensures |InQuadrant(tasks, ids, "Q1")| + |InQuadrant(tasks, ids, "Q2")|
          + |InQuadrant(tasks, ids, "Q3")| + |InQuadrant(tasks, ids, "Q4")| == |ids|
  {
    var a, b := InQuadrant(tasks, ids, "Q1"), InQuadrant(tasks, ids, "Q2");
    var c, d := InQuadrant(tasks, ids, "Q3"), InQuadrant(tasks, ids, "Q4");
    QuadrantsDisjoint(tasks, ids, "Q1", "Q2");
    QuadrantsDisjoint(tasks, ids, "Q1", "Q3");
    QuadrantsDisjoint(tasks, ids, "Q2", "Q3");
    QuadrantsDisjoint(tasks, ids, "Q1", "Q4");
    QuadrantsDisjoint(tasks, ids, "Q2", "Q4");
    QuadrantsDisjoint(tasks, ids, "Q3", "Q4");
    QuadrantsCover(tasks, ids);
    assert |a + b| == |a| + |b|;
    assert |a + b + c| == |a + b| + |c|;
  }

  /** The quadrants seen in an exact list of rows are those of its ids. */
  lemma QuadrantsOfList(tasks: map<TaskId, Task>, rows: seq<Task>, ids: set<TaskId>)
    requires Lists(tasks, rows, ids)
    ensures SeenQuadrants(rows, |rows|) == QuadrantsIn(tasks, ids)
  {
    forall id | id in ids && id in tasks
      ensures tasks[id].quadrant in SeenQuadrants(rows, |rows|)
    {
      assert id in Ids(rows);
      var j :| 0 <= j < |rows| && rows[j].id == id;
    }
    forall j | 0 <= j < |rows|
      ensures rows[j].quadrant in QuadrantsIn(tasks, ids)
    {
      assert rows[j].id in Ids(rows);
    }
  }

  datatype StatusCounts = StatusCounts(completed: nat, pending: nat)

  /** The response of `GET /stats/`. */
  datatype TaskStats = TaskStats(
    total_tasks: nat,
    by_quadrant: map<string, nat>,
    by_status: StatusCounts)

  /** The quadrants held by the first `n` rows. */
  function SeenQuadrants(rows: seq<Task>, n: nat): set<string>
    requires n <= |rows|
  {
    set j | 0 <= j < n :: rows[j].quadrant
  }

  /** One turn of the counting loop keeps every quadrant counter equal to
      the count over the rows seen so far. */
  lemma TallyStep(rows: seq<Task>, i: nat, before: map<string, nat>)
    requires i < |rows|
    requires before.Keys == QuadrantCodes + SeenQuadrants(rows, i)
    requires forall q :: q in before ==> before[q] == CountWhere(rows[..i], HasQuadrant(q))
    ensures var q := rows[i].quadrant;
      var after := before[q := (if q in before then before[q] else 0) + 1];
      && after.Keys == QuadrantCodes + SeenQuadrants(rows, i + 1)
      && forall q' :: q' in after ==> after[q'] == CountWhere(rows[..i + 1], HasQuadrant(q'))
  {
    var q := rows[i].quadrant;
    var after := before[q := (if q in before then before[q] else 0) + 1];
    assert SeenQuadrants(rows, i + 1) == SeenQuadrants(rows, i) + {q};
    forall q' | q' in after
      ensures after[q'] == CountWhere(rows[..i + 1], HasQuadrant(q'))
    {
      CountStep(rows, i, HasQuadrant(q'));
      if q' != q {
        assert q' in before;
      } else if q !in before {
        CountAbsent(rows[..i], q);
      }
    }
  }

  /** The counting loop of `get_tasks_stats` over the selected rows: a
      counter per quadrant seen (the four codes from the start) and the
      completed and pending counters. */
  method Tally(rows: seq<Task>) returns (byQuadrant: map<string, nat>, completed: nat, pending: nat)
    ensures byQuadrant.Keys == QuadrantCodes + SeenQuadrants(rows, |rows|)
    ensures forall q :: q in byQuadrant ==> byQuadrant[q] == CountWhere(rows, HasQuadrant(q))
    ensures completed == CountWhere(rows, HasStatus(true))
    ensures pending == CountWhere(rows, HasStatus(false))
  {
    byQuadrant := map["Q1" := 0, "Q2" := 0, "Q3" := 0, "Q4" := 0];
    completed, pending := 0, 0;
    for i := 0 to |rows|
      invariant byQuadrant.Keys == QuadrantCodes + SeenQuadrants(rows, i)
      invariant forall q :: q in byQuadrant ==> byQuadrant[q] == CountWhere(rows[..i], HasQuadrant(q))
      invariant completed == CountWhere(rows[..i], HasStatus(true))
      invariant pending == CountWhere(rows[..i], HasStatus(false))
    {
      var task := rows[i];
      TallyStep(rows, i, byQuadrant);
      byQuadrant := byQuadrant[task.quadrant := (if task.quadrant in byQuadrant then byQuadrant[task.quadrant] else 0) + 1];
      CountStep(rows, i, HasStatus(true));
      CountStep(rows, i, HasStatus(false));
      if task.completed {
        completed := completed + 1;
      } else {
        pending := pending + 1;
      }
    }
    assert rows[..|rows|] == rows;
  }

  /** `GET /stats/`: over the caller's scope, the number of rows, a count
      per stored quadrant (the four codes always present, starting at zero),
      and the completed and pending counts. */
  method GetTasksStats(store: TaskStore, user: Principal) returns (s: TaskStats)
    requires store.Valid()
    ensures s.total_tasks == |Scoped(store.tasks, user)|
    ensures s.by_quadrant.Keys == QuadrantCodes + QuadrantsIn(store.tasks, Scoped(store.tasks, user))
    ensures forall q :: q in s.by_quadrant ==>
      s.by_quadrant[q] == |InQuadrant(store.tasks, Scoped(store.tasks, user), q)|
    ensures s.by_status.completed == |InStatus(store.tasks, Scoped(store.tasks, user), true)|
    ensures s.by_status.pending == |InStatus(store.tasks, Scoped(store.tasks, user), false)|
    ensures s.by_status.completed + s.by_status.pending == s.total_tasks
    ensures store.WellFormed() ==> s.by_quadrant.Keys == QuadrantCodes
    ensures store.WellFormed() ==>
      s.by_quadrant["Q1"] + s.by_quadrant["Q2"] + s.by_quadrant["Q3"] + s.by_quadrant["Q4"] == s.total_tasks
  {
    var rows := store.Select((t: Task) => InScope(t, user));
    ghost var tasks, scope := store.tasks, Scoped(store.tasks, user);
    assert Lists(tasks, rows, scope);
    var byQuadrant, completed, pending := Tally(rows);
    s := TaskStats(|rows|, byQuadrant, StatusCounts(completed, pending));
    forall q | q in byQuadrant
      ensures byQuadrant[q] == |InQuadrant(tasks, scope, q)|
    {
      CountsAreCardinalities(tasks, rows, scope, q, true);
    }
    CountsAreCardinalities(tasks, rows, scope, "Q1", true);
    CountsAreCardinalities(tasks, rows, scope, "Q1", false);
    StatusPartition(tasks, scope);
    QuadrantsOfList(tasks, rows, scope);
    if store.WellFormed() {
      QuadrantPartition(tasks, scope);
    }
  }

  /** One entry of `GET /stats/deadlines`. */
  datatype DeadlineEntry = DeadlineEntry(
    id: TaskId,
    title: string,
    description: Option<string>,
    deadline_at: Option<Instant>,
    days_until_deadline: Option<int>)

  /** The response of `GET /stats/deadlines`. */
  datatype DeadlineReport = DeadlineReport(
    total_pending_with_deadlines: nat,
    tasks: seq<DeadlineEntry>)

  /** The entry for a row: its days until the deadline are counted from the
      row's creation, not from the time of the request. */
  function ToEntry(t: Task): (e: DeadlineEntry)
    ensures e.id == t.id && e.title == t.title && e.description == t.description
    ensures e.deadline_at == t.deadline_at
    ensures e.days_until_deadline == DaysUntilDeadline(t.deadline_at, t.created_at)
  {
    DeadlineEntry(t.id, t.title, t.description, t.deadline_at,
                  if t.deadline_at.Some? then Some(FloorDays(t.deadline_at.value - t.created_at)) else None)
  }

  /** The filter of `GET /stats/deadlines`: not completed, with a deadline,
      and in scope. */
  predicate PendingWithDeadline(t: Task, user: Principal) {
    !t.completed && t.deadline_at.Some? && InScope(t, user)
  }

  /** `GET /stats/deadlines`: one entry per pending row with a deadline in
      the caller's scope, and their number. */
  method GetPendingTasksWithDeadlines(store: TaskStore, user: Principal) returns (r: DeadlineReport)
    requires store.Valid()
    ensures r.total_pending_with_deadlines == |r.tasks|
    ensures (set i | 0 <= i < |r.tasks| :: r.tasks[i].id) ==
      set id | id in store.tasks && PendingWithDeadline(store.tasks[id], user)
    ensures |r.tasks| == |set id | id in store.tasks && PendingWithDeadline(store.tasks[id], user)|
    ensures forall i :: 0 <= i < |r.tasks| ==>
      && r.tasks[i].id in store.tasks
      && r.tasks[i] == ToEntry(store.tasks[r.tasks[i].id])
      && PendingWithDeadline(store.tasks[r.tasks[i].id], user)
    ensures forall i :: 0 <= i < |r.tasks| ==>
      && r.tasks[i].deadline_at.Some? && r.tasks[i].days_until_deadline.Some?
      && MICROS_PER_DAY * r.tasks[i].days_until_deadline.value
           <= r.tasks[i].deadline_at.value - store.tasks[r.tasks[i].id].created_at
           < MICROS_PER_DAY * (r.tasks[i].days_until_deadline.value + 1)
  {
    var rows := store.Select((t: Task) => !t.completed && t.deadline_at.Some? && InScope(t, user));
    var entries: seq<DeadlineEntry> := [];
    for i := 0 to |rows|
      invariant |entries| == i
      invariant forall j :: 0 <= j < i ==> entries[j] == ToEntry(rows[j])
    {
      var task := rows[i];
      entries := entries + [ToEntry(task)];
    }
    assert (set i | 0 <= i < |entries| :: entries[i].id) == Ids(rows);
    r := DeadlineReport(|entries|, entries);
    forall i | 0 <= i < |entries|
      ensures entries[i].id in store.tasks && entries[i] == ToEntry(store.tasks[entries[i].id])
      ensures PendingWithDeadline(store.tasks[entries[i].id], user)
      ensures entries[i].deadline_at.Some? && entries[i].days_until_deadline.Some?
      ensures MICROS_PER_DAY * entries[i].days_until_deadline.value
           <= entries[i].deadline_at.value - store.tasks[entries[i].id].created_at
           < MICROS_PER_DAY * (entries[i].days_until_deadline.value + 1)
    {
      var task := rows[i];
      assert task.id in Ids(rows);
      assert entries[i] == ToEntry(task) && store.tasks[task.id] == task;
    }
  }
}
