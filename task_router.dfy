/** The handlers of routers/tasks.py over an in-memory `tasks` table. The
    router checks no ownership: every handler acts on any row. */
module TaskRouter {
  import opened Basics
  import opened TaskModel
  import opened Quadrants
  import opened Text
  import opened Schemas

  /** The `HTTPException`s the handlers raise, the request-validation failure
      the framework raises before a handler runs, and the failed commit of a
      NULL into a NOT NULL column. */
  datatype Error =
    | ValidationFailed
    | InvalidQuadrant
    | InvalidStatus
    | TaskNotFound
    | NothingFound
    | NotNullViolation

  /** The HTTP status each error is answered with. */
  function StatusCode(e: Error): (code: int)
    ensures 400 <= code < 600
    ensures code == 422 <==> e.ValidationFailed?
    ensures code == 400 <==> e.InvalidQuadrant?
    ensures code == 500 <==> e.NotNullViolation?
    ensures code == 404 <==> (e.InvalidStatus? || e.TaskNotFound? || e.NothingFound?)
  {
    match e
    case ValidationFailed => 422
    case InvalidQuadrant => 400
    case InvalidStatus => 404
    case TaskNotFound => 404
    case NothingFound => 404
    case NotNullViolation => 500
  }

  /** The ids of a list of rows. */
  function Ids(rows: seq<Task>): set<TaskId> {
    set i | 0 <= i < |rows| :: rows[i].id
  }

  predicate DistinctIds(rows: seq<Task>) {
    forall i, j :: 0 <= i < j < |rows| ==> rows[i].id != rows[j].id
  }

  /** Appending a row adds its id; a row with a new id keeps the ids
      distinct and their number equal to the number of rows. */
  lemma IdsAppend(rows: seq<Task>, t: Task)
    ensures Ids(rows + [t]) == Ids(rows) + {t.id}
    ensures DistinctIds(rows) && t.id !in Ids(rows) ==> DistinctIds(rows + [t])
  {
    var extended := rows + [t];
    assert extended[|rows|].id == t.id;
    forall x | x in Ids(rows)
      ensures x in Ids(extended)
    {
      var i :| 0 <= i < |rows| && rows[i].id == x;
      assert extended[i].id == x;
    }
    if DistinctIds(rows) && t.id !in Ids(rows) {
      forall i | 0 <= i < |rows|
        ensures extended[i].id != t.id
      {
        assert rows[i].id in Ids(rows);
      }
    }
  }

  /** `rows` lists, once each, exactly the rows of `tasks` with ids in `ids`. */
  predicate Lists(tasks: map<TaskId, Task>, rows: seq<Task>, ids: set<TaskId>) {
    && DistinctIds(rows)
    && Ids(rows) == ids
    && forall i :: 0 <= i < |rows| ==> rows[i].id in tasks && tasks[rows[i].id] == rows[i]
  }

  /** The ids among `keys` whose rows satisfy `where`. */
  function Matching(tasks: map<TaskId, Task>, keys: set<TaskId>, where: Task -> bool): set<TaskId> {
    set id | id in keys && id in tasks && where(tasks[id])
  }

  /** One step of a scan over the table: looking at one more key keeps the
      list exact. */
  lemma ScanStep(tasks: map<TaskId, Task>, rows: seq<Task>, done: set<TaskId>,
                 key: TaskId, where: Task -> bool)
    requires Lists(tasks, rows, Matching(tasks, done, where)) && |rows| == |Ids(rows)|
    requires key in tasks && key !in done && tasks[key].id == key
    ensures var next := if where(tasks[key]) then rows + [tasks[key]] else rows;
      Lists(tasks, next, Matching(tasks, done + {key}, where)) && |next| == |Ids(next)|
  {
    if where(tasks[key]) {
      IdsAppend(rows, tasks[key]);
      assert Matching(tasks, done + {key}, where) == Matching(tasks, done, where) + {key};
    } else {
      assert Matching(tasks, done + {key}, where) == Matching(tasks, done, where);
    }
  }

  /** A row that satisfies the schema bounds and holds one of the four codes. */
  predicate WellFormedRow(t: Task) {
    ValidTitle(t.title) && ValidOptDescription(t.description) && t.quadrant in QuadrantCodes
  }

  /** The stored quadrant for an importance and a deadline, at `now`. */
  function QuadrantAt(is_important: bool, deadline_at: Option<Instant>, now: Instant): (s: string)
    ensures ParseQuadrant(s) == Some(Classify(is_important, IsUrgent(deadline_at, now)))
    ensures s in QuadrantCodes
  {
    QuadrantCode(is_important, IsUrgent(deadline_at, now))
  }

  /** With one reading of the clock, the stored quadrant is Q1 or Q2 exactly
      for an important task. */
  lemma QuadrantAtKeepsImportance(is_important: bool, deadline_at: Option<Instant>, now: Instant)
    ensures QuadrantAt(is_important, deadline_at, now) in {"Q1", "Q2"} <==> is_important
  {
    var q := Classify(is_important, IsUrgent(deadline_at, now));
    CodeRoundTrip(q);
    assert QuadrantAt(is_important, deadline_at, now) == Code(q);
  }

  /** The if/elif chain of `create_task` and `update_task` as written. Every
      test of `is_urgent` reads the clock afresh: an important task is read
      at `first` and, when not urgent then, again at `second`; a task that
      is not important is read once, at `first`. */
  function QuadrantAsWritten(is_important: bool, deadline_at: Option<Instant>,
                             first: Instant, second: Instant): (s: string)
    ensures first == second ==> s == QuadrantAt(is_important, deadline_at, first)
    ensures is_important && s == "Q4" ==>
      !IsUrgent(deadline_at, first) && IsUrgent(deadline_at, second)
  {
    if is_important && IsUrgent(deadline_at, first) then "Q1"
    else if is_important && !IsUrgent(deadline_at, second) then "Q2"
    else if !is_important && IsUrgent(deadline_at, first) then "Q3"
    else "Q4"
  }

  /** An important task whose deadline is exactly four days after the first
      reading, read again one microsecond later, falls through to Q4 in the
      chain as written; one reading stores it as Q2. */
  lemma ImportantTaskAtBoundaryStoredAsQ4(first: Instant)
    ensures QuadrantAsWritten(true, Some(first + 4 * MICROS_PER_DAY), first, first + 1) == "Q4"
    ensures QuadrantAt(true, Some(first + 4 * MICROS_PER_DAY), first) == "Q2"
  {
  }

  /** The row `create_task` inserts under `id`: not completed, created at
      `now`, no owner, and the quadrant of its importance and of its
      urgency at `now`. */
  function NewTask(id: TaskId, input: TaskCreate, now: Instant): (t: Task)
    ensures t.id == id && t.title == input.title && t.description == input.description
    ensures t.is_important == input.is_important && t.deadline_at == input.deadline_at
    ensures !t.completed && t.completed_at.None? && t.created_at == now && t.user_id.None?
    ensures ParseQuadrant(t.quadrant) == Some(Classify(t.is_important, IsUrgent(t.deadline_at, now)))
  {
    Task(id, input.title, input.description, input.is_important,
         QuadrantAt(input.is_important, input.deadline_at, now),
         false, now, None, input.deadline_at, None)
  }

  /** A validated create body always yields a well-formed row. */
  lemma NewTaskWellFormed(req: CreateRequest, id: TaskId, now: Instant)
    requires ValidateCreate(req).Some?
    ensures WellFormedRow(NewTask(id, ValidateCreate(req).value, now))
  {
    CreateAcceptance(req, req.deadline_at);
  }

  /** `is_important` or `deadline_at` was sent (even as null), so the
      handler recomputes the quadrant. */
  predicate Recomputes(u: TaskUpdate) {
    !u.is_important.Absent? || !u.deadline_at.Absent?
  }

  /** The update writes NULL into a NOT NULL column, which fails on commit. */
  predicate NullIntoRequired(u: TaskUpdate) {
    u.title.Null? || u.is_important.Null? || u.completed.Null?
  }

  /** The field after `setattr` of a NOT NULL column, if it was sent. */
  function SetOrKeep<T>(f: JsonField<T>, current: T): T
    requires !f.Null?
  {
    if f.Present? then f.value else current
  }

  /** The field after `setattr` of a nullable column, if it was sent. */
  function SetOrClear<T>(f: JsonField<T>, current: Option<T>): Option<T>
  {
    match f
    case Absent => current
    case Null => None
    case Present(v) => Some(v)
  }

  /** The row after a partial update at `now`: every field that was sent
      takes its new value, every other field keeps its own, and the
      quadrant is recomputed only when importance or deadline were sent. */
  function ApplyPatch(t: Task, u: TaskUpdate, now: Instant): (r: Task)
    requires !NullIntoRequired(u)
    ensures r.id == t.id && r.created_at == t.created_at
    ensures r.completed_at == t.completed_at && r.user_id == t.user_id
    ensures u.title.Absent? ==> r.title == t.title
    ensures u.title.Present? ==> r.title == u.title.value
    ensures u.description.Absent? ==> r.description == t.description
    ensures !u.description.Absent? ==> r.description == OrNone(u.description)
    ensures u.is_important.Absent? ==> r.is_important == t.is_important
    ensures u.is_important.Present? ==> r.is_important == u.is_important.value
    ensures u.deadline_at.Absent? ==> r.deadline_at == t.deadline_at
    ensures !u.deadline_at.Absent? ==> r.deadline_at == OrNone(u.deadline_at)
    ensures u.completed.Absent? ==> r.completed == t.completed
    ensures u.completed.Present? ==> r.completed == u.completed.value
    ensures Recomputes(u) ==>
      ParseQuadrant(r.quadrant) == Some(Classify(r.is_important, IsUrgent(r.deadline_at, now)))
    ensures !Recomputes(u) ==> r.quadrant == t.quadrant
  {
    var s := t.(title := SetOrKeep(u.title, t.title),
                description := SetOrClear(u.description, t.description),
                is_important := SetOrKeep(u.is_important, t.is_important),
                deadline_at := SetOrClear(u.deadline_at, t.deadline_at),
                completed := SetOrKeep(u.completed, t.completed));
    if Recomputes(u) then s.(quadrant := QuadrantAt(s.is_important, s.deadline_at, now)) else s
  }

  /** An empty update body changes nothing, and a valid update keeps a row
      well-formed. */
  lemma ApplyPatchFacts(t: Task, u: TaskUpdate, now: Instant)
    requires !NullIntoRequired(u)
    ensures u == TaskUpdate(Absent, Absent, Absent, Absent, Absent) ==> ApplyPatch(t, u, now) == t
    ensures WellFormedRow(t) && ValidUpdate(u) ==> WellFormedRow(ApplyPatch(t, u, now))
  {
  }

  /** `complete_task` on a row: completed, stamped `now`, nothing else. */
  function MarkCompleted(t: Task, now: Instant): (r: Task)
    ensures r.completed && r.completed_at == Some(now)
    ensures r.(completed := t.completed, completed_at := t.completed_at) == t
  {
    t.(completed := true, completed_at := Some(now))
  }

  /** Completing again only refreshes `completed_at`. */
  lemma CompleteTwice(t: Task, first: Instant, second: Instant)
    ensures MarkCompleted(MarkCompleted(t, first), second) == MarkCompleted(t, second)
  {
  }

  /** What `delete_task` reports about the row it removed. */
  datatype Deleted = Deleted(id: TaskId, title: string)

  /** The `tasks` table: rows by primary key, and the next key the
      autoincrement will hand out. */
  class TaskStore {
    var tasks: map<TaskId, Task>
    var nextId: TaskId

    /** Each row is stored under its own id, and every id is below the
        autoincrement counter. */
    ghost predicate Valid()
      reads this
    {
      && 1 <= nextId
      && forall id :: id in tasks ==> tasks[id].id == id && 1 <= id < nextId
    }

    /** Every row satisfies the schema bounds and holds a quadrant code. */
    ghost predicate WellFormed()
      reads this
    {
      forall id :: id in tasks ==> WellFormedRow(tasks[id])
    }

    /** Opens the table as the database holds it: `existing` rows and the
        autoincrement counter `next`. */
    constructor (existing: map<TaskId, Task>, next: TaskId)
      requires 1 <= next
      requires forall id :: id in existing ==> existing[id].id == id && 1 <= id < next
      ensures Valid()
      ensures tasks == existing && nextId == next
    {
      tasks := existing;
      nextId := next;
    }

    /** `select(Task).where(where)`, then `.scalars().all()`: every matching
        row once, in no particular order. */
    method Select(where: Task -> bool) returns (rows: seq<Task>)
      requires Valid()
      ensures Lists(tasks, rows, set id | id in tasks && where(tasks[id]))
      ensures |rows| == |set id | id in tasks && where(tasks[id])|
    {
      rows := [];
      var rest := tasks.Keys;
      ghost var done: set<TaskId> := {};
      while rest != {}
        invariant rest !! done && rest + done == tasks.Keys
        invariant Lists(tasks, rows, Matching(tasks, done, where))
        invariant |rows| == |Ids(rows)|
        decreases rest
      {
        assert (forall k :: k !in rest) ==> rest == {};
        var key :| key in rest;
        ScanStep(tasks, rows, done, key, where);
        if where(tasks[key]) {
          rows := rows + [tasks[key]];
        }
        rest := rest - {key};
        done := done + {key};
      }
      assert Matching(tasks, done, where) == set id | id in tasks && where(tasks[id]);
    }

    /** `POST /tasks`: validate the body, then insert a new row under the
        next id, its quadrant classified at `now`. */
    method CreateTask(req: CreateRequest, now: Instant) returns (r: Result<Task, Error>)
      requires Valid()
      modifies this
      ensures Valid()
      ensures ValidateCreate(req).None? ==>
        r == Err(ValidationFailed) && tasks == old(tasks) && nextId == old(nextId)
      ensures ValidateCreate(req).Some? ==>
        && old(nextId) !in old(tasks)
        && r == Ok(NewTask(old(nextId), ValidateCreate(req).value, now))
        && tasks == old(tasks)[old(nextId) := r.value]
        && nextId == old(nextId) + 1
      ensures old(WellFormed()) ==> WellFormed()
    {
      var input := ValidateCreate(req);
      if input.None? {
        return Err(ValidationFailed);
      }
      var task := Task(nextId, input.value.title, input.value.description,
                       input.value.is_important, "", false, now, None,
                       input.value.deadline_at, None);
      task := task.(quadrant := QuadrantAt(task.is_important, task.deadline_at, now));
      NewTaskWellFormed(req, nextId, now);
      tasks := tasks[nextId := task];
      nextId := nextId + 1;
      r := Ok(task);
    }

    /** `GET /tasks`: every row. */
    method GetAllTasks() returns (rows: seq<Task>)
      requires Valid()
      ensures Lists(tasks, rows, tasks.Keys)
      ensures |rows| == |tasks|
    {
      rows := Select((t: Task) => true);
      assert (set id | id in tasks && true) == tasks.Keys;
    }

    /** `GET /tasks/quadrant/{quadrant}`: 400 for anything but the four
        codes, otherwise the rows whose stored quadrant is that code. */
    method GetTasksByQuadrant(quadrant: string) returns (r: Result<seq<Task>, Error>)
      requires Valid()
      ensures r.Err? <==> quadrant !in QuadrantCodes
      ensures r.Err? ==> r.error == InvalidQuadrant && StatusCode(r.error) == 400
      ensures r.Ok? ==> Lists(tasks, r.value, set id | id in tasks && tasks[id].quadrant == quadrant)
    {
      if quadrant !in ["Q1", "Q2", "Q3", "Q4"] {
        return Err(InvalidQuadrant);
      }
      var rows := Select((t: Task) => t.quadrant == quadrant);
      r := Ok(rows);
    }

    /** The rows whose title or description mentions `q`, ignoring case. */
    ghost function SearchHits(q: string): set<TaskId>
      reads this
    {
      set id | id in tasks &&
        (Occurs(Lower(q), Lower(tasks[id].title)) ||
         (tasks[id].description.Some? && Occurs(Lower(q), Lower(tasks[id].description.value))))
    }

    /** `GET /tasks/search?q=`: a query under two characters fails
        validation; otherwise the rows whose title or description contains
        the query case-insensitively, and 404 when there are none. */
    method SearchTasks(q: string) returns (r: Result<seq<Task>, Error>)
      requires Valid()
      ensures |q| < 2 ==> r == Err(ValidationFailed)
      ensures |q| >= 2 ==> (r == Err(NothingFound) <==> SearchHits(q) == {})
      ensures |q| >= 2 && SearchHits(q) != {} ==> r.Ok?
      ensures r.Ok? ==> |q| >= 2 && r.value != [] && Lists(tasks, r.value, SearchHits(q))
    {
      if |q| < 2 {
        return Err(ValidationFailed);
      }
      var keyword := Lower(q);
      var rows := Select((t: Task) => ILikeContains(t.title, keyword) ||
                              (t.description.Some? && ILikeContains(t.description.value, keyword)));
      forall id | id in tasks
        ensures (ILikeContains(tasks[id].title, keyword) ||
                 (tasks[id].description.Some? && ILikeContains(tasks[id].description.value, keyword)))
            <==> id in SearchHits(q)
      {
        ILikeContainsIff(tasks[id].title, q);
        if tasks[id].description.Some? {
          ILikeContainsIff(tasks[id].description.value, q);
        }
      }
      assert Ids(rows) == SearchHits(q);
      if rows == [] {
        return Err(NothingFound);
      }
      assert rows[0].id in Ids(rows);
      r := Ok(rows);
    }

    /** `GET /tasks/status/{status}`: 404 (not 400) for anything but
        "completed" or "pending", otherwise the rows with that status. */
    method GetTasksByStatus(status: string) returns (r: Result<seq<Task>, Error>)
      requires Valid()
      ensures r.Err? <==> status != "completed" && status != "pending"
      ensures r.Err? ==> r.error == InvalidStatus && StatusCode(r.error) == 404
      ensures r.Ok? ==>
        Lists(tasks, r.value, set id | id in tasks && tasks[id].completed == (status == "completed"))
    {
      if status !in ["completed", "pending"] {
        return Err(InvalidStatus);
      }
      var isCompleted := status == "completed";
      var rows := Select((t: Task) => t.completed == isCompleted);
      r := Ok(rows);
    }

    /** `GET /tasks/{task_id}`: the row, or 404. */
    method GetTaskById(id: TaskId) returns (r: Result<Task, Error>)
      requires Valid()
      ensures r.Ok? <==> id in tasks
      ensures r.Ok? ==> r.value == tasks[id] && r.value.id == id
      ensures r.Err? ==> r.error == TaskNotFound && StatusCode(r.error) == 404
    {
      if id !in tasks {
        return Err(TaskNotFound);
      }
      r := Ok(tasks[id]);
    }

    /** `PUT /tasks/{task_id}`: validate the body, 404 for a missing row,
        otherwise set each field that was sent, recompute the quadrant when
        importance or deadline were sent, and commit; a NULL sent for a NOT
        NULL column makes the commit fail and leaves the row as it was. */
    method UpdateTask(id: TaskId, u: TaskUpdate, now: Instant) returns (r: Result<Task, Error>)
      requires Valid()
      modifies this
      ensures Valid() && nextId == old(nextId)
      ensures !ValidUpdate(u) ==> r == Err(ValidationFailed) && tasks == old(tasks)
      ensures ValidUpdate(u) && id !in old(tasks) ==> r == Err(TaskNotFound) && tasks == old(tasks)
      ensures ValidUpdate(u) && id in old(tasks) && NullIntoRequired(u) ==>
        r == Err(NotNullViolation) && tasks == old(tasks)
      ensures ValidUpdate(u) && id in old(tasks) && !NullIntoRequired(u) ==>
        r == Ok(ApplyPatch(old(tasks)[id], u, now)) && tasks == old(tasks)[id := r.value]
      ensures old(WellFormed()) ==> WellFormed()
    {
      if !ValidUpdate(u) {
        return Err(ValidationFailed);
      }
      if id !in tasks {
        return Err(TaskNotFound);
      }
      if NullIntoRequired(u) {
        return Err(NotNullViolation);
      }
      var task := tasks[id];
      // setattr for each field of the body that was set
      if u.title.Present? {
        task := task.(title := u.title.value);
      }
      if !u.description.Absent? {
        task := task.(description := OrNone(u.description));
      }
      if u.is_important.Present? {
        task := task.(is_important := u.is_important.value);
      }
      if !u.deadline_at.Absent? {
        task := task.(deadline_at := OrNone(u.deadline_at));
      }
      if u.completed.Present? {
        task := task.(completed := u.completed.value);
      }
      if Recomputes(u) {
        task := task.(quadrant := QuadrantAt(task.is_important, task.deadline_at, now));
      }
      ghost var patched := ApplyPatch(tasks[id], u, now);
      assert task.title == patched.title && task.description == patched.description;
      assert task.is_important == patched.is_important && task.deadline_at == patched.deadline_at;
      assert task.completed == patched.completed && task.quadrant == patched.quadrant;
      assert task == patched;
      ApplyPatchFacts(tasks[id], u, now);
      tasks := tasks[id := task];
      r := Ok(task);
    }

    /** `DELETE /tasks/{task_id}`: 404 for a missing row, otherwise remove
        exactly that row and report its id and title. */
    method DeleteTask(id: TaskId) returns (r: Result<Deleted, Error>)
      requires Valid()
      modifies this
      ensures Valid() && nextId == old(nextId)
      ensures id !in old(tasks) ==> r == Err(TaskNotFound) && tasks == old(tasks)
      ensures id in old(tasks) ==>
        r == Ok(Deleted(id, old(tasks)[id].title)) && tasks == old(tasks) - {id}
      ensures old(WellFormed()) ==> WellFormed()
    {
      if id !in tasks {
        return Err(TaskNotFound);
      }
      var task := tasks[id];
      var info := Deleted(task.id, task.title);
      tasks := tasks - {id};
      r := Ok(info);
    }

    /** `PATCH /tasks/{task_id}/complete`: 404 for a missing row, otherwise
        mark it completed at `now`, whether or not it already was. */
    method CompleteTask(id: TaskId, now: Instant) returns (r: Result<Task, Error>)
      requires Valid()
      modifies this
      ensures Valid() && nextId == old(nextId)
      ensures id !in old(tasks) ==> r == Err(TaskNotFound) && tasks == old(tasks)
      ensures id in old(tasks) ==>
        r == Ok(MarkCompleted(old(tasks)[id], now)) && tasks == old(tasks)[id := r.value]
      ensures old(WellFormed()) ==> WellFormed()
    {
      if id !in tasks {
        return Err(TaskNotFound);
      }
      var task := tasks[id];
      task := task.(completed := true);
      task := task.(completed_at := Some(now));
      tasks := tasks[id := task];
      r := Ok(task);
    }
  }
}
