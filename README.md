# Eisenhower-matrix task API — verified model

This project models the core of a small task-management API. The API sorts
to-do items into the four quadrants of an Eisenhower matrix: Q1 is important
and urgent, Q2 is important only, Q3 is urgent only, and Q4 is neither. The
model is written in Dafny and covers four parts of the source:

- **The task row** (`models/task.py`). Its two derived properties are
  modelled on one integer timeline in microseconds, with "now" passed in:
  - `is_urgent`: the task has a deadline and at most three whole days are
    left (`timedelta.days <= 3`).
  - `days_until_deadline`: the whole days from now to the deadline, rounded
    down.

  `ToDict` models the response projection. The handlers return rows
  through `response_model=TaskResponse`, which has the same eleven fields
  as `to_dict` and reads the same two properties (module `TaskModel`).
- **The request schemas** (`schemas.py`). Each JSON field is either left
  out, sent as `null`, or sent with a value. `TaskCreate` requires `title`
  (3–100 characters) and `is_important`. `description` (at most 500
  characters) and `deadline_at` are optional. In `TaskUpdate` every field is
  optional. Neither schema carries `is_urgent` or `quadrant` (module
  `Schemas`).
- **The task router** (`routers/tasks.py`). A class `TaskStore` owns the
  `tasks` table as a map from id to row, plus the autoincrement counter. It
  has one method per handler: create, list, filter by quadrant or status,
  search, get, partial update, complete and delete. The quadrant mapping is
  written out twice in the source; here it is the one total function
  `Quadrants.Classify`. A query `select(Task).where(...)` becomes
  `TaskStore.Select`. Select returns every matching row once, in no
  particular order.
- **The statistics router** (`routers/stats.py`). This part computes counts
  by quadrant and by status, and the list of pending tasks that have a
  deadline. Both are limited to the caller's scope. An admin's scope is
  every row; anyone else's scope is the rows they own (module
  `StatsRouter`).

Points to note about the source, which the model follows:

- The task router checks no ownership and never answers 403.
- An unknown status literal gets 404, while an unknown quadrant gets 400.
- A search with no match gets 404.
- `days_until_deadline` in the deadline listing counts from the task's
  creation, not from now.
- The statistics report counts only, and no completion times.
- `quadrant` is stored, but `is_urgent` is recomputed at every read, so a
  later read can disagree with the stored quadrant.
- Every read of `is_urgent` or `days_until_deadline` takes a fresh clock.
  The model takes one `now` per request. So it shows the stored quadrant
  agreeing with urgency at one instant of the write. The source's chain
  reads the clock twice for an important task and can miss both
  quadrants of importance; see "## Findings".
- `completed_at` is not tied to `completed`. An update may set `completed`
  either way and leave `completed_at` untouched.
- The `Task` model declares no `user_id`, yet the statistics filter on it.
  Here `user_id` is an optional owner. `create_task` records no owner, so
  `CreateTask` stores `None`. Owned rows can only come from the table's
  existing contents, which the `TaskStore` constructor takes.
- An update that sends `null` for a NOT NULL column (`title`,
  `is_important`, `completed`) passes the schema. The commit then fails, the
  framework answers 500, and the row stays as it was. The model returns
  `NotNullViolation` for this case.

## Model

| member | source | states |
|---|---|---|
| `TaskModel.FloorDays` | models/task.py:26 | `timedelta.days` of a difference d is the integer n with n days <= d < n + 1 days (floor, so negative for any past instant) |
| `TaskModel.FloorDaysUnique` | models/task.py:26 | only one integer has that floor property |
| `TaskModel.IsUrgent` | models/task.py:20-27 | no deadline is never urgent; with a deadline, urgent iff deadline − now < 4 days |
| `TaskModel.DaysUntilDeadline` | models/task.py:29-35 | absent iff there is no deadline; otherwise the floor of (deadline − now) in days, negative exactly when the deadline has passed |
| `TaskModel.UrgentIffFewDaysLeft` | models/task.py:26-35 | for the same now, urgent iff `days_until_deadline` is present and at most 3 |
| `TaskModel.OverdueIsUrgent` | models/task.py:25-27 | every task whose deadline has passed is urgent |
| `TaskModel.ToDict` | models/task.py:37-50 | the stored fields unchanged, `is_urgent` and `days_until_deadline` equal to `IsUrgent` and `DaysUntilDeadline` of the deadline at now; hence the day count is absent iff there is no deadline, and urgent iff it is present and at most 3 |
| `Quadrants.Classify` | routers/tasks.py:32-39 | total mapping whose quadrant gives back exactly the (important, urgent) pair it was computed from |
| `Quadrants.ClassifyOnto` | routers/tasks.py:139-146 | every quadrant is reached, by its own pair |
| `Quadrants.ParseQuadrant` | routers/tasks.py:61-65 | accepts exactly the literals Q1–Q4 and inverts `Code` on them |
| `Quadrants.CodeRoundTrip` | routers/tasks.py:61 | every stored code is one of the accepted literals and parses back to its quadrant |
| `Quadrants.QuadrantCode` | models/task.py:14 | the stored code of a classification is one of Q1–Q4 and parses to that classification |
| `Text.Lower` | routers/tasks.py:79 | `q.lower()` on ASCII: same length, each letter A–Z mapped to its lower case, every other character kept |
| `Text.ILikeContains` | routers/tasks.py:85-86 | `text ILIKE '%keyword%'` holds exactly when the lower-cased keyword occurs at some index of the lower-cased text |
| `Text.LowerIdempotent` | routers/tasks.py:79 | lower-casing twice equals lower-casing once, so `q.lower()` before a case-insensitive match changes nothing |
| `Text.IsSubstringIff` | routers/tasks.py:79-87 | the left-to-right substring test holds exactly when the pattern occurs at some index of the text |
| `Text.ILikeContainsIff` | routers/tasks.py:84-87 | `text ILIKE '%lower(q)%'` holds exactly when lower(q) occurs in lower(text) |
| `Schemas.ValidateCreate` | schemas.py:7-17 | accepted iff a title of 3–100 characters and `is_important` are sent and any description sent is at most 500 characters; missing or null optional fields read as None |
| `Schemas.CreateAcceptance` | schemas.py:8-12 | an accepted body meets the bounds, and the optional deadline never decides acceptance |
| `Schemas.ValidUpdate` | schemas.py:21-27 | an update body passes the schema iff a title sent with a value has 3–100 characters and a description sent with a value has at most 500; every field may be left out or sent as null |
| `Schemas.UpdateFieldsOptional` | schemas.py:21-27 | leaving out or nulling any field keeps a valid update valid; the empty body is valid |
| `TaskRouter.StatusCode` | routers/tasks.py:61-122 | 422 exactly for a body or query that fails validation, 400 exactly for an unknown quadrant, 404 exactly for an unknown status, a missing task or an empty search, 500 exactly for a NULL into a NOT NULL column |
| `TaskRouter.QuadrantAt` | routers/tasks.py:139-146 | the recomputed code is one of Q1–Q4 and is the classification of importance and urgency at now |
| `TaskRouter.QuadrantAtKeepsImportance` | routers/tasks.py:32-39 | with one clock reading, the stored code is Q1 or Q2 exactly when the task is important |
| `TaskRouter.QuadrantAsWritten` | routers/tasks.py:32-39 | the chain as written, with every `is_urgent` test reading the clock again: it agrees with `QuadrantAt` when both readings coincide, and stores Q4 for an important task only when it was not urgent at the first reading and urgent at the second |
| `TaskRouter.ImportantTaskAtBoundaryStoredAsQ4` | routers/tasks.py:32-39 | a deadline exactly four days after the first reading, read again one microsecond later: Q4 as written, Q2 with one reading |
| `TaskRouter.NewTask` | routers/tasks.py:21-39 | the inserted row takes the input's fields, is not completed, has no completion time, is created at now, has no owner, and its quadrant is the classification at now |
| `TaskRouter.NewTaskWellFormed` | routers/tasks.py:18-39 | a row created from an accepted body satisfies the bounds and holds one of the four codes |
| `TaskRouter.Recomputes` | routers/tasks.py:138 | the quadrant is recomputed iff the body sent `is_important` or `deadline_at`, even as null |
| `TaskRouter.NullIntoRequired` | models/task.py:10-15 | the body sends null for `title`, `is_important` or `completed`, the NOT NULL columns it can set |
| `TaskRouter.ApplyPatch` | routers/tasks.py:133-146 | fields sent take their new value (null clears a nullable field), fields not sent and id, created_at, completed_at and owner are kept; the quadrant is recomputed at now iff importance or deadline was sent, else kept |
| `TaskRouter.ApplyPatchFacts` | routers/tasks.py:133-146 | an empty body changes nothing; a valid body keeps a row well-formed |
| `TaskRouter.MarkCompleted` | routers/tasks.py:188-189 | completed, `completed_at` = now, every other field as before |
| `TaskRouter.CompleteTwice` | routers/tasks.py:188-189 | completing again equals completing once at the later time |
| `TaskRouter.TaskStore.constructor` | models/task.py:6-18 | the table holds the given rows, each under its own id, below the autoincrement counter |
| `TaskRouter.TaskStore.Select` | routers/tasks.py:67-70 | lists every row that satisfies the filter exactly once, each as stored, and no other row |
| `TaskRouter.TaskStore.CreateTask` | routers/tasks.py:18-45 | an invalid body fails with 422 and changes nothing; otherwise exactly one new row under a fresh id, equal to `NewTask`, and nothing else changes |
| `TaskRouter.TaskStore.GetAllTasks` | routers/tasks.py:47-53 | every row once |
| `TaskRouter.TaskStore.GetTasksByQuadrant` | routers/tasks.py:55-71 | 400 iff the argument is not one of Q1–Q4; otherwise exactly the rows whose stored quadrant equals it |
| `TaskRouter.TaskStore.SearchTasks` | routers/tasks.py:74-92 | a query under 2 characters fails validation; for a longer query, 404 iff no title or non-null description contains the query ignoring case, and otherwise success with exactly those rows |
| `TaskRouter.TaskStore.GetTasksByStatus` | routers/tasks.py:94-108 | 404 iff the status is neither "completed" nor "pending"; otherwise exactly the rows whose `completed` equals (status == "completed") |
| `TaskRouter.TaskStore.GetTaskById` | routers/tasks.py:110-123 | the row with that id iff it exists, else 404 |
| `TaskRouter.TaskStore.UpdateTask` | routers/tasks.py:126-151 | 422 for an invalid body, 404 for a missing id, 500 for a null into a NOT NULL column, each leaving the table unchanged; otherwise only that row changes, to `ApplyPatch` of it at now |
| `TaskRouter.TaskStore.DeleteTask` | routers/tasks.py:153-175 | 404 and no change for a missing id; otherwise removes exactly that row and returns its id and title |
| `TaskRouter.TaskStore.CompleteTask` | routers/tasks.py:177-194 | 404 and no change for a missing id; otherwise only that row changes, to `MarkCompleted` at now, whatever its previous state |
| `StatsRouter.InScope` | routers/stats.py:20-22 | a row is in the caller's scope iff the caller is an admin or owns the row |
| `StatsRouter.ScopeByRole` | routers/stats.py:20-22 | an admin's scope is every row; anyone else's is exactly the rows they own |
| `StatsRouter.CountWhereIsCardinality` | routers/stats.py:31-36 | counting matches over the selected rows gives the number of matching ids in the scope |
| `StatsRouter.StatusPartition` | routers/stats.py:33-36 | completed plus pending rows are all the rows |
| `StatsRouter.QuadrantPartition` | routers/stats.py:28-32 | when every row holds one of Q1–Q4, the four quadrant counts add up to the number of rows |
| `StatsRouter.Tally` | routers/stats.py:28-36 | after the loop, the quadrant counters are keyed by the four codes plus every code seen, each counter counts the rows with that code, and the status counters count the completed and the pending rows |
| `StatsRouter.GetTasksStats` | routers/stats.py:15-42 | over the caller's scope: `total_tasks` is the number of rows, each quadrant key counts exactly its rows, completed and pending count their rows and add up to the total; on a well-formed table the keys are Q1–Q4 and their counts add up to the total |
| `StatsRouter.PendingWithDeadline` | routers/stats.py:49-51 | the deadline listing takes a row iff it is not completed, has a deadline, and is in the caller's scope |
| `StatsRouter.ToEntry` | routers/stats.py:59-65 | an entry keeps id, title, description and deadline, and its day count is `days_until_deadline` measured from `created_at` |
| `StatsRouter.GetPendingTasksWithDeadlines` | routers/stats.py:44-70 | exactly one entry per in-scope row that is not completed and has a deadline; the total equals the list length; each entry's day count is the floor of (deadline − created_at) in days |

## Left out

- TaskRouter.NewTask, TaskRouter.ApplyPatch and TaskModel.ToDict read one `now` for all of a request's reads of `is_urgent` and `days_until_deadline`. The source reads the clock at each of them (models/task.py:25 and 34). Two effects are therefore not modelled:
  - at the four-day boundary, the chain can store Q4 for an important task (this is in "## Findings");
  - `to_dict` can pair `is_urgent = false` with `days_until_deadline = 3`.
- HTTP routing, dependency injection, authentication and the async database session are not modelled. The table is an in-memory map; commit and refresh are the map update.
- The caller is a plain (id, role) value. Server-side timestamps and `datetime.now()` are a `now` parameter on one timeline in microseconds.
- Naive and timezone-aware datetimes are not distinguished.
- FastAPI's response validation against `TaskResponse` is not modelled.
- The message texts of errors and of the delete confirmation are not modelled; errors are values with their status codes.
- Path parameters that fail to parse (a non-integer id) and a missing `q` are not modelled.
- Search: `%` and `_` inside the query act as `ILIKE` wildcards in the source; the model matches them literally.
- Text.Lower: only ASCII letters are lower-cased, where Python and the database fold all of Unicode.
- The column default `is_important = False` (models/task.py:12) is not modelled. `create_task` always passes the value, because the schema requires it. An update that sends `null` fails as a NOT NULL violation.
- The unused local `days_left` at routers/stats.py:58 is not modelled.
- routers/admin.py and main.py are not part of this model. They hold a thin ORM query and the application wiring, and no task logic.
- The user model is not part of this model. A role is either `Admin` or `User`.

## Findings

| source | as written | input that shows it | evidently intended | confidence | as-written member | corrected member |
|---|---|---|---|---|---|---|
| routers/tasks.py:32-39 | For an important task, the if/elif chain reads `is_urgent` at line 32 and again at line 34. Each read takes a fresh clock. The same chain is at routers/tasks.py:139-146. | An important task whose deadline is exactly 4 days after the first read, with the second read 1 µs later. Line 32 sees 4 days left and is not urgent. Line 34 sees 3 days left and is urgent. The task falls through to Q4. | The quadrant is classified from one urgency value, so an important task is always stored as Q1 or Q2 (here Q2). | not executed; the effect needs the clock to advance between the two reads | `TaskRouter.QuadrantAsWritten`, with `TaskRouter.ImportantTaskAtBoundaryStoredAsQ4` | `TaskRouter.QuadrantAt`, with `TaskRouter.QuadrantAtKeepsImportance` |
