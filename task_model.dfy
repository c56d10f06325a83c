/** The Task row (models/task.py) and its two derived properties,
    `is_urgent` and `days_until_deadline`, on one integer timeline. */
module TaskModel {
  import opened Basics

  /** An instant, in microseconds on a single timeline; "now" is always a
      parameter, never read from a clock. */
  type Instant = int
  type TaskId = int
  type UserId = int

  /** Length of one `timedelta(days=1)` in microseconds. */
  const MICROS_PER_DAY: int := 86_400_000_000

  /** A stored row of the `tasks` table. `user_id` is not a column of the
      source's model, but the statistics router filters on it; here it is
      an optional owner so that the scoping can be stated. */
  datatype Task = Task(
    id: TaskId,
    title: string,
    description: Option<string>,
    is_important: bool,
    quadrant: string,
    completed: bool,
    created_at: Instant,
    completed_at: Option<Instant>,
    deadline_at: Option<Instant>,
    user_id: Option<UserId>)

  /** `timedelta.days` of a difference `delta`: the whole number of days,
      rounded towards minus infinity. */
  function FloorDays(delta: int): (days: int)
    ensures MICROS_PER_DAY * days <= delta < MICROS_PER_DAY * (days + 1)
  {
    delta / MICROS_PER_DAY
  }

  /** `FloorDays` is the only integer with the floor property. */
  lemma FloorDaysUnique(delta: int, d: int)
    requires MICROS_PER_DAY * d <= delta < MICROS_PER_DAY * (d + 1)
    ensures FloorDays(delta) == d
  {
    var f := FloorDays(delta);
    assert f < d ==> MICROS_PER_DAY * (f + 1) <= MICROS_PER_DAY * d;
    assert f > d ==> MICROS_PER_DAY * (d + 1) <= MICROS_PER_DAY * f;
  }

  /** The `is_urgent` property: no deadline is never urgent; otherwise urgent
      when at most three whole days are left. Equivalently: the deadline is
      less than four days after `now`, so every overdue task is urgent. */
  function IsUrgent(deadline_at: Option<Instant>, now: Instant): (urgent: bool)
    ensures deadline_at.None? ==> !urgent
    ensures deadline_at.Some? ==> (urgent <==> deadline_at.value - now < 4 * MICROS_PER_DAY)
  {
    match deadline_at
    case None => false
    case Some(d) =>
      var daysLeft := FloorDays(d - now);
      assert daysLeft <= 3 <==> d - now < 4 * MICROS_PER_DAY by {
        if daysLeft >= 4 {
          assert MICROS_PER_DAY * 4 <= MICROS_PER_DAY * daysLeft;
        }
      }
      daysLeft <= 3
  }

  /** The `days_until_deadline` property: absent without a deadline,
      otherwise the whole days from `now` to the deadline, negative exactly
      when the deadline has passed. */
  function DaysUntilDeadline(deadline_at: Option<Instant>, now: Instant): (days: Option<int>)
    ensures days.None? <==> deadline_at.None?
    ensures days.Some? ==>
      MICROS_PER_DAY * days.value <= deadline_at.value - now < MICROS_PER_DAY * (days.value + 1)
    ensures days.Some? ==> (days.value < 0 <==> deadline_at.value < now)
  {
    match deadline_at
    case None => None
    case Some(d) =>
      var days := FloorDays(d - now);
      assert days < 0 <==> d < now by {
        if days < 0 {
          assert MICROS_PER_DAY * (days + 1) <= 0;
        }
      }
      Some(days)
  }

  /** For one "now", urgency is "some deadline, at most three days left". */
  lemma UrgentIffFewDaysLeft(deadline_at: Option<Instant>, now: Instant)
    ensures IsUrgent(deadline_at, now) <==>
      (DaysUntilDeadline(deadline_at, now).Some? && DaysUntilDeadline(deadline_at, now).value <= 3)
  {
  }

  /** Every task whose deadline has passed is urgent. */
  lemma OverdueIsUrgent(deadline: Instant, now: Instant)
    requires deadline < now
    ensures IsUrgent(Some(deadline), now)
  {
  }

  /** The `to_dict` projection, taken at instant `now`. */
  datatype TaskView = TaskView(
    id: TaskId,
    title: string,
    description: Option<string>,
    is_important: bool,
    is_urgent: bool,
    quadrant: string,
    completed: bool,
    created_at: Instant,
    completed_at: Option<Instant>,
    deadline_at: Option<Instant>,
    days_until_deadline: Option<int>)

  /** `to_dict`: the stored fields as they are, plus the two derived values
      computed at `now`, which agree with each other. */
  function ToDict(t: Task, now: Instant): (v: TaskView)
    ensures v.id == t.id && v.title == t.title && v.description == t.description
    ensures v.is_important == t.is_important && v.quadrant == t.quadrant
    ensures v.completed == t.completed && v.created_at == t.created_at
    ensures v.completed_at == t.completed_at && v.deadline_at == t.deadline_at
    ensures v.is_urgent == IsUrgent(t.deadline_at, now)
    ensures v.days_until_deadline == DaysUntilDeadline(t.deadline_at, now)
    ensures v.days_until_deadline.None? <==> t.deadline_at.None?
    ensures v.is_urgent <==> v.days_until_deadline.Some? && v.days_until_deadline.value <= 3
  {
    UrgentIffFewDaysLeft(t.deadline_at, now);
    TaskView(t.id, t.title, t.description, t.is_important, IsUrgent(t.deadline_at, now),
             t.quadrant, t.completed, t.created_at, t.completed_at, t.deadline_at,
             DaysUntilDeadline(t.deadline_at, now))
  }
}
