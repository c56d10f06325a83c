/** The Pydantic request schemas of schemas.py: `TaskCreate` (all fields of
    `TaskBase`) and the all-optional `TaskUpdate`. Neither carries
    `is_urgent` or `quadrant`, so a caller can never set them. */
module Schemas {
  import opened Basics
  import opened TaskModel

  /** One field of a JSON request body: left out, sent as `null`, or sent
      with a value. `exclude_unset` tells the first apart from the second. */
  datatype JsonField<+T> = Absent | Null | Present(value: T)

  /** `min_length=3, max_length=100` on `title`. */
  predicate ValidTitle(s: string) { 3 <= |s| <= 100 }

  /** `max_length=500` on `description`. */
  predicate ValidDescription(s: string) { |s| <= 500 }

  /** An optional description: absent, or within its bound. */
  predicate ValidOptDescription(d: Option<string>) { d.Some? ==> ValidDescription(d.value) }

  /** The body of `POST /tasks` as it arrives. */
  datatype CreateRequest = CreateRequest(
    title: JsonField<string>,
    description: JsonField<string>,
    is_important: JsonField<bool>,
    deadline_at: JsonField<Instant>)

  /** A validated `TaskCreate`. */
  datatype TaskCreate = TaskCreate(
    title: string,
    description: Option<string>,
    is_important: bool,
    deadline_at: Option<Instant>)

  /** `Optional[...] = Field(None)`: a missing or null field reads as None. */
  function OrNone<T>(f: JsonField<T>): (o: Option<T>)
    ensures o.Some? <==> f.Present?
    ensures o.Some? ==> o.value == f.value
  {
    match f
    case Present(v) => Some(v)
    case _ => None
  }

  /** Validation of a `TaskCreate` body: `title` and `is_important` are
      required and not nullable, `description` and `deadline_at` optional. */
  function ValidateCreate(req: CreateRequest): (r: Option<TaskCreate>)
    ensures r.Some? <==>
      && req.title.Present? && ValidTitle(req.title.value)
      && (req.description.Present? ==> ValidDescription(req.description.value))
      && req.is_important.Present?
    ensures r.Some? ==>
      && r.value.title == req.title.value
      && r.value.description == OrNone(req.description)
      && r.value.is_important == req.is_important.value
      && r.value.deadline_at == OrNone(req.deadline_at)
  {
    match (req.title, req.is_important)
    case (Present(title), Present(important)) =>
      var description := OrNone(req.description);
      if ValidTitle(title) && ValidOptDescription(description) then
        Some(TaskCreate(title, description, important, OrNone(req.deadline_at)))
      else None
    case _ => None
  }

  /** Whatever is accepted satisfies the field bounds, and the deadline never
      decides acceptance. */
  lemma CreateAcceptance(req: CreateRequest, deadline: JsonField<Instant>)
    ensures ValidateCreate(req).Some? ==>
      ValidTitle(ValidateCreate(req).value.title) && ValidOptDescription(ValidateCreate(req).value.description)
    ensures ValidateCreate(req.(deadline_at := deadline)).Some? == ValidateCreate(req).Some?
  {
  }

  /** The body of `PUT /tasks/{id}`: every field optional. */
  datatype TaskUpdate = TaskUpdate(
    title: JsonField<string>,
    description: JsonField<string>,
    is_important: JsonField<bool>,
    deadline_at: JsonField<Instant>,
    completed: JsonField<bool>)

  /** Validation of a `TaskUpdate` body: a title or description that is sent
      with a value keeps its bounds; `null` passes the schema. */
  predicate ValidUpdate(u: TaskUpdate) {
    && (u.title.Present? ==> ValidTitle(u.title.value))
    && (u.description.Present? ==> ValidDescription(u.description.value))
  }

  /** Leaving any field out, or sending it as null, never makes a valid
      update body invalid. */
  lemma UpdateFieldsOptional(u: TaskUpdate, f: JsonField<string>, g: JsonField<bool>, h: JsonField<Instant>)
    requires ValidUpdate(u)
    requires !f.Present? && !g.Present?
    ensures ValidUpdate(u.(title := f)) && ValidUpdate(u.(description := f))
    ensures ValidUpdate(u.(is_important := g)) && ValidUpdate(u.(completed := g))
    ensures ValidUpdate(u.(deadline_at := h))
    ensures ValidUpdate(TaskUpdate(Absent, Absent, Absent, Absent, Absent))
  {
  }
}
