/**
 * The records of the task tracker (app/models.py and the plain objects the
 * Express backend builds): tags, subtasks, tasks, the request bodies of the
 * routers, the statistics record, and the error kinds the routers report.
 *
 * Time is modelled on integers: a Timestamp is a count of milliseconds since
 * the epoch (UTC) and a Day is a count of calendar days since 1970-01-01.
 */
module Model {

  datatype Option<T> = None | Some(value: T)

  /** The three kinds of failure a router reports (HTTP 404, 400/422, 409). */
  datatype Error = NotFound | ValidationError | Conflict

  datatype Result<T> = Ok(value: T) | Err(error: Error)

  type Timestamp = int
  type Day = int

  const MillisPerDay: int := 86400000

  /** The calendar day a timestamp falls on (start-of-day truncation). */
  function DayOf(t: Timestamp): (d: Day)
    ensures d * MillisPerDay <= t < (d + 1) * MillisPerDay
  {
    t / MillisPerDay
  }

  /** Day of the week with Sunday = 0, as JavaScript's getDay; day 0 (1970-01-01) was a Thursday. */
  function DayOfWeek(d: Day): (w: nat)
    ensures w < 7
    ensures d == 0 ==> w == 4
  {
    (d + 4) % 7
  }

  /** The Sunday on or before a day (date-fns startOfWeek with weekStartsOn = 0). */
  function StartOfWeek(d: Day): (s: Day)
    ensures s <= d < s + 7
    ensures DayOfWeek(s) == 0
  {
    d - DayOfWeek(d)
  }

  /** A task's type: exactly one of "simple" or "advanced" (Literal["simple", "advanced"]). */
  datatype TaskKind = Simple | Advanced

  datatype Tag = Tag(id: string, name: string, color: string, createdAt: Timestamp, updatedAt: Timestamp)

  datatype SubTask = SubTask(id: string, title: string, completed: bool)

  datatype Task = Task(
    id: string,
    title: string,
    kind: TaskKind,
    completed: bool,
    archived: bool,
    createdAt: Timestamp,
    completedAt: Option<Timestamp>,
    updatedAt: Timestamp,
    tags: seq<string>,
    subTasks: seq<SubTask>)

  /** Body of a task creation request; subTaskTitles are the titles of SubTaskCreate items. */
  datatype TaskCreate = TaskCreate(title: string, kind: TaskKind, tags: seq<string>, subTaskTitles: seq<string>)

  /** Body of a task PATCH; None is a field that was not supplied. */
  datatype TaskUpdate = TaskUpdate(title: Option<string>, completed: Option<bool>, archived: Option<bool>, tags: Option<seq<string>>)

  /** Body of a subtask PATCH; None is a field that was not supplied. */
  datatype SubTaskUpdate = SubTaskUpdate(title: Option<string>, completed: Option<bool>)

  /** Body of a tag PATCH; None is a field that was not supplied. */
  datatype TagUpdate = TagUpdate(name: Option<string>, color: Option<string>)

  datatype TaskStatistics = TaskStatistics(total: nat, completed: nat, active: nat, advanced: nat, archived: nat)

  /** One day of a contribution series. */
  datatype ContributionDay = ContributionDay(date: Day, count: nat)

  predicate IsHexDigit(c: char)
  {
    ('0' <= c <= '9') || ('A' <= c <= 'F') || ('a' <= c <= 'f')
  }

  /** The colour pattern ^#[0-9A-Fa-f]{6}$ of Tag.color and TagUpdate.color. */
  predicate IsHexColor(s: string)
  {
    |s| == 7 && s[0] == '#' && forall i :: 1 <= i < 7 ==> IsHexDigit(s[i])
  }

  /** A subtask as the SubTask model builds it: completed defaults to false. */
  function NewSubTask(id: string, title: string): (s: SubTask)
    ensures s.id == id && s.title == title && !s.completed
  {
    SubTask(id, title, false)
  }

  /**
   * A task as the Task model builds it from the supplied fields: not completed,
   * not archived, no completion time, created and updated at `now`.
   */
  function NewTask(id: string, title: string, kind: TaskKind, tags: seq<string>, subTasks: seq<SubTask>, now: Timestamp): (t: Task)
    ensures t.id == id && t.title == title && t.kind == kind && t.tags == tags && t.subTasks == subTasks
    ensures !t.completed && !t.archived && t.completedAt == None
    ensures t.createdAt == now && t.updatedAt == now
  {
    Task(id, title, kind, false, false, now, None, now, tags, subTasks)
  }

  /** completedAt is set exactly when the task is completed (the intended record invariant). */
  predicate CompletedAtConsistent(t: Task)
  {
    t.completedAt.Some? <==> t.completed
  }

  /** The colours the dashboard seeds and uses as defaults all satisfy the pattern; near misses do not. */
  lemma HexColorExamples()
    ensures IsHexColor("#4285F4") && IsHexColor("#EA4335") && IsHexColor("#fbbc04") && IsHexColor("#34A853")
    ensures !IsHexColor("") && !IsHexColor("4285F4") && !IsHexColor("#4285F") && !IsHexColor("#4285F4 ")
    ensures !IsHexColor("#4285G4")
  {
    assert "#4285G4"[5] == 'G' && !IsHexDigit('G');
  }
}
