/**
 * The task router of the Express backend (src/routes/tasks.js) where it
 * differs from the Python router: unvalidated paging with its totalPages
 * arithmetic, the PATCH completion rule, and the subtask PATCH and toggle,
 * which find the subtask with `findIndex`. The handlers both routers share are
 * in TaskRoutes.
 */
module JsTasks {
  import opened Model
  import opened Seqs
  import opened Storage
  import opened TaskRules
  import PyTasks

  /**
   * `total > 0 ? Math.ceil(total / limit) : 1` on the unvalidated limit.
   * A zero limit makes the quotient Infinity, which JSON serialises as null:
   * that is None here. For a positive limit it is the validated TotalPages;
   * for a negative one it is the ceiling of a negative quotient.
   */
  function JsTotalPages(total: nat, limit: int): (r: Option<int>)
    ensures total == 0 ==> r == Some(1)
    ensures total > 0 && limit == 0 ==> r == None
    ensures limit >= 1 ==> r == Some(TotalPages(total, limit))
    ensures total > 0 && limit < 0 ==> r.Some? && r.value <= 0 && r.value * limit <= total < (r.value - 1) * limit
  {
    if total == 0 then Some(1)
    else if limit == 0 then None
    else if limit > 0 then Some((total + limit - 1) / limit)
    else Some(-(total / -limit))
  }

  /**
   * GET /tasks: no parameter is validated; the page, the number of matching
   * stored tasks and totalPages as the route computes it.
   */
  method ListTasksRoute(store: InMemoryStorage, q: TaskQuery) returns (page: TaskPage, pages: Option<int>)
    ensures 0 <= q.limit ==> |page.tasks| <= q.limit
    ensures page.total == CountWhere(store.tasks, MatchesQuery(q))
    ensures pages == JsTotalPages(page.total, q.limit)
  {
    var ks;
    page, ks := store.GetAllTasks(q);
    pages := JsTotalPages(page.total, q.limit);
  }

  /**
   * PATCH /tasks/:taskId's new record: supplied fields replace the stored
   * ones; a supplied `completed` sets completedAt to now when true and clears
   * it when false, so completing an already completed task re-stamps it.
   */
  function JsApplyUpdate(t: Task, u: TaskUpdate, now: Timestamp): (r: Task)
    ensures r.title == (if u.title.Some? then u.title.value else t.title)
    ensures r.completed == (if u.completed.Some? then u.completed.value else t.completed)
    ensures r.archived == (if u.archived.Some? then u.archived.value else t.archived)
    ensures r.tags == (if u.tags.Some? then u.tags.value else t.tags)
    ensures u.completed == Some(true) ==> r.completedAt == Some(now)
    ensures u.completed == Some(false) ==> r.completedAt == None
    ensures u.completed.None? ==> r.completedAt == t.completedAt
    ensures SameIdentity(t, r) && r.subTasks == t.subTasks && r.updatedAt == now
  {
    var t' := t.(title := if u.title.Some? then u.title.value else t.title,
                 tags := if u.tags.Some? then u.tags.value else t.tags,
                 archived := if u.archived.Some? then u.archived.value else t.archived,
                 updatedAt := now);
    if u.completed.Some? then
      t'.(completed := u.completed.value, completedAt := if u.completed.value then Some(now) else None)
    else t'
  }

  /**
   * A PATCH that supplies `completed` always leaves completedAt consistent;
   * one that does not keeps it consistent.
   */
  lemma JsApplyUpdateConsistent(t: Task, u: TaskUpdate, now: Timestamp)
    requires u.completed.Some? || CompletedAtConsistent(t)
    ensures CompletedAtConsistent(JsApplyUpdate(t, u, now))
  {
  }

  /**
   * The two backends agree on a PATCH except in one case: completing a task
   * that is already completed keeps its stamp in Python and re-stamps it in
   * Express.
   */
  lemma UpdateBackendsAgree(t: Task, u: TaskUpdate, now: Timestamp)
    ensures !(u.completed == Some(true) && t.completed) ==> JsApplyUpdate(t, u, now) == PyTasks.PyApplyUpdate(t, u, now)
    ensures u.completed == Some(true) && t.completed ==>
      JsApplyUpdate(t, u, now) == PyTasks.PyApplyUpdate(t, u, now).(completedAt := Some(now))
  {
  }

  /** PATCH /tasks/:taskId: NotFound, then the tag check when tags are supplied, then the update. */
  method UpdateTaskRoute(store: InMemoryStorage, id: string, u: TaskUpdate, now: Timestamp) returns (r: Result<Task>)
    modifies store
    ensures id !in old(store.tasks) ==> r == Err(NotFound)
    ensures id in old(store.tasks) && u.tags.Some? && !AllTagsExist(old(store.tags), u.tags.value) ==> r == Err(ValidationError)
    ensures id in old(store.tasks) && (u.tags.None? || AllTagsExist(old(store.tags), u.tags.value)) ==>
      r == Ok(JsApplyUpdate(old(store.tasks)[id], u, now))
    ensures store.tasks == (if r.Ok? then old(store.tasks)[id := r.value] else old(store.tasks))
    ensures store.tags == old(store.tags)
  {
    var found := store.GetTask(id);
    if found.None? {
      return Err(NotFound);
    }
    if u.tags.Some? {
      var missing := MissingTag(store.tags, u.tags.value);
      if missing.Some? {
        return Err(ValidationError);
      }
    }
    var t := JsApplyUpdate(found.value, u, now);
    var _ := store.UpdateTask(id, t);
    r := Ok(t);
  }

  /**
   * The completion rule of the subtask PATCH as written: the task's
   * completion becomes whether every subtask is done, but completedAt is
   * only ever stamped (on a new completion), never cleared.
   */
  function JsCompleteAsWritten(t: Task, subs: seq<SubTask>, now: Timestamp): (r: Task)
    ensures r.subTasks == subs && r.updatedAt == now
    ensures r.completed == SubTasksDone(subs)
    ensures r.completedAt == (if SubTasksDone(subs) && !t.completed then Some(now) else t.completedAt)
    ensures SameIdentity(t, r) && r.title == t.title && r.tags == t.tags && r.archived == t.archived
  {
    var done := SubTasksDone(subs);
    t.(subTasks := subs, completed := done, completedAt := if done && !t.completed then Some(now) else t.completedAt, updatedAt := now)
  }

  /** PATCH /tasks/:taskId/subtasks/:subtaskId as written: edit the first subtask with the id, then the rule above. */
  function JsUpdateSubTaskAsWritten(t: Task, subId: string, u: SubTaskUpdate, now: Timestamp): (r: Result<Task>)
    ensures r.Err? <==> FirstIndex(t.subTasks, subId).None?
    ensures r.Err? ==> r.error == NotFound
    ensures r.Ok? ==> r.value.completed == SubTasksDone(r.value.subTasks)
  {
    match FirstIndex(t.subTasks, subId)
    case None => Err(NotFound)
    case Some(i) => Ok(JsCompleteAsWritten(t, t.subTasks[i := EditSubTask(t.subTasks[i], u)], now))
  }

  /**
   * Reopening a subtask of a completed task through the PATCH leaves the task
   * not completed but still carrying its completedAt, so it goes on counting
   * as a completion in the contribution report.
   */
  lemma JsUpdateSubTaskStaleStamp()
    ensures var t := Task("t", "Ship", Advanced, true, false, 0, Some(5), 5, [], [SubTask("s", "Write", true)]);
      var r := JsUpdateSubTaskAsWritten(t, "s", SubTaskUpdate(None, Some(false)), 9);
      && CompletedAtConsistent(t)
      && r.Ok? && !r.value.completed && r.value.completedAt == Some(5)
      && !CompletedAtConsistent(r.value)
  {
    var t := Task("t", "Ship", Advanced, true, false, 0, Some(5), 5, [], [SubTask("s", "Write", true)]);
    assert FirstIndex(t.subTasks, "s") == Some(0);
    var subs := t.subTasks[0 := EditSubTask(t.subTasks[0], SubTaskUpdate(None, Some(false)))];
    assert !subs[0].completed;
    assert !SubTasksDone(subs);
  }

  /**
   * The subtask PATCH as evidently intended: the same completion rule as the
   * subtask toggle, so completedAt is cleared together with completion.
   */
  function JsUpdateSubTask(t: Task, subId: string, u: SubTaskUpdate, now: Timestamp): (r: Result<Task>)
    ensures r.Err? <==> FirstIndex(t.subTasks, subId).None?
    ensures r.Err? ==> r.error == NotFound
  {
    match FirstIndex(t.subTasks, subId)
    case None => Err(NotFound)
    case Some(i) => Ok(CompleteExactly(t, t.subTasks[i := EditSubTask(t.subTasks[i], u)], now, false))
  }

  /**
   * The intended subtask PATCH changes only the first subtask with the id,
   * completes the task exactly when all subtasks are done, always leaves
   * completedAt consistent, and differs from the code as written only in the
   * stale stamp.
   */
  lemma JsUpdateSubTaskSpec(t: Task, subId: string, u: SubTaskUpdate, now: Timestamp)
    requires JsUpdateSubTask(t, subId, u, now).Ok?
    ensures var r := JsUpdateSubTask(t, subId, u, now).value;
      var i := FirstIndex(t.subTasks, subId).value;
      && |r.subTasks| == |t.subTasks|
      && r.subTasks[i] == EditSubTask(t.subTasks[i], u)
      && (forall j :: 0 <= j < |r.subTasks| && j != i ==> r.subTasks[j] == t.subTasks[j])
      && (r.completed <==> SubTasksDone(r.subTasks))
      && (CompletedAtConsistent(t) ==> CompletedAtConsistent(r))
    ensures var r := JsUpdateSubTask(t, subId, u, now).value;
      var w := JsUpdateSubTaskAsWritten(t, subId, u, now).value;
      r == (if r.completed then w else w.(completedAt := None))
  {
  }

  /**
   * The completion rule of the subtask toggle: completed exactly when every
   * subtask is done, stamped now whenever it is (an already completed task is
   * re-stamped), cleared otherwise.
   */
  function JsToggleSubTask(t: Task, subId: string, now: Timestamp): (r: Result<Task>)
    ensures r.Err? <==> FirstIndex(t.subTasks, subId).None?
    ensures r.Err? ==> r.error == NotFound
  {
    match FirstIndex(t.subTasks, subId)
    case None => Err(NotFound)
    case Some(i) => Ok(CompleteExactly(t, t.subTasks[i := FlipSubTask(t.subTasks[i])], now, true))
  }

  /**
   * A subtask toggle flips only the first subtask with the id; afterwards the
   * task is completed iff all its subtasks are, and completedAt is now
   * exactly when it is completed, whatever the task was before.
   */
  lemma JsToggleSubTaskSpec(t: Task, subId: string, now: Timestamp)
    requires JsToggleSubTask(t, subId, now).Ok?
    ensures var r := JsToggleSubTask(t, subId, now).value;
      var i := FirstIndex(t.subTasks, subId).value;
      && |r.subTasks| == |t.subTasks|
      && r.subTasks[i].completed == !t.subTasks[i].completed
      && (forall j :: 0 <= j < |r.subTasks| && j != i ==> r.subTasks[j] == t.subTasks[j])
      && (r.completed <==> SubTasksDone(r.subTasks))
      && r.completedAt == (if r.completed then Some(now) else None)
  {
  }

  /** PATCH /tasks/:taskId/subtasks/:subtaskId, as written. */
  method UpdateSubTaskRoute(store: InMemoryStorage, id: string, subId: string, u: SubTaskUpdate, now: Timestamp) returns (r: Result<Task>)
    modifies store
    ensures id !in old(store.tasks) ==> r == Err(NotFound)
    ensures id in old(store.tasks) ==> r == JsUpdateSubTaskAsWritten(old(store.tasks)[id], subId, u, now)
    ensures store.tasks == (if r.Ok? then old(store.tasks)[id := r.value] else old(store.tasks))
    ensures store.tags == old(store.tags)
  {
    r := store.ApplyToTask(id, (t: Task) => JsUpdateSubTaskAsWritten(t, subId, u, now));
  }

  /** PATCH /tasks/:taskId/subtasks/:subtaskId/toggle. */
  method ToggleSubTaskRoute(store: InMemoryStorage, id: string, subId: string, now: Timestamp) returns (r: Result<Task>)
    modifies store
    ensures id !in old(store.tasks) ==> r == Err(NotFound)
    ensures id in old(store.tasks) ==> r == JsToggleSubTask(old(store.tasks)[id], subId, now)
    ensures store.tasks == (if r.Ok? then old(store.tasks)[id := r.value] else old(store.tasks))
    ensures store.tags == old(store.tags)
  {
    r := store.ApplyToTask(id, (t: Task) => JsToggleSubTask(t, subId, now));
  }
}
