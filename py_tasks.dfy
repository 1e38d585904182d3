/**
 * The task router of the Python backend (app/routers/tasks.py) where it
 * differs from the Express router: validated paging, the PATCH completion
 * rule, and the subtask PATCH and toggle with their search loop. The handlers
 * both routers share are in TaskRoutes.
 */
module PyTasks {
  import opened Model
  import opened Seqs
  import opened Storage
  import opened TaskRules

  /**
   * update_task's new record: supplied fields replace the stored ones;
   * completedAt becomes now when the task is newly completed, is cleared when
   * `completed: false` is supplied and is kept otherwise.
   */
  function PyApplyUpdate(t: Task, u: TaskUpdate, now: Timestamp): (r: Task)
    ensures r.title == (if u.title.Some? then u.title.value else t.title)
    ensures r.completed == (if u.completed.Some? then u.completed.value else t.completed)
    ensures r.archived == (if u.archived.Some? then u.archived.value else t.archived)
    ensures r.tags == (if u.tags.Some? then u.tags.value else t.tags)
    ensures u.completed == Some(true) && !t.completed ==> r.completedAt == Some(now)
    ensures u.completed == Some(false) ==> r.completedAt == None
    ensures u.completed.None? || (u.completed == Some(true) && t.completed) ==> r.completedAt == t.completedAt
    ensures SameIdentity(t, r) && r.subTasks == t.subTasks && r.updatedAt == now
  {
    var completedAt :=
      if u.completed == Some(true) && !t.completed then Some(now)
      else if u.completed == Some(false) then None
      else t.completedAt;
    t.(title := if u.title.Some? then u.title.value else t.title,
       completed := if u.completed.Some? then u.completed.value else t.completed,
       archived := if u.archived.Some? then u.archived.value else t.archived,
       tags := if u.tags.Some? then u.tags.value else t.tags,
       completedAt := completedAt,
       updatedAt := now)
  }

  /** A PATCH keeps completedAt set exactly when the task is completed. */
  lemma PyApplyUpdateConsistent(t: Task, u: TaskUpdate, now: Timestamp)
    requires CompletedAtConsistent(t)
    ensures CompletedAtConsistent(PyApplyUpdate(t, u, now))
  {
  }

  /**
   * The completion rule after a subtask PATCH: when every subtask is done
   * the task completes (stamped now unless it already was); otherwise its
   * completion is left alone.
   */
  function PyCompleteIfDone(t: Task, subs: seq<SubTask>, now: Timestamp): (r: Task)
    ensures r.subTasks == subs && r.updatedAt == now
    ensures SubTasksDone(subs) ==> r.completed && r.completedAt == (if t.completed then t.completedAt else Some(now))
    ensures !SubTasksDone(subs) ==> r.completed == t.completed && r.completedAt == t.completedAt
    ensures SameIdentity(t, r) && r.title == t.title && r.tags == t.tags && r.archived == t.archived
  {
    var t' := t.(subTasks := subs, updatedAt := now);
    if SubTasksDone(subs) then t'.(completed := true, completedAt := if t.completed then t.completedAt else Some(now))
    else t'
  }

  /** update_subtask: edits the first subtask with the id (NotFound when none) and applies the completion rule. */
  function PyUpdateSubTask(t: Task, subId: string, u: SubTaskUpdate, now: Timestamp): (r: Result<Task>)
    ensures r.Err? <==> FirstIndex(t.subTasks, subId).None?
    ensures r.Err? ==> r.error == NotFound
  {
    match FirstIndex(t.subTasks, subId)
    case None => Err(NotFound)
    case Some(i) => Ok(PyCompleteIfDone(t, t.subTasks[i := EditSubTask(t.subTasks[i], u)], now))
  }

  /**
   * A subtask PATCH changes only the first subtask with the id, never reopens
   * a completed task, completes the task when all its subtasks are done, and
   * keeps completedAt consistent.
   */
  lemma PyUpdateSubTaskSpec(t: Task, subId: string, u: SubTaskUpdate, now: Timestamp)
    requires PyUpdateSubTask(t, subId, u, now).Ok?
    ensures var r := PyUpdateSubTask(t, subId, u, now).value;
      var i := FirstIndex(t.subTasks, subId).value;
      && |r.subTasks| == |t.subTasks|
      && r.subTasks[i] == EditSubTask(t.subTasks[i], u)
      && (forall j :: 0 <= j < |r.subTasks| && j != i ==> r.subTasks[j] == t.subTasks[j])
      && (t.completed ==> r.completed)
      && (SubTasksDone(r.subTasks) ==> r.completed)
      && (CompletedAtConsistent(t) ==> CompletedAtConsistent(r))
  {
  }

  /** toggle_subtask: flips the first subtask with the id (NotFound when none) and recomputes completion. */
  function PyToggleSubTask(t: Task, subId: string, now: Timestamp): (r: Result<Task>)
    ensures r.Err? <==> FirstIndex(t.subTasks, subId).None?
    ensures r.Err? ==> r.error == NotFound
  {
    match FirstIndex(t.subTasks, subId)
    case None => Err(NotFound)
    case Some(i) => Ok(CompleteExactly(t, t.subTasks[i := FlipSubTask(t.subTasks[i])], now, false))
  }

  /**
   * A subtask toggle flips only the first subtask with the id; afterwards the
   * task is completed iff all its subtasks are, and completedAt is consistent
   * whenever it was before.
   */
  lemma PyToggleSubTaskSpec(t: Task, subId: string, now: Timestamp)
    requires PyToggleSubTask(t, subId, now).Ok?
    ensures var r := PyToggleSubTask(t, subId, now).value;
      var i := FirstIndex(t.subTasks, subId).value;
      && |r.subTasks| == |t.subTasks|
      && r.subTasks[i].completed == !t.subTasks[i].completed
      && (forall j :: 0 <= j < |r.subTasks| && j != i ==> r.subTasks[j] == t.subTasks[j])
      && (r.completed <==> SubTasksDone(r.subTasks))
      && (CompletedAtConsistent(t) ==> CompletedAtConsistent(r))
  {
  }

  /** Toggling the same subtask twice restores the subtasks. */
  lemma PyToggleSubTaskTwice(t: Task, subId: string, now1: Timestamp, now2: Timestamp)
    requires PyToggleSubTask(t, subId, now1).Ok?
    ensures PyToggleSubTask(PyToggleSubTask(t, subId, now1).value, subId, now2).Ok?
    ensures PyToggleSubTask(PyToggleSubTask(t, subId, now1).value, subId, now2).value.subTasks == t.subTasks
  {
    var r := PyToggleSubTask(t, subId, now1).value;
    var i := FirstIndex(t.subTasks, subId).value;
    FirstIndexIs(r.subTasks, subId, i);
  }

  /** The validation rules of get_all_tasks: page >= 1 and 1 <= limit <= 100. */
  predicate PyValidPaging(q: TaskQuery)
  {
    q.page >= 1 && 1 <= q.limit <= 100
  }

  /**
   * GET /tasks: rejected unless the paging parameters are valid; otherwise the
   * page, the number of matching stored tasks and totalPages.
   */
  method ListTasksRoute(store: InMemoryStorage, q: TaskQuery) returns (r: Result<(TaskPage, nat)>)
    ensures r.Err? <==> !PyValidPaging(q)
    ensures r.Err? ==> r.error == ValidationError
    ensures r.Ok? ==> |r.value.0.tasks| <= q.limit
    ensures r.Ok? ==> r.value.0.total == CountWhere(store.tasks, MatchesQuery(q))
    ensures r.Ok? ==> r.value.1 == TotalPages(r.value.0.total, q.limit)
  {
    if !PyValidPaging(q) {
      return Err(ValidationError);
    }
    var page, ks := store.GetAllTasks(q);
    var pages := TotalPages(page.total, q.limit);
    r := Ok((page, pages));
  }

  /** PATCH /tasks/{id}: NotFound, then the tag check when tags are supplied, then the update. */
  method UpdateTaskRoute(store: InMemoryStorage, id: string, u: TaskUpdate, now: Timestamp) returns (r: Result<Task>)
    modifies store
    ensures id !in old(store.tasks) ==> r == Err(NotFound)
    ensures id in old(store.tasks) && u.tags.Some? && !AllTagsExist(old(store.tags), u.tags.value) ==> r == Err(ValidationError)
    ensures id in old(store.tasks) && (u.tags.None? || AllTagsExist(old(store.tags), u.tags.value)) ==>
      r == Ok(PyApplyUpdate(old(store.tasks)[id], u, now))
    ensures store.tasks == (if r.Ok? then old(store.tasks)[id := r.value] else old(store.tasks))
    ensures store.tags == old(store.tags)
  {
    var found := store.GetTask(id);
    if found.None? {
      return Err(NotFound);
    }
    if u.tags.Some? {
      var missing := MissingTag(store.tags, u.tags.value);
      if missing.Some? {
        return Err(ValidationError);
      }
    }
    var t := PyApplyUpdate(found.value, u, now);
    var _ := store.UpdateTask(id, t);
    r := Ok(t);
  }

  /** PATCH /tasks/{id}/subtasks/{subId}, with the search loop of the source. */
  method UpdateSubTaskRoute(store: InMemoryStorage, id: string, subId: string, u: SubTaskUpdate, now: Timestamp) returns (r: Result<Task>)
    modifies store
    ensures id !in old(store.tasks) ==> r == Err(NotFound)
    ensures id in old(store.tasks) ==> r == PyUpdateSubTask(old(store.tasks)[id], subId, u, now)
    ensures store.tasks == (if r.Ok? then old(store.tasks)[id := r.value] else old(store.tasks))
    ensures store.tags == old(store.tags)
  {
    var found := store.GetTask(id);
    if found.None? {
      return Err(NotFound);
    }
    var t := found.value;
    var i := FindSubTask(t.subTasks, subId);
    if i.None? {
      return Err(NotFound);
    }
    var updated := PyCompleteIfDone(t, t.subTasks[i.value := EditSubTask(t.subTasks[i.value], u)], now);
    var _ := store.UpdateTask(id, updated);
    r := Ok(updated);
  }

  /** PATCH /tasks/{id}/subtasks/{subId}/toggle, with the search loop of the source. */
  method ToggleSubTaskRoute(store: InMemoryStorage, id: string, subId: string, now: Timestamp) returns (r: Result<Task>)
    modifies store
    ensures id !in old(store.tasks) ==> r == Err(NotFound)
    ensures id in old(store.tasks) ==> r == PyToggleSubTask(old(store.tasks)[id], subId, now)
    ensures store.tasks == (if r.Ok? then old(store.tasks)[id := r.value] else old(store.tasks))
    ensures store.tags == old(store.tags)
  {
    var found := store.GetTask(id);
    if found.None? {
      return Err(NotFound);
    }
    var t := found.value;
    var i := FindSubTask(t.subTasks, subId);
    if i.None? {
      return Err(NotFound);
    }
    var updated := CompleteExactly(t, t.subTasks[i.value := FlipSubTask(t.subTasks[i.value])], now, false);
    var _ := store.UpdateTask(id, updated);
    r := Ok(updated);
  }
}
