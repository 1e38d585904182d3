/**
 * The task handlers both routers (app/routers/tasks.py and
 * src/routes/tasks.js) implement alike, as methods over the store: each looks
 * the task up (NotFound when it is not stored), computes the new record with
 * a TaskRules transition and writes it back; a failing handler writes
 * nothing.
 */
module TaskRoutes {
  import opened Model
  import opened Storage
  import opened TaskRules

  /** GET /tasks/{id}. */
  method GetTaskRoute(store: InMemoryStorage, id: string) returns (r: Result<Task>)
    ensures r.Ok? <==> id in store.tasks
    ensures r.Ok? ==> r.value == store.tasks[id]
    ensures r.Err? ==> r.error == NotFound
  {
    var found := store.GetTask(id);
    r := if found.Some? then Ok(found.value) else Err(NotFound);
  }

  /** POST /tasks: every referenced tag must exist; then the new task is stored under its id. */
  method CreateTaskRoute(store: InMemoryStorage, data: TaskCreate, id: string, subIds: seq<string>, now: Timestamp) returns (r: Result<Task>)
    requires |subIds| == |data.subTaskTitles|
    modifies store
    ensures r.Err? <==> !AllTagsExist(old(store.tags), data.tags)
    ensures r.Err? ==> r.error == ValidationError && store.tasks == old(store.tasks)
    ensures r.Ok? ==> r.value == CreateTask(data, id, subIds, now) && store.tasks == old(store.tasks)[id := r.value]
    ensures store.tags == old(store.tags)
  {
    var missing := MissingTag(store.tags, data.tags);
    if missing.Some? {
      return Err(ValidationError);
    }
    var t := store.CreateTask(CreateTask(data, id, subIds, now));
    r := Ok(t);
  }

  /** DELETE /tasks/{id}. */
  method DeleteTaskRoute(store: InMemoryStorage, id: string) returns (r: Result<()>)
    modifies store
    ensures r.Ok? <==> id in old(store.tasks)
    ensures r.Err? ==> r.error == NotFound
    ensures store.tasks == old(store.tasks) - {id} && store.tags == old(store.tags)
  {
    var existed := store.DeleteTask(id);
    r := if existed then Ok(()) else Err(NotFound);
  }

  /** PATCH /tasks/{id}/toggle. */
  method ToggleTaskRoute(store: InMemoryStorage, id: string, now: Timestamp) returns (r: Result<Task>)
    modifies store
    ensures id !in old(store.tasks) ==> r == Err(NotFound)
    ensures id in old(store.tasks) ==> r == Ok(Toggle(old(store.tasks)[id], now))
    ensures store.tasks == (if r.Ok? then old(store.tasks)[id := r.value] else old(store.tasks))
    ensures store.tags == old(store.tags)
  {
    r := store.ApplyToTask(id, (t: Task) => Ok(Toggle(t, now)));
  }

  /** PATCH /tasks/{id}/archive and /restore. */
  method SetArchivedRoute(store: InMemoryStorage, id: string, archived: bool, now: Timestamp) returns (r: Result<Task>)
    modifies store
    ensures id !in old(store.tasks) ==> r == Err(NotFound)
    ensures id in old(store.tasks) ==> r == Ok(SetArchived(old(store.tasks)[id], archived, now))
    ensures store.tasks == (if r.Ok? then old(store.tasks)[id := r.value] else old(store.tasks))
    ensures store.tags == old(store.tags)
  {
    r := store.ApplyToTask(id, (t: Task) => Ok(SetArchived(t, archived, now)));
  }

  /** POST /tasks/{id}/subtasks. */
  method AddSubTaskRoute(store: InMemoryStorage, id: string, subId: string, title: string, now: Timestamp) returns (r: Result<Task>)
    modifies store
    ensures id !in old(store.tasks) ==> r == Err(NotFound)
    ensures id in old(store.tasks) ==> r == AddSubTask(old(store.tasks)[id], subId, title, now)
    ensures store.tasks == (if r.Ok? then old(store.tasks)[id := r.value] else old(store.tasks))
    ensures store.tags == old(store.tags)
  {
    r := store.ApplyToTask(id, (t: Task) => AddSubTask(t, subId, title, now));
  }

  /** DELETE /tasks/{id}/subtasks/{subId}. */
  method DeleteSubTaskRoute(store: InMemoryStorage, id: string, subId: string, now: Timestamp) returns (r: Result<Task>)
    modifies store
    ensures id !in old(store.tasks) ==> r == Err(NotFound)
    ensures id in old(store.tasks) ==> r == DeleteSubTask(old(store.tasks)[id], subId, now)
    ensures store.tasks == (if r.Ok? then old(store.tasks)[id := r.value] else old(store.tasks))
    ensures store.tags == old(store.tags)
  {
    r := store.ApplyToTask(id, (t: Task) => DeleteSubTask(t, subId, now));
  }
}
