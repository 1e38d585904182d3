/**
 * The task transitions both routers (app/routers/tasks.py and
 * src/routes/tasks.js) implement alike: creation, toggling, archiving and
 * restoring, adding and deleting subtasks, finding a subtask and checking
 * that referenced tags exist. Each returns the task to be stored; the
 * routers differ only in the transitions of the PyTasks and JsTasks modules.
 */
module TaskRules {
  import opened Model
  import opened Seqs

  /** Every subtask is completed (`all(...)` / `every(...)`). */
  predicate AllCompleted(subs: seq<SubTask>)
  {
    forall i :: 0 <= i < |subs| ==> subs[i].completed
  }

  /** The fields a transition never changes: id, type and creation time. */
  predicate SameIdentity(t: Task, r: Task)
  {
    r.id == t.id && r.kind == t.kind && r.createdAt == t.createdAt
  }

  /** The fields besides completion, archiving and the update time. */
  predicate SameContent(t: Task, r: Task)
  {
    SameIdentity(t, r) && r.title == t.title && r.tags == t.tags && r.subTasks == t.subTasks
  }

  /** The position of the first element satisfying `p` (a search loop with `break`, `find`, `findIndex`). */
  function FirstWhere<T>(s: seq<T>, p: T -> bool): (r: Option<nat>)
    ensures r.Some? ==> r.value < |s| && p(s[r.value]) && forall j :: 0 <= j < r.value ==> !p(s[j])
    ensures r.None? <==> forall j :: 0 <= j < |s| ==> !p(s[j])
  {
    if s == [] then None
    else if p(s[0]) then Some(0)
    else
      match FirstWhere(s[1..], p)
      case None => None
      case Some(k) => Some(k + 1)
  }

  /** The position of the first subtask with the given id. */
  function FirstIndex(subs: seq<SubTask>, id: string): (r: Option<nat>)
    ensures r.Some? ==> r.value < |subs| && subs[r.value].id == id && forall j :: 0 <= j < r.value ==> subs[j].id != id
    ensures r.None? <==> forall j :: 0 <= j < |subs| ==> subs[j].id != id
  {
    FirstWhere(subs, (x: SubTask) => x.id == id)
  }

  /** The subtask search loop of update_subtask and toggle_subtask in app/routers/tasks.py. */
  method FindSubTask(subs: seq<SubTask>, id: string) returns (r: Option<nat>)
    ensures r == FirstIndex(subs, id)
  {
    for i := 0 to |subs|
      invariant forall j :: 0 <= j < i ==> subs[j].id != id
    {
      if subs[i].id == id {
        FirstIndexIs(subs, id, i);
        return Some(i);
      }
    }
    r := None;
  }

  lemma FirstIndexIs(subs: seq<SubTask>, id: string, i: nat)
    requires i < |subs| && subs[i].id == id
    requires forall j :: 0 <= j < i ==> subs[j].id != id
    ensures FirstIndex(subs, id) == Some(i)
  {
  }

  /** Every referenced tag is stored. */
  predicate AllTagsExist(tags: map<string, Tag>, ids: seq<string>)
  {
    forall i :: 0 <= i < |ids| ==> ids[i] in tags
  }

  /**
   * The tag check of task creation and update: the first referenced id
   * without a stored tag, or None when every tag exists.
   */
  method MissingTag(tags: map<string, Tag>, ids: seq<string>) returns (r: Option<string>)
    ensures r.None? <==> AllTagsExist(tags, ids)
    ensures r.Some? ==> r.value in ids && r.value !in tags
  {
    for i := 0 to |ids|
      invariant forall j :: 0 <= j < i ==> ids[j] in tags
    {
      if ids[i] !in tags {
        return Some(ids[i]);
      }
    }
    r := None;
  }

  /**
   * The task a creation request builds: subtasks (all open) only for an
   * advanced task, one per requested title, with the ids drawn for them.
   */
  function CreateTask(data: TaskCreate, id: string, subIds: seq<string>, now: Timestamp): (t: Task)
    requires |subIds| == |data.subTaskTitles|
    ensures t.id == id && t.title == data.title && t.kind == data.kind && t.tags == data.tags
    ensures !t.completed && !t.archived && t.completedAt == None
    ensures t.createdAt == now && t.updatedAt == now
    ensures data.kind == Simple ==> t.subTasks == []
    ensures data.kind == Advanced ==> (|t.subTasks| == |data.subTaskTitles|
      && forall i :: 0 <= i < |t.subTasks| ==> t.subTasks[i] == NewSubTask(subIds[i], data.subTaskTitles[i]))
  {
    var subs :=
      if data.kind == Advanced then seq(|subIds|, i requires 0 <= i < |subIds| => NewSubTask(subIds[i], data.subTaskTitles[i]))
      else [];
    NewTask(id, data.title, data.kind, data.tags, subs, now)
  }

  /** A created task satisfies the completion invariant and has no completed subtask. */
  lemma CreateTaskConsistent(data: TaskCreate, id: string, subIds: seq<string>, now: Timestamp)
    requires |subIds| == |data.subTaskTitles|
    ensures CompletedAtConsistent(CreateTask(data, id, subIds, now))
    ensures forall i :: 0 <= i < |CreateTask(data, id, subIds, now).subTasks| ==> !CreateTask(data, id, subIds, now).subTasks[i].completed
  {
  }

  /**
   * toggle_task / PATCH .../toggle: flips completion; completedAt is set to
   * now when the task becomes completed and cleared when it is reopened.
   */
  function Toggle(t: Task, now: Timestamp): (r: Task)
    ensures r.completed == !t.completed
    ensures r.completedAt == (if r.completed then Some(now) else None)
    ensures r.updatedAt == now && r.archived == t.archived && SameContent(t, r)
  {
    t.(completed := !t.completed, completedAt := if !t.completed then Some(now) else None, updatedAt := now)
  }

  /** Toggling always leaves completedAt consistent, and toggling twice restores the completion state. */
  lemma ToggleTwice(t: Task, now1: Timestamp, now2: Timestamp)
    ensures CompletedAtConsistent(Toggle(t, now1))
    ensures Toggle(Toggle(t, now1), now2).completed == t.completed
    ensures !t.completed && CompletedAtConsistent(t) ==> Toggle(Toggle(t, now1), now2) == t.(updatedAt := now2)
  {
  }

  /** archive_task / restore_task: sets the archived flag; nothing else but the update time changes. */
  function SetArchived(t: Task, archived: bool, now: Timestamp): (r: Task)
    ensures r.archived == archived && r.updatedAt == now
    ensures r.completed == t.completed && r.completedAt == t.completedAt && SameContent(t, r)
  {
    t.(archived := archived, updatedAt := now)
  }

  /** Restoring an archived task gives back the unarchived task, and archiving is idempotent. */
  lemma ArchiveRestore(t: Task, now1: Timestamp, now2: Timestamp)
    ensures !t.archived ==> SetArchived(SetArchived(t, true, now1), false, now2) == t.(updatedAt := now2)
    ensures SetArchived(SetArchived(t, true, now1), true, now2) == SetArchived(t, true, now2)
  {
  }

  /**
   * add_subtask / POST .../subtasks: a simple task is rejected; an advanced
   * task gets a new open subtask at the end. The task's own completion is
   * left as it was.
   */
  function AddSubTask(t: Task, subId: string, title: string, now: Timestamp): (r: Result<Task>)
    ensures r.Err? <==> t.kind == Simple
    ensures r.Err? ==> r.error == ValidationError
    ensures r.Ok? ==> (r.value.subTasks == t.subTasks + [NewSubTask(subId, title)]
      && r.value.completed == t.completed && r.value.completedAt == t.completedAt
      && r.value.updatedAt == now && SameIdentity(t, r.value) && r.value.title == t.title && r.value.tags == t.tags)
  {
    if t.kind == Simple then Err(ValidationError)
    else Ok(t.(subTasks := t.subTasks + [NewSubTask(subId, title)], updatedAt := now))
  }

  function HasNotId(id: string): SubTask -> bool
  {
    (s: SubTask) => s.id != id
  }

  /**
   * delete_subtask / DELETE .../subtasks/{id}: removes every subtask with the
   * id; NotFound when none has it. Completion is not recomputed.
   */
  function DeleteSubTask(t: Task, subId: string, now: Timestamp): (r: Result<Task>)
    ensures r.Err? ==> r.error == NotFound
    ensures r.Ok? ==> (r.value.subTasks == Filter(t.subTasks, HasNotId(subId))
      && r.value.completed == t.completed && r.value.completedAt == t.completedAt
      && r.value.updatedAt == now && SameIdentity(t, r.value))
  {
    var remaining := Filter(t.subTasks, HasNotId(subId));
    if |remaining| == |t.subTasks| then Err(NotFound)
    else Ok(t.(subTasks := remaining, updatedAt := now))
  }

  lemma {:induction false} FilterAllKept<T>(s: seq<T>, p: T -> bool)
    requires Count(s, p) == |s|
    ensures forall i :: 0 <= i < |s| ==> p(s[i])
    decreases |s|
  {
    if s != [] {
      var s' := s[..|s| - 1];
      FilterAllKept(s', p);
      forall i | 0 <= i < |s| ensures p(s[i]) {
        if i < |s| - 1 {
          assert s[i] == s'[i];
        }
      }
    }
  }

  /**
   * Deleting a subtask fails exactly when no subtask has the id, and on
   * success no subtask with the id remains while every other one is kept.
   */
  lemma DeleteSubTaskSpec(t: Task, subId: string, now: Timestamp)
    ensures DeleteSubTask(t, subId, now).Err? <==> forall i :: 0 <= i < |t.subTasks| ==> t.subTasks[i].id != subId
    ensures DeleteSubTask(t, subId, now).Ok? ==>
      var subs := DeleteSubTask(t, subId, now).value.subTasks;
      && |subs| < |t.subTasks|
      && (forall i :: 0 <= i < |subs| ==> subs[i].id != subId && subs[i] in t.subTasks)
      && (forall i :: 0 <= i < |t.subTasks| && t.subTasks[i].id != subId ==> t.subTasks[i] in subs)
  {
    var subs := Filter(t.subTasks, HasNotId(subId));
    if |subs| == |t.subTasks| {
      FilterAllKept(t.subTasks, HasNotId(subId));
    } else {
      var i :| 0 <= i < |t.subTasks| && !HasNotId(subId)(t.subTasks[i]) by {
        if forall i :: 0 <= i < |t.subTasks| ==> HasNotId(subId)(t.subTasks[i]) {
          FilterCongruent(t.subTasks, HasNotId(subId), (s: SubTask) => true);
          AllKeptCount(t.subTasks);
        }
      }
    }
    forall i | 0 <= i < |t.subTasks| && t.subTasks[i].id != subId ensures t.subTasks[i] in subs {
      FilterKeeps(t.subTasks, HasNotId(subId), i);
    }
  }

  lemma {:induction false} AllKeptCount<T>(s: seq<T>)
    ensures Count(s, (x: T) => true) == |s|
    decreases |s|
  {
    if s != [] {
      AllKeptCount(s[..|s| - 1]);
    }
  }

  /** A subtask PATCH body applied to one subtask: supplied fields replace the stored ones. */
  function EditSubTask(s: SubTask, u: SubTaskUpdate): (r: SubTask)
    ensures r.id == s.id
    ensures r.title == (if u.title.Some? then u.title.value else s.title)
    ensures r.completed == (if u.completed.Some? then u.completed.value else s.completed)
  {
    SubTask(s.id, if u.title.Some? then u.title.value else s.title, if u.completed.Some? then u.completed.value else s.completed)
  }

  /** Flipping one subtask's completion. */
  function FlipSubTask(s: SubTask): (r: SubTask)
    ensures r.id == s.id && r.title == s.title && r.completed == !s.completed
  {
    s.(completed := !s.completed)
  }

  /** The subtasks are non-empty and all completed: the condition under which a task completes with them. */
  predicate SubTasksDone(subs: seq<SubTask>)
  {
    |subs| > 0 && AllCompleted(subs)
  }

  /**
   * The completion rule after a subtask toggle (both routers): the task is
   * completed exactly when every subtask is done; completedAt is stamped now
   * on completion and cleared otherwise. An already completed task keeps its
   * stamp in app/routers/tasks.py; src/routes/tasks.js re-stamps it, which
   * `restamp` selects.
   */
  function CompleteExactly(t: Task, subs: seq<SubTask>, now: Timestamp, restamp: bool): (r: Task)
    ensures r.subTasks == subs && r.updatedAt == now
    ensures r.completed == SubTasksDone(subs)
    ensures !r.completed ==> r.completedAt == None
    ensures r.completed ==> r.completedAt == (if t.completed && !restamp then t.completedAt else Some(now))
    ensures SameIdentity(t, r) && r.title == t.title && r.tags == t.tags && r.archived == t.archived
  {
    var t' := t.(subTasks := subs, updatedAt := now);
    if SubTasksDone(subs) then t'.(completed := true, completedAt := if t.completed && !restamp then t.completedAt else Some(now))
    else t'.(completed := false, completedAt := None)
  }
}
