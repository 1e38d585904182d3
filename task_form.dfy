/**
 * The task form (src/components/TaskForm.tsx): its state, the subtask list
 * it edits and the task it emits on submit. The tag picker is
 * ClientTypes.ToggleInList over `selectedTags`.
 */
module TaskForm {
  import opened Model
  import opened Seqs
  import opened Text
  import opened ClientTypes
  import TaskRules

  /** The form's state: the title input, the chosen type, the picked tags, the subtasks and the subtask input. */
  datatype FormState = FormState(
    title: string,
    kind: TaskKind,
    selectedTags: seq<string>,
    subTasks: seq<SubTask>,
    newSubTask: string)

  /**
   * handleSubmit: nothing when the title is blank; otherwise a task with the
   * trimmed title, not completed, with the picked tags, and with the
   * subtask list exactly when it is an advanced task.
   */
  function Submit(f: FormState, id: string, now: Timestamp): (r: Option<DraftTask>)
    ensures r.None? <==> IsBlank(f.title)
    ensures r.Some? ==> var d := r.value;
      && d.id == id && d.title == Trim(f.title) && d.title != [] && !d.completed
      && d.createdAt == now && d.tags == f.selectedTags && d.kind == f.kind
      && (d.subTasks.Some? <==> f.kind == Advanced)
      && (d.subTasks.Some? ==> d.subTasks.value == f.subTasks)
  {
    if Trim(f.title) == [] then None
    else
      var base := DraftTask(id, Trim(f.title), f.kind, false, now, f.selectedTags, None);
      if f.kind == Simple then Some(base) else Some(base.(subTasks := Some(f.subTasks)))
  }

  /**
   * addSubTask: nothing on a blank input; otherwise one open subtask with the
   * trimmed title is appended and the input is cleared.
   */
  function AddSubTask(f: FormState, id: string): (r: FormState)
    ensures IsBlank(f.newSubTask) ==> r == f
    ensures !IsBlank(f.newSubTask) ==>
      r == f.(subTasks := f.subTasks + [SubTask(id, Trim(f.newSubTask), false)], newSubTask := "")
  {
    if Trim(f.newSubTask) == [] then f
    else f.(subTasks := f.subTasks + [SubTask(id, Trim(f.newSubTask), false)], newSubTask := "")
  }

  /** Every subtask the form adds has a non-blank trimmed title and is open. */
  predicate SubTasksClean(subs: seq<SubTask>)
  {
    forall i :: 0 <= i < |subs| ==> subs[i].title != [] && !subs[i].completed
  }

  /** Adding a subtask keeps the list clean. */
  lemma AddKeepsClean(f: FormState, id: string)
    requires SubTasksClean(f.subTasks)
    ensures SubTasksClean(AddSubTask(f, id).subTasks)
  {
    if !IsBlank(f.newSubTask) {
      var r := AddSubTask(f, id).subTasks;
      assert r == f.subTasks + [SubTask(id, Trim(f.newSubTask), false)];
      forall i | 0 <= i < |r| ensures r[i].title != [] && !r[i].completed {
        if i < |f.subTasks| {
          assert r[i] == f.subTasks[i];
        }
      }
    }
  }

  lemma MemberClean(subs: seq<SubTask>, x: SubTask)
    requires SubTasksClean(subs) && x in subs
    ensures x.title != [] && !x.completed
  {
    var j :| 0 <= j < |subs| && subs[j] == x;
  }

  /** Removing a subtask keeps the list clean. */
  lemma RemoveKeepsClean(f: FormState, removed: string)
    requires SubTasksClean(f.subTasks)
    ensures SubTasksClean(RemoveSubTask(f, removed).subTasks)
  {
    var r := RemoveSubTask(f, removed).subTasks;
    forall i | 0 <= i < |r| ensures r[i].title != [] && !r[i].completed {
      MemberClean(f.subTasks, r[i]);
    }
  }

  /** Filtering out an id keeps exactly the subtasks with other ids. */
  lemma FilterWithoutId(subs: seq<SubTask>, id: string)
    ensures forall i :: 0 <= i < |subs| && subs[i].id != id ==> subs[i] in Filter(subs, TaskRules.HasNotId(id))
  {
    forall i | 0 <= i < |subs| && subs[i].id != id
      ensures subs[i] in Filter(subs, TaskRules.HasNotId(id))
    {
      FilterKeeps(subs, TaskRules.HasNotId(id), i);
    }
  }

  /** removeSubTask: the subtasks without the id, in their order; nothing else changes. */
  function RemoveSubTask(f: FormState, id: string): (r: FormState)
    ensures r == f.(subTasks := Filter(f.subTasks, TaskRules.HasNotId(id)))
    ensures forall i :: 0 <= i < |r.subTasks| ==> r.subTasks[i].id != id && r.subTasks[i] in f.subTasks
    ensures forall i :: 0 <= i < |f.subTasks| && f.subTasks[i].id != id ==> f.subTasks[i] in r.subTasks
  {
    FilterWithoutId(f.subTasks, id);
    f.(subTasks := Filter(f.subTasks, TaskRules.HasNotId(id)))
  }
}
