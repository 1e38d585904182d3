/**
 * The dashboard's App component (src/App.tsx): the header statistics it
 * derives from the two listings and then maintains by deltas, the expanded
 * set, the client-side task filter, and the plan of API calls that saves an
 * edited tag list.
 */
module App {
  import opened Model
  import opened Seqs
  import Storage
  import opened ClientTypes
  import TaskForm
  import TaskRules

  datatype ViewMode = TasksView | ArchiveView

  /** The header counters; the deltas can drive them below zero, so they are integers. */
  datatype Stats = Stats(total: int, completed: int, active: int, advanced: int, archived: int)

  const IsDone: Task -> bool := (t: Task) => t.completed
  const IsOpen: Task -> bool := (t: Task) => !t.completed
  const IsLive: Task -> bool := (t: Task) => !t.archived
  const IsLiveAdvanced: Task -> bool := (t: Task) => !t.archived && t.kind == Advanced

  /** The header shows as many completed and active tasks as it shows tasks. */
  predicate Balanced(s: Stats)
  {
    s.completed + s.active == s.total
  }

  // ---------------------------------------------------------------------
  // Statistics from the listings, and by deltas.

  /**
   * loadData: `total`, `completed`, `active` and `advanced` count the
   * non-archived listing, `archived` is the length of the archived listing.
   */
  function LoadStats(live: seq<Task>, archived: seq<Task>): (s: Stats)
    ensures s.total == |live| && s.archived == |archived|
    ensures s.completed == Count(live, IsDone) && s.active == Count(live, IsOpen)
    ensures s.advanced == Count(live, Storage.IsAdvanced)
    ensures Balanced(s) && 0 <= s.advanced <= s.total
  {
    CountSplit(live, IsDone, IsOpen);
    Stats(|live|, Count(live, IsDone), Count(live, IsOpen), Count(live, Storage.IsAdvanced), |archived|)
  }

  /** The listings loadData asks for: every non-archived task, and every archived one. */
  function LiveQuery(): Storage.TaskQuery { Storage.TaskQuery(Storage.All, false, [], 1, 50) }
  function ArchivedQuery(): Storage.TaskQuery { Storage.TaskQuery(Storage.All, true, [], 1, 50) }

  /** What the header should show for a list of tasks, counted directly. */
  function StatsOf(ts: seq<Task>): Stats
  {
    Stats(Count(ts, IsLive), Count(ts, Storage.IsCompletedLive), Count(ts, Storage.IsActiveLive),
      Count(ts, IsLiveAdvanced), Count(ts, Storage.IsArchived))
  }

  /** Counting the two filtered listings is counting the whole store by the combined conditions. */
  lemma LoadStatsIsStatsOf(ts: seq<Task>)
    ensures LoadStats(Storage.FilterTasks(ts, LiveQuery()), Storage.FilterTasks(ts, ArchivedQuery())) == StatsOf(ts)
  {
    var live := Storage.ArchivedIs(false);
    var arch := Storage.ArchivedIs(true);
    FilterCongruent(ts, live, IsLive);
    FilterCongruent(ts, arch, Storage.IsArchived);
    CountFiltered(ts, IsLive, IsDone, Storage.IsCompletedLive);
    CountFiltered(ts, IsLive, IsOpen, Storage.IsActiveLive);
    CountFiltered(ts, IsLive, Storage.IsAdvanced, IsLiveAdvanced);
  }

  /**
   * When each listing fits one page, the header agrees with the backend's
   * statistics on completed, active and archived; its total leaves out the
   * archived tasks, and it counts only non-archived advanced tasks.
   */
  lemma LoadStatsMatchesBackend(ts: seq<Task>)
    ensures var s := LoadStats(Storage.FilterTasks(ts, LiveQuery()), Storage.FilterTasks(ts, ArchivedQuery()));
      var b := Storage.Statistics(ts);
      && s.completed == b.completed && s.active == b.active && s.archived == b.archived
      && s.total + s.archived == b.total && s.advanced <= b.advanced
  {
    LoadStatsIsStatsOf(ts);
    CountSplit(ts, IsLive, Storage.IsArchived);
    CountWeaker(ts, IsLiveAdvanced, Storage.IsAdvanced);
  }

  /**
   * handleAddTask: one more task, and it is active; one more advanced task
   * when it is advanced; completed and archived are unchanged.
   */
  function AddTaskStats(s: Stats, kind: TaskKind): (r: Stats)
    ensures r.total == s.total + 1 && r.active == s.active + 1
    ensures r.advanced == s.advanced + (if kind == Advanced then 1 else 0)
    ensures r.completed == s.completed && r.archived == s.archived
    ensures Balanced(s) ==> Balanced(r)
  {
    s.(total := s.total + 1, active := s.active + 1,
       advanced := if kind == Advanced then s.advanced + 1 else s.advanced)
  }

  function TaskHasId(id: string): Task -> bool
  {
    (t: Task) => t.id == id
  }

  /**
   * handleDeleteTask: for a known non-archived task one task fewer, one
   * fewer completed or active by its state, one fewer advanced when it is
   * advanced; for a known archived task one archived fewer; for an unknown
   * id no change.
   */
  function DeleteTaskStats(s: Stats, ts: seq<Task>, id: string): (r: Stats)
    ensures TaskRules.FirstWhere(ts, TaskHasId(id)).None? ==> r == s
    ensures TaskRules.FirstWhere(ts, TaskHasId(id)).Some? ==> var t := ts[TaskRules.FirstWhere(ts, TaskHasId(id)).value];
      if t.archived then r == s.(archived := s.archived - 1)
      else
        && r.total == s.total - 1 && r.archived == s.archived
        && r.completed == s.completed - (if t.completed then 1 else 0)
        && r.active == s.active - (if t.completed then 0 else 1)
        && r.advanced == s.advanced - (if t.kind == Advanced then 1 else 0)
    ensures Balanced(s) ==> Balanced(r)
  {
    match TaskRules.FirstWhere(ts, TaskHasId(id))
    case None => s
    case Some(i) =>
      var t := ts[i];
      if !t.archived then
        s.(total := s.total - 1,
           completed := if t.completed then s.completed - 1 else s.completed,
           active := if !t.completed then s.active - 1 else s.active,
           advanced := if t.kind == Advanced then s.advanced - 1 else s.advanced)
      else s.(archived := s.archived - 1)
  }

  /** Deleting the task that was just added undoes the add. */
  lemma DeleteUndoesAdd(s: Stats, t: Task, ts: seq<Task>)
    requires !t.completed && !t.archived
    ensures DeleteTaskStats(AddTaskStats(s, t.kind), [t] + ts, t.id) == s
  {
    assert TaskRules.FirstWhere([t] + ts, TaskHasId(t.id)) == Some(0);
  }

  /** No two tasks of the list share an id. */
  predicate UniqueIds(ts: seq<Task>)
  {
    forall i, j :: 0 <= i < j < |ts| ==> ts[i].id != ts[j].id
  }

  function TaskHasNotId(id: string): Task -> bool
  {
    (t: Task) => t.id != id
  }

  /** With unique ids, filtering out the id of `ts[i]` removes just that task. */
  lemma RemoveUnique(ts: seq<Task>, i: nat)
    requires UniqueIds(ts) && i < |ts|
    ensures Filter(ts, TaskHasNotId(ts[i].id)) == ts[..i] + ts[i + 1..]
  {
    var q := TaskHasNotId(ts[i].id);
    forall j | 0 <= j < |ts| && j != i ensures q(ts[j]) {
      if j < i {
        assert ts[j].id != ts[i].id;
      } else {
        assert ts[i].id != ts[j].id;
      }
    }
    FilterRemovesOnly(ts, i, q);
  }

  /** Adding a fresh task in front changes the stats exactly as recounting does. */
  lemma AddMatchesRecount(ts: seq<Task>, t: Task)
    requires !t.completed && !t.archived
    ensures StatsOf([t] + ts) == AddTaskStats(StatsOf(ts), t.kind)
  {
    CountAppend([t], ts, IsLive);
    CountAppend([t], ts, Storage.IsCompletedLive);
    CountAppend([t], ts, Storage.IsActiveLive);
    CountAppend([t], ts, IsLiveAdvanced);
    CountAppend([t], ts, Storage.IsArchived);
  }

  /**
   * Deleting a task from a list with unique ids changes the stats exactly as
   * recounting the list without it does.
   */
  lemma DeleteMatchesRecount(ts: seq<Task>, id: string)
    requires UniqueIds(ts)
    ensures StatsOf(Filter(ts, TaskHasNotId(id))) == DeleteTaskStats(StatsOf(ts), ts, id)
  {
    match TaskRules.FirstWhere(ts, TaskHasId(id))
    case None =>
      FilterKeepsAll(ts, TaskHasNotId(id));
    case Some(i) =>
      RemoveUnique(ts, i);
      CountRemoveAt(ts, i, IsLive);
      CountRemoveAt(ts, i, Storage.IsCompletedLive);
      CountRemoveAt(ts, i, Storage.IsActiveLive);
      CountRemoveAt(ts, i, IsLiveAdvanced);
      CountRemoveAt(ts, i, Storage.IsArchived);
  }

  /**
   * The creation request handleAddTask sends for the form's task: its title,
   * type and tags, and for an advanced task its subtask titles.
   */
  function ToCreate(d: DraftTask): (c: TaskCreate)
    requires d.kind == Advanced ==> d.subTasks.Some?
    ensures c.title == d.title && c.kind == d.kind && c.tags == d.tags
    ensures d.kind == Simple ==> c.subTaskTitles == []
    ensures d.kind == Advanced ==> (|c.subTaskTitles| == |d.subTasks.value|
      && forall i :: 0 <= i < |c.subTaskTitles| ==> c.subTaskTitles[i] == d.subTasks.value[i].title)
  {
    var titles :=
      if d.kind == Advanced then seq(|d.subTasks.value|, i requires 0 <= i < |d.subTasks.value| => d.subTasks.value[i].title)
      else [];
    TaskCreate(d.title, d.kind, d.tags, titles)
  }

  /**
   * Submitting the form and creating the task on the backend gives a task
   * whose addition the header's delta counts exactly.
   */
  lemma SubmittedTaskMatchesDelta(f: TaskForm.FormState, id: string, now: Timestamp,
                                  newId: string, subIds: seq<string>, created: Timestamp, ts: seq<Task>)
    requires TaskForm.Submit(f, id, now).Some?
    requires |subIds| == |ToCreate(TaskForm.Submit(f, id, now).value).subTaskTitles|
    ensures var d := TaskForm.Submit(f, id, now).value;
      var t := TaskRules.CreateTask(ToCreate(d), newId, subIds, created);
      StatsOf([t] + ts) == AddTaskStats(StatsOf(ts), d.kind)
  {
    var d := TaskForm.Submit(f, id, now).value;
    var t := TaskRules.CreateTask(ToCreate(d), newId, subIds, created);
    assert t.kind == d.kind && !t.completed && !t.archived;
    AddMatchesRecount(ts, t);
  }

  // ---------------------------------------------------------------------
  // Expanded tasks and the task filter.

  /** toggleExpanded: the id changes membership, no other id does. */
  function ToggleExpanded(expanded: set<string>, id: string): (r: set<string>)
    ensures id in r <==> id !in expanded
    ensures forall x :: x != id ==> (x in r <==> x in expanded)
  {
    if id in expanded then expanded - {id} else expanded + {id}
  }

  /** Toggling the same id twice gives back the set. */
  lemma ToggleExpandedTwice(expanded: set<string>, id: string)
    ensures ToggleExpanded(ToggleExpanded(expanded, id), id) == expanded
  {
    var r := ToggleExpanded(ToggleExpanded(expanded, id), id);
    assert forall x :: x in r <==> x in expanded;
  }

  /** The conditions of `filteredTasks`, in the order they are checked. */
  function InView(view: ViewMode, status: Storage.StatusFilter, filterTags: seq<string>): Task -> bool
  {
    (t: Task) =>
      !(view == TasksView && t.archived) && !(view == ArchiveView && !t.archived)
      && !(status == Storage.Active && t.completed) && !(status == Storage.Completed && !t.completed)
      && !(|filterTags| > 0 && !(exists i :: 0 <= i < |filterTags| && filterTags[i] in t.tags))
  }

  /** The backend listing query with the same view, status and tags. */
  function ViewQuery(view: ViewMode, status: Storage.StatusFilter, filterTags: seq<string>): Storage.TaskQuery
  {
    Storage.TaskQuery(status, view == ArchiveView, filterTags, 1, 1)
  }

  /**
   * filteredTasks keeps, in order, exactly the tasks the backend's listing
   * filter keeps for the same archived flag, status and tags.
   */
  function FilteredTasks(ts: seq<Task>, view: ViewMode, status: Storage.StatusFilter, filterTags: seq<string>): (r: seq<Task>)
    ensures r == Filter(ts, Storage.MatchesQuery(ViewQuery(view, status, filterTags)))
    ensures r == Storage.FilterTasks(ts, ViewQuery(view, status, filterTags))
  {
    var q := ViewQuery(view, status, filterTags);
    assert forall i :: 0 <= i < |ts| ==> InView(view, status, filterTags)(ts[i]) == Storage.MatchesQuery(q)(ts[i]) by {
      forall i | 0 <= i < |ts|
        ensures InView(view, status, filterTags)(ts[i]) == Storage.MatchesQuery(q)(ts[i])
      {
        var t := ts[i];
        if exists k :: 0 <= k < |filterTags| && filterTags[k] in t.tags {
          var k :| 0 <= k < |filterTags| && filterTags[k] in t.tags;
          assert filterTags[k] in filterTags;
        }
      }
    }
    FilterCongruent(ts, InView(view, status, filterTags), Storage.MatchesQuery(q));
    Storage.FilterTasksMatches(ts, q);
    Filter(ts, InView(view, status, filterTags))
  }

  // ---------------------------------------------------------------------
  // Saving an edited tag list.

  /** One API call of handleUpdateTags for a tag of the new list, or none. */
  datatype TagCall = CreateCall(tag: ClientTag) | UpdateCall(tag: ClientTag) | KeepTag(tag: ClientTag)

  function TagIds(tags: seq<ClientTag>): set<string>
  {
    set i | 0 <= i < |tags| :: tags[i].id
  }

  /** The first tag with the id (`tags.find`). */
  function FindTag(tags: seq<ClientTag>, id: string): (r: Option<ClientTag>)
    ensures r.Some? ==> r.value in tags && r.value.id == id
    ensures r.None? <==> id !in TagIds(tags)
  {
    if tags == [] then None
    else if tags[0].id == id then Some(tags[0])
    else
      var r := FindTag(tags[1..], id);
      assert TagIds(tags) == {tags[0].id} + TagIds(tags[1..]) by {
        forall x ensures x in TagIds(tags) <==> x == tags[0].id || x in TagIds(tags[1..]) {
          if x in TagIds(tags) && x != tags[0].id {
            var i :| 0 <= i < |tags| && tags[i].id == x;
            assert tags[1..][i - 1].id == x;
          }
          if x in TagIds(tags[1..]) {
            var i :| 0 <= i < |tags[1..]| && tags[1..][i].id == x;
            assert tags[i + 1].id == x;
          }
        }
      }
      r
  }

  /** The ids of the current tags the new list drops, in the current order. */
  function DeletedIds(current: seq<ClientTag>, next: seq<ClientTag>): (r: seq<string>)
  {
    if current == [] then []
    else
      var last := current[|current| - 1];
      DeletedIds(current[..|current| - 1], next) + (if last.id !in TagIds(next) then [last.id] else [])
  }

  /** A deletion is issued exactly for the current ids the new list drops. */
  lemma {:induction false} DeletedIdsSpec(current: seq<ClientTag>, next: seq<ClientTag>)
    ensures forall x :: x in DeletedIds(current, next) <==> x in TagIds(current) && x !in TagIds(next)
    decreases |current|
  {
    if current != [] {
      var c' := current[..|current| - 1];
      DeletedIdsSpec(c', next);
      forall x ensures x in TagIds(current) <==> x in TagIds(c') || x == current[|current| - 1].id {
        if x in TagIds(current) {
          var i :| 0 <= i < |current| && current[i].id == x;
          if i < |c'| {
            assert c'[i].id == x;
          }
        }
        if x in TagIds(c') {
          var i :| 0 <= i < |c'| && c'[i].id == x;
          assert current[i].id == x;
        }
      }
    }
  }

  /**
   * The call for one tag of the new list: a create when its id is new, an
   * update when the current tag with its id differs in name or colour, and
   * no call otherwise.
   */
  function StepFor(current: seq<ClientTag>, tag: ClientTag): (c: TagCall)
    ensures c.tag == tag
    ensures c.CreateCall? <==> tag.id !in TagIds(current)
    ensures c.UpdateCall? <==> tag.id in TagIds(current) && FindTag(current, tag.id).value != tag
    ensures c.KeepTag? ==> tag in current
  {
    if tag.id !in TagIds(current) then CreateCall(tag)
    else
      match FindTag(current, tag.id)
      case Some(existing) =>
        if existing.name != tag.name || existing.color != tag.color then UpdateCall(tag) else KeepTag(tag)
      case None => KeepTag(tag)
  }

  /**
   * handleUpdateTags: first the deletions, for the current tags in their
   * order; then one step per tag of the new list, in its order.
   */
  method PlanTagUpdate(current: seq<ClientTag>, next: seq<ClientTag>) returns (deletes: seq<string>, calls: seq<TagCall>)
    ensures deletes == DeletedIds(current, next)
    ensures |calls| == |next|
    ensures forall i :: 0 <= i < |next| ==> calls[i] == StepFor(current, next[i])
  {
    var currentIds := set t | t in current :: t.id;
    var nextIds := set t | t in next :: t.id;
    assert currentIds == TagIds(current) by {
      forall x | x in currentIds ensures x in TagIds(current) {
        var t :| t in current && t.id == x;
        var i :| 0 <= i < |current| && current[i] == t;
      }
    }
    assert nextIds == TagIds(next) by {
      forall x | x in nextIds ensures x in TagIds(next) {
        var t :| t in next && t.id == x;
        var i :| 0 <= i < |next| && next[i] == t;
      }
    }
    deletes := [];
    for i := 0 to |current|
      invariant deletes == DeletedIds(current[..i], next)
    {
      assert current[..i + 1][..i] == current[..i];
      if current[i].id !in nextIds {
        deletes := deletes + [current[i].id];
      }
    }
    assert current[..|current|] == current;
    calls := [];
    for i := 0 to |next|
      invariant |calls| == i
      invariant forall j :: 0 <= j < i ==> calls[j] == StepFor(current, next[j])
    {
      var tag := next[i];
      if tag.id !in currentIds {
        calls := calls + [CreateCall(tag)];
      } else {
        var existing := FindTag(current, tag.id);
        if existing.Some? && (existing.value.name != tag.name || existing.value.color != tag.color) {
          calls := calls + [UpdateCall(tag)];
        } else {
          calls := calls + [KeepTag(tag)];
        }
      }
    }
  }
}
