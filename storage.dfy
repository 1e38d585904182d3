/**
 * The entity store of both backends (InMemoryStorage in app/storage.py, the
 * module-level Maps of src/storage.js) and the queries it answers: the
 * filtered, sorted and paginated task listing and the summary statistics.
 */
module Storage {
  import opened Model
  import opened Seqs
  import opened Contributions

  datatype StatusFilter = All | Active | Completed

  /** The parameters of a task listing; `tags` empty stands for "no tag filter" (None or []). */
  datatype TaskQuery = TaskQuery(status: StatusFilter, archived: bool, tags: seq<string>, page: int, limit: int)

  /** One page of a listing with the number of matching tasks before pagination. */
  datatype TaskPage = TaskPage(tasks: seq<Task>, total: nat)

  /** The task carries at least one of the requested tags (`any(tag in t.tags for tag in tags)`). */
  predicate HasAnyTag(t: Task, tags: seq<string>)
  {
    exists tag :: tag in tags && tag in t.tags
  }

  predicate StatusMatches(status: StatusFilter, t: Task)
  {
    match status
    case All => true
    case Active => !t.completed
    case Completed => t.completed
  }

  /** The three filter conditions of a listing, taken together. */
  predicate Matches(q: TaskQuery, t: Task)
  {
    t.archived == q.archived && StatusMatches(q.status, t) && (q.tags == [] || HasAnyTag(t, q.tags))
  }

  function ArchivedIs(a: bool): Task -> bool
  {
    (t: Task) => t.archived == a
  }

  function StatusIs(status: StatusFilter): Task -> bool
  {
    (t: Task) => StatusMatches(status, t)
  }

  function TaggedWith(tags: seq<string>): Task -> bool
  {
    (t: Task) => HasAnyTag(t, tags)
  }

  function MatchesQuery(q: TaskQuery): Task -> bool
  {
    (t: Task) => Matches(q, t)
  }

  /** The filtering steps of get_all_tasks / getAllTasks, in the order they are applied. */
  function FilterTasks(ts: seq<Task>, q: TaskQuery): seq<Task>
  {
    var byArchived := Filter(ts, ArchivedIs(q.archived));
    var byStatus := if q.status == All then byArchived else Filter(byArchived, StatusIs(q.status));
    if q.tags != [] then Filter(byStatus, TaggedWith(q.tags)) else byStatus
  }

  /**
   * Listing filters keep a task iff its archived flag equals the requested one,
   * its completion matches the status, and (with a non-empty tag list) it carries
   * one of the tags; the order of the input is kept.
   */
  lemma FilterTasksMatches(ts: seq<Task>, q: TaskQuery)
    ensures FilterTasks(ts, q) == Filter(ts, MatchesQuery(q))
  {
    var archivedAndStatus := (t: Task) => t.archived == q.archived && StatusMatches(q.status, t);
    if q.status == All {
      FilterCongruent(ts, ArchivedIs(q.archived), archivedAndStatus);
    } else {
      FilterFilter(ts, ArchivedIs(q.archived), StatusIs(q.status), archivedAndStatus);
    }
    if q.tags != [] {
      FilterFilter(ts, archivedAndStatus, TaggedWith(q.tags), MatchesQuery(q));
    } else {
      FilterCongruent(ts, archivedAndStatus, MatchesQuery(q));
    }
  }

  // ---------------------------------------------------------------------
  // Sorting by createdAt, newest first (a stable sort, as list.sort and
  // Array.prototype.sort are).

  function InsertByCreatedDesc(x: Task, s: seq<Task>): (r: seq<Task>)
    ensures multiset(r) == multiset(s) + multiset{x}
  {
    if s == [] || x.createdAt >= s[0].createdAt then [x] + s
    else
      assert s == [s[0]] + s[1..];
      [s[0]] + InsertByCreatedDesc(x, s[1..])
  }

  function SortByCreatedDesc(s: seq<Task>): (r: seq<Task>)
    ensures multiset(r) == multiset(s)
  {
    if s == [] then []
    else
      assert s == [s[0]] + s[1..];
      InsertByCreatedDesc(s[0], SortByCreatedDesc(s[1..]))
  }

  predicate SortedByCreatedDesc(s: seq<Task>)
  {
    forall i, j :: 0 <= i < j < |s| ==> s[i].createdAt >= s[j].createdAt
  }

  lemma {:induction false} InsertKeepsSorted(x: Task, s: seq<Task>)
    requires SortedByCreatedDesc(s)
    ensures SortedByCreatedDesc(InsertByCreatedDesc(x, s))
    ensures InsertByCreatedDesc(x, s) != [] && InsertByCreatedDesc(x, s)[0] == (if s == [] || x.createdAt >= s[0].createdAt then x else s[0])
    decreases |s|
  {
    if s != [] && x.createdAt < s[0].createdAt {
      InsertKeepsSorted(x, s[1..]);
    }
  }

  /** The sorted listing is newest-first and holds exactly the tasks it was given. */
  lemma {:induction false} SortByCreatedDescSorted(s: seq<Task>)
    ensures SortedByCreatedDesc(SortByCreatedDesc(s))
    ensures multiset(SortByCreatedDesc(s)) == multiset(s)
    decreases |s|
  {
    if s != [] {
      SortByCreatedDescSorted(s[1..]);
      InsertKeepsSorted(s[0], SortByCreatedDesc(s[1..]));
    }
  }

  function CreatedAtIs(k: Timestamp): Task -> bool
  {
    (t: Task) => t.createdAt == k
  }

  /** The tasks of `s` created at time `k`, in order. */
  function CreatedAt(s: seq<Task>, k: Timestamp): seq<Task>
  {
    Filter(s, CreatedAtIs(k))
  }

  lemma CreatedAtCons(x: Task, s: seq<Task>, k: Timestamp)
    ensures x.createdAt == k ==> CreatedAt([x] + s, k) == [x] + CreatedAt(s, k)
    ensures x.createdAt != k ==> CreatedAt([x] + s, k) == CreatedAt(s, k)
  {
    FilterAppend([x], s, CreatedAtIs(k));
    assert [x][..0] == [];
  }

  lemma {:induction false} InsertStable(x: Task, s: seq<Task>, k: Timestamp)
    ensures x.createdAt == k ==> CreatedAt(InsertByCreatedDesc(x, s), k) == [x] + CreatedAt(s, k)
    ensures x.createdAt != k ==> CreatedAt(InsertByCreatedDesc(x, s), k) == CreatedAt(s, k)
    decreases |s|
  {
    if s == [] || x.createdAt >= s[0].createdAt {
      CreatedAtCons(x, s, k);
    } else {
      var y, rest := s[0], s[1..];
      assert s == [y] + rest;
      InsertStable(x, rest, k);
      CreatedAtCons(y, InsertByCreatedDesc(x, rest), k);
      CreatedAtCons(y, rest, k);
    }
  }

  /** Tasks created at the same time keep their relative order (stability). */
  lemma {:induction false} SortByCreatedDescStable(s: seq<Task>, k: Timestamp)
    ensures CreatedAt(SortByCreatedDesc(s), k) == CreatedAt(s, k)
    decreases |s|
  {
    if s != [] {
      SortByCreatedDescStable(s[1..], k);
      InsertStable(s[0], SortByCreatedDesc(s[1..]), k);
      CreatedAtCons(s[0], s[1..], k);
      assert s == [s[0]] + s[1..];
    }
  }

  // ---------------------------------------------------------------------
  // Pagination.

  /** A slice bound as Python and JavaScript resolve it: a negative bound counts from the end, then it is clamped to [0, len]. */
  function SliceBound(len: nat, a: int): (k: nat)
    ensures k <= len
    ensures 0 <= a ==> k == (if a < len then a else len)
  {
    if a < 0 then (if len + a < 0 then 0 else len + a)
    else if a < len then a else len
  }

  /** `s[a:b]` in Python, `s.slice(a, b)` in JavaScript: the elements between the two resolved bounds. */
  function Slice(s: seq<Task>, a: int, b: int): (r: seq<Task>)
    ensures |r| == (if SliceBound(|s|, a) < SliceBound(|s|, b) then SliceBound(|s|, b) - SliceBound(|s|, a) else 0)
    ensures forall i :: 0 <= i < |r| ==> r[i] == s[SliceBound(|s|, a) + i]
  {
    var lo, hi := SliceBound(|s|, a), SliceBound(|s|, b);
    if lo < hi then s[lo..hi] else []
  }

  /** The page `s[(page-1)*limit : (page-1)*limit + limit]`. */
  function Page(s: seq<Task>, page: int, limit: int): seq<Task>
  {
    var start := (page - 1) * limit;
    Slice(s, start, start + limit)
  }

  /**
   * A page never holds more than `limit` items; for page >= 1 and limit >= 1
   * it is the run of items starting at offset (page-1)*limit, as long as
   * `limit` or as what is left of `s`.
   */
  lemma PageBounds(s: seq<Task>, page: int, limit: int)
    ensures 0 <= limit ==> |Page(s, page, limit)| <= limit
    ensures page >= 1 && limit >= 1 ==>
      var start := (page - 1) * limit;
      && |Page(s, page, limit)| == (if |s| <= start then 0 else if |s| - start < limit then |s| - start else limit)
      && forall i :: 0 <= i < |Page(s, page, limit)| ==> start + i < |s| && Page(s, page, limit)[i] == s[start + i]
  {
    if page >= 1 && limit >= 1 {
      assert (page - 1) * limit >= 0;
    }
  }

  /** A slice of a newest-first sequence is newest-first and made of its elements. */
  lemma PageOfSorted(s: seq<Task>, page: int, limit: int)
    requires SortedByCreatedDesc(s)
    ensures SortedByCreatedDesc(Page(s, page, limit))
    ensures forall i :: 0 <= i < |Page(s, page, limit)| ==> Page(s, page, limit)[i] in multiset(s)
  {
    var r := Page(s, page, limit);
    var lo := SliceBound(|s|, (page - 1) * limit);
    forall i, j | 0 <= i < j < |r| ensures r[i].createdAt >= r[j].createdAt {
      assert r[i] == s[lo + i] && r[j] == s[lo + j];
    }
    forall i | 0 <= i < |r| ensures r[i] in multiset(s) {
      assert r[i] == s[lo + i];
    }
  }

  /**
   * get_all_tasks / getAllTasks: filter, sort newest first, slice the page;
   * `total` is the number of matches before slicing.
   */
  function ListTasks(ts: seq<Task>, q: TaskQuery): TaskPage
  {
    var filtered := FilterTasks(ts, q);
    TaskPage(Page(SortByCreatedDesc(filtered), q.page, q.limit), |filtered|)
  }

  /**
   * A listing page holds at most `limit` tasks, each a stored task matching
   * the query, newest first; its total is the number of matching tasks.
   */
  lemma ListTasksSpec(ts: seq<Task>, q: TaskQuery)
    ensures 0 <= q.limit ==> |ListTasks(ts, q).tasks| <= q.limit
    ensures ListTasks(ts, q).total == Count(ts, MatchesQuery(q))
    ensures forall i :: 0 <= i < |ListTasks(ts, q).tasks| ==> ListTasks(ts, q).tasks[i] in ts && Matches(q, ListTasks(ts, q).tasks[i])
    ensures SortedByCreatedDesc(ListTasks(ts, q).tasks)
  {
    var filtered := FilterTasks(ts, q);
    FilterTasksMatches(ts, q);
    var sorted := SortByCreatedDesc(filtered);
    SortByCreatedDescSorted(filtered);
    PageOfSorted(sorted, q.page, q.limit);
    PageBounds(sorted, q.page, q.limit);
    var page := ListTasks(ts, q).tasks;
    forall i | 0 <= i < |page| ensures page[i] in ts && Matches(q, page[i]) {
      assert page[i] in multiset(filtered);
      assert page[i] in filtered;
      var j :| 0 <= j < |filtered| && filtered[j] == page[i];
      assert MatchesQuery(q)(filtered[j]);
    }
  }

  /**
   * totalPages of the listing routers: ceil(total / limit) when there are
   * matches, else 1. It is at least 1 and the pages exactly cover the matches.
   */
  function TotalPages(total: nat, limit: int): (pages: nat)
    requires limit >= 1
    ensures pages >= 1
    ensures total > 0 ==> (pages - 1) * limit < total <= pages * limit
    ensures total == 0 ==> pages == 1
  {
    if total > 0 then
      var p := (total + limit - 1) / limit;
      assert p * limit <= total + limit - 1 < (p + 1) * limit;
      p
    else 1
  }

  // ---------------------------------------------------------------------
  // Statistics.

  const IsCompletedLive: Task -> bool := (t: Task) => t.completed && !t.archived
  const IsActiveLive: Task -> bool := (t: Task) => !t.completed && !t.archived
  const IsAdvanced: Task -> bool := (t: Task) => t.kind == Advanced
  const IsArchived: Task -> bool := (t: Task) => t.archived

  /**
   * get_statistics / getStatistics. `total` counts every task, archived ones
   * included; completed and active count only non-archived tasks; `advanced`
   * counts advanced tasks whether archived or not.
   */
  function Statistics(ts: seq<Task>): TaskStatistics
  {
    TaskStatistics(|ts|, Count(ts, IsCompletedLive), Count(ts, IsActiveLive), Count(ts, IsAdvanced), Count(ts, IsArchived))
  }

  /** Every task is exactly one of completed, active or archived, so the three counts add up to the total. */
  lemma {:induction false} StatisticsPartition(ts: seq<Task>)
    ensures Statistics(ts).completed + Statistics(ts).active + Statistics(ts).archived == Statistics(ts).total
    ensures Statistics(ts).advanced <= Statistics(ts).total
    decreases |ts|
  {
    if ts != [] {
      StatisticsPartition(ts[..|ts| - 1]);
    }
  }

  /** A listing's total counts the tasks satisfying any predicate that agrees with the query. */
  lemma ListingTotal(ts: seq<Task>, q: TaskQuery, p: Task -> bool)
    requires forall i :: 0 <= i < |ts| ==> p(ts[i]) == Matches(q, ts[i])
    ensures ListTasks(ts, q).total == Count(ts, p)
  {
    FilterTasksMatches(ts, q);
    FilterCongruent(ts, p, MatchesQuery(q));
  }

  /**
   * The statistics agree with the listings: `active` and `completed` are the
   * totals of the non-archived active and completed listings, and `archived`
   * the total of the archived listing.
   */
  lemma StatisticsMatchListing(ts: seq<Task>)
    ensures Statistics(ts).active == ListTasks(ts, TaskQuery(Active, false, [], 1, 1)).total
    ensures Statistics(ts).completed == ListTasks(ts, TaskQuery(Completed, false, [], 1, 1)).total
    ensures Statistics(ts).archived == ListTasks(ts, TaskQuery(All, true, [], 1, 1)).total
  {
    ListingTotal(ts, TaskQuery(Active, false, [], 1, 1), IsActiveLive);
    ListingTotal(ts, TaskQuery(Completed, false, [], 1, 1), IsCompletedLive);
    ListingTotal(ts, TaskQuery(All, true, [], 1, 1), IsArchived);
  }

  // ---------------------------------------------------------------------
  // Enumerating a map: the store's `values()` in some order.

  /** `ks` lists the keys of `m`, each exactly once. */
  ghost predicate Enumerates<V>(ks: seq<string>, m: map<string, V>)
  {
    NoDups(ks) && forall k :: k in ks <==> k in m
  }

  function ValuesAt<V>(m: map<string, V>, ks: seq<string>): (vs: seq<V>)
    requires forall i :: 0 <= i < |ks| ==> ks[i] in m
    ensures |vs| == |ks|
    ensures forall i :: 0 <= i < |ks| ==> vs[i] == m[ks[i]]
  {
    seq(|ks|, i requires 0 <= i < |ks| => m[ks[i]])
  }

  lemma DropLastKey(ks: seq<string>, keys: set<string>)
    requires ks != [] && NoDups(ks)
    requires forall k :: k in ks <==> k in keys
    ensures ks[|ks| - 1] in keys
    ensures NoDups(ks[..|ks| - 1])
    ensures forall k :: k in ks[..|ks| - 1] <==> k in keys && k != ks[|ks| - 1]
  {
    var x, ks' := ks[|ks| - 1], ks[..|ks| - 1];
    forall k ensures k in ks' <==> k in keys - {x} {
      if k in ks' {
        var i :| 0 <= i < |ks'| && ks'[i] == k;
        assert ks[i] == k;
      }
      if k in keys - {x} {
        var i :| 0 <= i < |ks| && ks[i] == k;
        assert i != |ks| - 1;
        assert ks'[i] == k;
      }
    }
  }

  /** Dropping the last key drops its value from the end of the enumeration. */
  lemma ValuesAtSnoc<V>(m: map<string, V>, ks: seq<string>, p: V -> bool)
    requires ks != [] && forall i :: 0 <= i < |ks| ==> ks[i] in m
    ensures Count(ValuesAt(m, ks), p) == Count(ValuesAt(m, ks[..|ks| - 1]), p) + (if p(m[ks[|ks| - 1]]) then 1 else 0)
  {
    var vs := ValuesAt(m, ks);
    assert vs[..|vs| - 1] == ValuesAt(m, ks[..|ks| - 1]);
  }

  /** Removing one key from a key set removes it from the matching keys, if it matched. */
  lemma MatchingKeysStep<V>(m: map<string, V>, keys: set<string>, x: string, p: V -> bool)
    requires x in keys && keys <= m.Keys
    ensures |set k | k in keys && p(m[k])| == |set k | k in keys - {x} && p(m[k])| + (if p(m[x]) then 1 else 0)
  {
    var all := set k | k in keys && p(m[k]);
    var all' := set k | k in keys - {x} && p(m[k]);
    if p(m[x]) {
      assert all == all' + {x};
    } else {
      assert all == all';
    }
  }

  lemma {:induction false} CountOverKeys<V>(m: map<string, V>, ks: seq<string>, keys: set<string>, p: V -> bool)
    requires NoDups(ks)
    requires forall k :: k in ks <==> k in keys
    requires keys <= m.Keys
    ensures Count(ValuesAt(m, ks), p) == |set k | k in keys && p(m[k])|
    decreases |ks|
  {
    var all := set k | k in keys && p(m[k]);
    if ks == [] {
      assert all == {};
    } else {
      var x := ks[|ks| - 1];
      DropLastKey(ks, keys);
      CountOverKeys(m, ks[..|ks| - 1], keys - {x}, p);
      ValuesAtSnoc(m, ks, p);
      MatchingKeysStep(m, keys, x, p);
    }
  }

  /** The number of entries of `m` whose value satisfies `p`. */
  ghost function CountWhere<V>(m: map<string, V>, p: V -> bool): nat
  {
    |set k | k in m && p(m[k])|
  }

  /**
   * Counting the values of an enumeration does not depend on the order of the
   * enumeration: it is the number of keys whose value satisfies `p`.
   */
  lemma CountEnumeration<V>(m: map<string, V>, ks: seq<string>, p: V -> bool)
    requires Enumerates(ks, m)
    ensures Count(ValuesAt(m, ks), p) == CountWhere(m, p)
  {
    CountOverKeys(m, ks, m.Keys, p);
  }

  /** The two maps of a backend: tasks and tags keyed by id. */
  class InMemoryStorage {
    var tasks: map<string, Task>
    var tags: map<string, Tag>

    /** A fresh store holds no tasks and no tags (the sample-data lists are empty). */
    constructor ()
      ensures tasks == map[] && tags == map[]
    {
      tasks := map[];
      tags := map[];
    }

    /** get_task / getTask: the stored task, or None for a missing id. */
    method GetTask(id: string) returns (r: Option<Task>)
      ensures r.Some? <==> id in tasks
      ensures r.Some? ==> r.value == tasks[id]
    {
      r := if id in tasks then Some(tasks[id]) else None;
    }

    /** create_task / createTask: stores the task under its own id. */
    method CreateTask(t: Task) returns (r: Task)
      modifies this
      ensures r == t
      ensures tasks == old(tasks)[t.id := t] && tags == old(tags)
    {
      tasks := tasks[t.id := t];
      r := t;
    }

    /** update_task / updateTask: writes only when the id is present; otherwise None and no change. */
    method UpdateTask(id: string, t: Task) returns (r: Option<Task>)
      modifies this
      ensures id in old(tasks) ==> r == Some(t) && tasks == old(tasks)[id := t]
      ensures id !in old(tasks) ==> r == None && tasks == old(tasks)
      ensures tags == old(tags)
    {
      if id in tasks {
        tasks := tasks[id := t];
        r := Some(t);
      } else {
        r := None;
      }
    }

    /** delete_task / deleteTask: true iff the id existed; removes only that key. */
    method DeleteTask(id: string) returns (existed: bool)
      modifies this
      ensures existed == (id in old(tasks))
      ensures tasks == old(tasks) - {id} && tags == old(tags)
    {
      existed := id in tasks;
      tasks := tasks - {id};
    }

    /** get_tag / getTag: the stored tag, or None for a missing id. */
    method GetTag(id: string) returns (r: Option<Tag>)
      ensures r.Some? <==> id in tags
      ensures r.Some? ==> r.value == tags[id]
    {
      r := if id in tags then Some(tags[id]) else None;
    }

    /** create_tag / createTag: stores the tag under its own id. */
    method CreateTag(t: Tag) returns (r: Tag)
      modifies this
      ensures r == t
      ensures tags == old(tags)[t.id := t] && tasks == old(tasks)
    {
      tags := tags[t.id := t];
      r := t;
    }

    /** update_tag / updateTag: writes only when the id is present; otherwise None and no change. */
    method UpdateTag(id: string, t: Tag) returns (r: Option<Tag>)
      modifies this
      ensures id in old(tags) ==> r == Some(t) && tags == old(tags)[id := t]
      ensures id !in old(tags) ==> r == None && tags == old(tags)
      ensures tasks == old(tasks)
    {
      if id in tags {
        tags := tags[id := t];
        r := Some(t);
      } else {
        r := None;
      }
    }

    /** delete_tag / deleteTag: true iff the id existed; removes only that key (tasks keep their references). */
    method DeleteTag(id: string) returns (existed: bool)
      modifies this
      ensures existed == (id in old(tags))
      ensures tags == old(tags) - {id} && tasks == old(tasks)
    {
      existed := id in tags;
      tags := tags - {id};
    }

    /** The keys of a map in some order, each once (the iteration order of a dict or Map is not modelled). */
    static method Keys<V>(m: map<string, V>) returns (ks: seq<string>)
      ensures NoDups(ks)
      ensures forall k :: k in ks <==> k in m
    {
      ks := [];
      var rest := m.Keys;
      while rest != {}
        invariant NoDups(ks)
        invariant forall k :: k in m <==> k in ks || k in rest
        invariant forall k :: k in ks ==> k !in rest
        decreases |rest|
      {
        var k :| k in rest;
        ks := ks + [k];
        rest := rest - {k};
      }
    }

    /** `list(self.tasks.values())` / `Array.from(storage.tasks.values())`. */
    method AllTasks() returns (ts: seq<Task>, ks: seq<string>)
      ensures Enumerates(ks, tasks)
      ensures ts == ValuesAt(tasks, ks)
      ensures |ts| == |tasks|
    {
      ks := Keys(tasks);
      EnumerationSize(ks, tasks.Keys);
      ts := ValuesAt(tasks, ks);
    }

    /** get_all_tags / getAllTags. */
    method AllTags() returns (ts: seq<Tag>, ks: seq<string>)
      ensures Enumerates(ks, tags)
      ensures ts == ValuesAt(tags, ks)
      ensures |ts| == |tags|
    {
      ks := Keys(tags);
      EnumerationSize(ks, tags.Keys);
      ts := ValuesAt(tags, ks);
    }

    /**
     * get_all_tasks / getAllTasks over the stored tasks. The total is the number
     * of stored tasks matching the query, whatever the iteration order.
     */
    method GetAllTasks(q: TaskQuery) returns (r: TaskPage, ks: seq<string>)
      ensures Enumerates(ks, tasks)
      ensures r == ListTasks(ValuesAt(tasks, ks), q)
      ensures r.total == CountWhere(tasks, MatchesQuery(q))
      ensures 0 <= q.limit ==> |r.tasks| <= q.limit
    {
      var ts;
      ts, ks := AllTasks();
      r := ListTasks(ts, q);
      ListTasksSpec(ts, q);
      CountEnumeration(tasks, ks, MatchesQuery(q));
    }

    /**
     * get_statistics / getStatistics over the stored tasks; every count is the
     * number of stored tasks with the property, whatever the iteration order.
     */
    method GetStatistics() returns (s: TaskStatistics)
      ensures s.total == |tasks|
      ensures s.completed == CountWhere(tasks, IsCompletedLive)
      ensures s.active == CountWhere(tasks, IsActiveLive)
      ensures s.advanced == CountWhere(tasks, IsAdvanced)
      ensures s.archived == CountWhere(tasks, IsArchived)
      ensures s.completed + s.active + s.archived == s.total
    {
      var ts, ks := AllTasks();
      s := Statistics(ts);
      StatisticsPartition(ts);
      CountEnumeration(tasks, ks, IsCompletedLive);
      CountEnumeration(tasks, ks, IsActiveLive);
      CountEnumeration(tasks, ks, IsAdvanced);
      CountEnumeration(tasks, ks, IsArchived);
    }

    /**
     * The parts of a contribution report both backends agree on, stated over
     * the stored tasks: one entry per day of the window, newest first, each
     * with the number of stored tasks completed that day; the total of the
     * tasks completed inside the window; and the longest run.
     */
    ghost predicate ReportsWindow(r: ContributionReport, start: Day, end: Day)
      reads this
    {
      && |r.data| == WindowLength(start, end)
      && (forall i :: 0 <= i < |r.data| ==> r.data[i].date == end - i && r.data[i].count == CountWhere(tasks, CompletedOnDay(end - i)))
      && r.summary.totalContributions == CountWhere(tasks, CompletedWithin(start, end))
      && r.summary.longestStreak == LongestRun(SeriesCounts(r.data))
    }

    lemma ReportOrderIndependent(r: ContributionReport, ks: seq<string>, start: Day, end: Day)
      requires Enumerates(ks, tasks)
      requires |r.data| == WindowLength(start, end)
      requires forall i :: 0 <= i < |r.data| ==> r.data[i].date == end - i
      requires SeriesCounts(r.data) == ContributionCounts(ValuesAt(tasks, ks), start, end)
      requires r.summary.totalContributions == Count(ValuesAt(tasks, ks), CompletedWithin(start, end))
      requires r.summary.longestStreak == LongestRun(SeriesCounts(r.data))
      ensures ReportsWindow(r, start, end)
    {
      forall i | 0 <= i < |r.data| ensures r.data[i].count == CountWhere(tasks, CompletedOnDay(end - i)) {
        assert r.data[i].count == SeriesCounts(r.data)[i];
        CountEnumeration(tasks, ks, CompletedOnDay(end - i));
      }
      CountEnumeration(tasks, ks, CompletedWithin(start, end));
    }

    /**
     * GET /contributions of app/routers/stats.py: a `days` outside 1..365 is
     * rejected; otherwise the report of get_contributions, whose current streak
     * is the run of days with completions counted back from the end day.
     */
    method PyGetContributions(startDate: Option<Day>, endDate: Option<Day>, days: int, today: Day) returns (r: Result<ContributionReport>)
      ensures !DaysInRange(days) ==> r == Err(ValidationError)
      ensures DaysInRange(days) ==> r.Ok?
      ensures r.Ok? ==> ReportsWindow(r.value, Window(startDate, endDate, days, today).0, Window(startDate, endDate, days, today).1)
      ensures r.Ok? ==> r.value.summary.currentStreak == LeadingRun(SeriesCounts(r.value.data))
    {
      if !DaysInRange(days) {
        return Err(ValidationError);
      }
      var ts, ks := AllTasks();
      var report := PyContributions(ts, startDate, endDate, days, today);
      var (start, end) := Window(startDate, endDate, days, today);
      ReportOrderIndependent(report, ks, start, end);
      r := Ok(report);
    }

    /**
     * GET /contributions of src/routes/stats.js: any `days` is accepted (a
     * window that ends before it starts is empty); the current streak is the
     * one of the JavaScript loop.
     */
    method JsGetContributions(startDate: Option<Day>, endDate: Option<Day>, days: int, today: Day) returns (r: ContributionReport)
      ensures ReportsWindow(r, Window(startDate, endDate, days, today).0, Window(startDate, endDate, days, today).1)
      ensures r.summary.currentStreak == JsCurrentStreak(SeriesCounts(r.data))
    {
      var ts, ks := AllTasks();
      r := JsContributions(ts, startDate, endDate, days, today);
      var (start, end) := Window(startDate, endDate, days, today);
      ReportOrderIndependent(r, ks, start, end);
    }

    /**
     * The shape shared by the task handlers: look the task up (NotFound when
     * absent), compute the updated record with `f`, and write it back only on
     * success; a failing handler leaves the store unchanged.
     */
    method ApplyToTask(id: string, f: Task -> Result<Task>) returns (r: Result<Task>)
      modifies this
      ensures id !in old(tasks) ==> r == Err(NotFound)
      ensures id in old(tasks) ==> r == f(old(tasks)[id])
      ensures tasks == (if r.Ok? then old(tasks)[id := r.value] else old(tasks))
      ensures tags == old(tags)
    {
      var found := GetTask(id);
      if found.None? {
        return Err(NotFound);
      }
      r := f(found.value);
      if r.Ok? {
        var _ := UpdateTask(id, r.value);
      }
    }
  }
}
