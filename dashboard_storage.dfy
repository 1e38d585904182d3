/**
 * The dashboard's own computations over the task list (src/utils/storage.ts):
 * the client-side contribution series, which covers the fixed 365 days up to
 * today, oldest first, and weighs an advanced task by its completed subtasks;
 * and a task's progress percentage.
 */
module DashboardStorage {
  import opened Model
  import opened Seqs
  import Contributions

  const SubTaskDone: SubTask -> bool := (s: SubTask) => s.completed

  /** The task was completed on day `d`. */
  predicate DoneOn(t: Task, d: Day)
  {
    t.completedAt.Some? && DayOf(t.completedAt.value) == d
  }

  /**
   * What one task adds to day `d`: nothing unless it was completed on `d`;
   * then 1, plus 1 per completed subtask when it is an advanced task.
   */
  function Weight(t: Task, d: Day): nat
  {
    if DoneOn(t, d) then
      1 + (if t.kind == Advanced then Count(t.subTasks, SubTaskDone) else 0)
    else 0
  }

  /** What the loop has added to day `d` for task `t` once it has looked at its first k subtasks. */
  function Tallied(t: Task, d: Day, k: nat): nat
    requires k <= |t.subTasks|
  {
    if DoneOn(t, d) then
      1 + (if t.kind == Advanced then Count(t.subTasks[..k], SubTaskDone) else 0)
    else 0
  }

  /** Looking at one more subtask adds one exactly when it is completed and the task was completed on `d`. */
  lemma TalliedStep(t: Task, d: Day, k: nat)
    requires t.kind == Advanced && k < |t.subTasks|
    ensures Tallied(t, d, k + 1) == Tallied(t, d, k) + (if t.subTasks[k].completed && DoneOn(t, d) then 1 else 0)
  {
    CountSnoc(t.subTasks, k, SubTaskDone);
  }

  /** Before any subtask the loop has added the task's own 1; after all of them, its weight. */
  lemma TalliedEnds(t: Task, d: Day)
    ensures Tallied(t, d, 0) == (if DoneOn(t, d) then 1 else 0)
    ensures Tallied(t, d, |t.subTasks|) == Weight(t, d)
  {
    assert t.subTasks[..|t.subTasks|] == t.subTasks;
  }

  /** The count the dashboard shows for day `d`: the tasks' weights summed. */
  function DayTotal(ts: seq<Task>, d: Day): nat
  {
    if ts == [] then 0 else DayTotal(ts[..|ts| - 1], d) + Weight(ts[|ts| - 1], d)
  }

  lemma DayTotalSnoc(ts: seq<Task>, j: nat, d: Day)
    requires j < |ts|
    ensures DayTotal(ts[..j + 1], d) == DayTotal(ts[..j], d) + Weight(ts[j], d)
  {
    assert ts[..j + 1][..j] == ts[..j];
  }

  /** Adding task j's weights to the totals over the first j tasks gives the totals over j + 1. */
  lemma TotalsStep(ts: seq<Task>, j: nat, before: map<Day, nat>, counts: map<Day, nat>)
    requires j < |ts| && counts.Keys == before.Keys
    requires forall d :: d in before ==> before[d] == DayTotal(ts[..j], d)
    requires forall d :: d in counts ==> counts[d] == before[d] + Tallied(ts[j], d, |ts[j].subTasks|)
    ensures forall d :: d in counts ==> counts[d] == DayTotal(ts[..j + 1], d)
  {
    forall d | d in counts
      ensures counts[d] == DayTotal(ts[..j + 1], d)
    {
      DayTotalSnoc(ts, j, d);
      TalliedEnds(ts[j], d);
    }
  }

  lemma CountSnoc<T>(s: seq<T>, k: nat, p: T -> bool)
    requires k < |s|
    ensures Count(s[..k + 1], p) == Count(s[..k], p) + (if p(s[k]) then 1 else 0)
  {
    assert s[..k + 1][..k] == s[..k];
  }

  /** The days of the window, today − 364 to today. */
  predicate InWindow(d: Day, today: Day)
  {
    today - 364 <= d <= today
  }

  /**
   * getContributionData: one entry per day from today − 364 up to today, in
   * that order, each counting the weights of the tasks completed that day.
   * Completions outside the window create no entry.
   */
  method GetContributionData(ts: seq<Task>, today: Day) returns (data: seq<ContributionDay>)
    ensures |data| == 365
    ensures forall i :: 0 <= i < |data| ==> data[i].date == today - 364 + i
    ensures forall i :: 0 <= i < |data| ==> data[i].count == DayTotal(ts, data[i].date)
  {
    var days: seq<Day> := [];
    var counts: map<Day, nat> := map[];
    var i := 364;
    while i >= 0
      invariant -1 <= i <= 364
      invariant |days| == 364 - i
      invariant forall j :: 0 <= j < |days| ==> days[j] == today - 364 + j
      invariant forall d :: d in counts <==> today - 364 <= d < today - i
      invariant forall d :: d in counts ==> counts[d] == 0
    {
      days := days + [today - i];
      counts := counts[today - i := 0];
      i := i - 1;
    }
    for j := 0 to |ts|
      invariant forall d :: d in counts <==> InWindow(d, today)
      invariant forall d :: d in counts ==> counts[d] == DayTotal(ts[..j], d)
    {
      var t := ts[j];
      ghost var before := counts;
      if t.completedAt.Some? {
        var d := DayOf(t.completedAt.value);
        if d in counts {
          counts := counts[d := counts[d] + 1];
        }
      }
      forall d | d in counts ensures counts[d] == before[d] + Tallied(t, d, 0) {
        TalliedEnds(t, d);
      }
      if t.kind == Advanced {
        for k := 0 to |t.subTasks|
          invariant counts.Keys == before.Keys
          invariant forall d :: d in counts ==> counts[d] == before[d] + Tallied(t, d, k)
        {
          if t.subTasks[k].completed && t.completedAt.Some? {
            var d := DayOf(t.completedAt.value);
            if d in counts {
              counts := counts[d := counts[d] + 1];
            }
          }
          forall d | d in counts ensures counts[d] == before[d] + Tallied(t, d, k + 1) {
            TalliedStep(t, d, k);
          }
        }
      }
      TotalsStep(ts, j, before, counts);
    }
    assert ts[..|ts|] == ts;
    data := seq(|days|, k requires 0 <= k < |days| => ContributionDay(days[k], counts[days[k]]));
  }

  /**
   * The dashboard never shows fewer completions than the backend counts for
   * the same day, and shows the same number when no task is advanced.
   */
  lemma {:induction false} DayTotalCoversCompletions(ts: seq<Task>, d: Day)
    ensures DayTotal(ts, d) >= Contributions.CompletedOn(ts, d)
    ensures (forall i :: 0 <= i < |ts| ==> ts[i].kind == Simple) ==> DayTotal(ts, d) == Contributions.CompletedOn(ts, d)
    decreases |ts|
  {
    if ts != [] {
      var ts' := ts[..|ts| - 1];
      DayTotalCoversCompletions(ts', d);
      assert forall i :: 0 <= i < |ts'| ==> ts'[i] == ts[i];
    }
  }

  /** Euclidean division by a positive divisor brackets the dividend. */
  lemma DivBracket(a: nat, m: nat)
    requires 0 < m
    ensures m * (a / m) <= a < m * (a / m) + m
  {
    assert a == m * (a / m) + a % m;
  }

  /** A multiple of a positive m below m·k has a factor below k. */
  lemma FactorBelow(q: int, k: int, m: nat)
    requires 0 < m && m * q < m * k
    ensures q < k
  {
  }

  /**
   * `Math.round(completed / n * 100)` in integers: the percentage rounded
   * half up, that is the p with p − 1/2 <= 100·c/n < p + 1/2.
   */
  function RoundPercent(c: nat, n: nat): (p: nat)
    requires 0 < n && c <= n
    ensures p <= 100
    ensures 2 * n * p <= 200 * c + n < 2 * n * p + 2 * n
  {
    var m := 2 * n;
    var p := (200 * c + n) / m;
    DivBracket(200 * c + n, m);
    assert m * p < m * 101 by {
      assert 200 * c + n <= 200 * n + n;
      assert m * 101 == 202 * n;
    }
    FactorBelow(p, 101, m);
    p
  }

  /** More completed subtasks never give a smaller percentage. */
  lemma RoundPercentMonotone(c1: nat, c2: nat, n: nat)
    requires 0 < n && c1 <= c2 <= n
    ensures RoundPercent(c1, n) <= RoundPercent(c2, n)
  {
    var m := 2 * n;
    var p1, p2 := RoundPercent(c1, n), RoundPercent(c2, n);
    assert m * p1 < m * (p2 + 1) by {
      assert m * (p2 + 1) == m * p2 + m;
    }
    FactorBelow(p1, p2 + 1, m);
  }

  /** No completed subtask gives 0 and all completed give 100. */
  lemma RoundPercentEnds(n: nat)
    requires 0 < n
    ensures RoundPercent(0, n) == 0 && RoundPercent(n, n) == 100
  {
    var m := 2 * n;
    var z := RoundPercent(0, n);
    assert m * z < m * 1;
    FactorBelow(z, 1, m);
    var f := RoundPercent(n, n);
    assert m * 100 < m * (f + 1) by {
      assert m * 100 == 200 * n;
      assert m * (f + 1) == m * f + m;
    }
    FactorBelow(100, f + 1, m);
  }

  /**
   * getTaskProgress: a simple task is 100 or 0 by its completion; an
   * advanced task without subtasks is 0; otherwise the rounded share of its
   * completed subtasks.
   */
  function TaskProgress(t: Task): (p: nat)
    ensures p <= 100
    ensures t.kind == Simple ==> p == (if t.completed then 100 else 0)
    ensures t.kind == Advanced && |t.subTasks| == 0 ==> p == 0
    ensures t.kind == Advanced && |t.subTasks| > 0 ==> p == RoundPercent(Count(t.subTasks, SubTaskDone), |t.subTasks|)
  {
    if t.kind == Simple then (if t.completed then 100 else 0)
    else if |t.subTasks| == 0 then 0
    else RoundPercent(Count(t.subTasks, SubTaskDone), |t.subTasks|)
  }
}
