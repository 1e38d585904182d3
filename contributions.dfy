/**
 * The contribution series of both backends (get_contributions in
 * app/storage.py, getContributions in src/storage.js): completions counted
 * per calendar day over a window, the series listed from the end day back to
 * the start day, its total, and the longest and current streaks of days with
 * at least one completion.
 *
 * A streak is computed over the counts in series order, newest day first.
 */
module Contributions {
  import opened Model
  import opened Seqs

  datatype ContributionSummary = ContributionSummary(totalContributions: nat, longestStreak: nat, currentStreak: nat)

  datatype ContributionReport = ContributionReport(data: seq<ContributionDay>, summary: ContributionSummary)

  /** The `days` query parameter the Python router accepts (ge=1, le=365). */
  predicate DaysInRange(days: int)
  {
    1 <= days <= 365
  }

  /**
   * The window [start, end]: `end` is the given end date or today; `start` is
   * the given start date or `days - 1` days before the end.
   */
  function Window(startDate: Option<Day>, endDate: Option<Day>, days: int, today: Day): (w: (Day, Day))
    ensures w.1 == (if endDate.Some? then endDate.value else today)
    ensures startDate.Some? ==> w.0 == startDate.value
    ensures startDate.None? ==> w.1 - w.0 == days - 1
  {
    var end := if endDate.Some? then endDate.value else today;
    var start := if startDate.Some? then startDate.value else end - (days - 1);
    (start, end)
  }

  /** Number of days in [start, end]; an inverted window is empty. */
  function WindowLength(start: Day, end: Day): nat
  {
    if start <= end then end - start + 1 else 0
  }

  function CompletedOnDay(d: Day): Task -> bool
  {
    (t: Task) => t.completedAt.Some? && DayOf(t.completedAt.value) == d
  }

  function CompletedWithin(start: Day, end: Day): Task -> bool
  {
    (t: Task) => t.completedAt.Some? && start <= DayOf(t.completedAt.value) <= end
  }

  /** The number of tasks completed on day `d`. */
  function CompletedOn(ts: seq<Task>, d: Day): nat
  {
    Count(ts, CompletedOnDay(d))
  }

  /** `contributions.get(date, 0)`. */
  function Lookup(m: map<Day, nat>, d: Day): nat
  {
    if d in m then m[d] else 0
  }

  /**
   * The per-day counter loop: for every task with a completion time inside the
   * window, add one to the entry of its day. Only days of the window appear as
   * keys, and each day of the window maps to its number of completions.
   */
  method CountCompletions(ts: seq<Task>, start: Day, end: Day) returns (m: map<Day, nat>)
    ensures forall d :: d in m ==> start <= d <= end
    ensures forall d :: start <= d <= end ==> Lookup(m, d) == CompletedOn(ts, d)
  {
    m := map[];
    for i := 0 to |ts|
      invariant forall d :: d in m ==> start <= d <= end
      invariant forall d :: start <= d <= end ==> Lookup(m, d) == CompletedOn(ts[..i], d)
    {
      var t := ts[i];
      if t.completedAt.Some? {
        var day := DayOf(t.completedAt.value);
        if start <= day <= end {
          m := m[day := Lookup(m, day) + 1];
        }
      }
      forall d | start <= d <= end ensures Lookup(m, d) == CompletedOn(ts[..i + 1], d) {
        CompletedOnSnoc(ts, i, d);
      }
    }
    assert ts[..|ts|] == ts;
  }

  lemma CompletedOnSnoc(ts: seq<Task>, i: int, d: Day)
    requires 0 <= i < |ts|
    ensures CompletedOn(ts[..i + 1], d) == CompletedOn(ts[..i], d) + (if CompletedOnDay(d)(ts[i]) then 1 else 0)
  {
    assert ts[..i + 1][..i] == ts[..i];
  }

  /**
   * The series loop: one entry per day from `end` back to `start`, each with
   * the count looked up for its day.
   */
  method BuildSeries(m: map<Day, nat>, start: Day, end: Day) returns (series: seq<ContributionDay>)
    ensures |series| == WindowLength(start, end)
    ensures forall i :: 0 <= i < |series| ==> series[i] == ContributionDay(end - i, Lookup(m, end - i))
  {
    series := [];
    var current := end;
    while current >= start
      invariant current <= end && current >= (if start <= end then start - 1 else end)
      invariant |series| == end - current
      invariant forall i :: 0 <= i < |series| ==> series[i] == ContributionDay(end - i, Lookup(m, end - i))
      decreases current - start
    {
      series := series + [ContributionDay(current, Lookup(m, current))];
      current := current - 1;
    }
  }

  /** The counts of a series, in series order. */
  function SeriesCounts(series: seq<ContributionDay>): (c: seq<nat>)
    ensures |c| == |series|
    ensures forall i :: 0 <= i < |c| ==> c[i] == series[i].count
  {
    seq(|series|, i requires 0 <= i < |series| => series[i].count)
  }

  /** The number of completions on each day of the window, from `end` back to `start`. */
  function ContributionCounts(ts: seq<Task>, start: Day, end: Day): (c: seq<nat>)
    ensures |c| == WindowLength(start, end)
    ensures forall i :: 0 <= i < |c| ==> c[i] == CompletedOn(ts, end - i)
  {
    seq(WindowLength(start, end), i requires 0 <= i < WindowLength(start, end) => CompletedOn(ts, end - i))
  }

  /**
   * The contribution series of a window: every day from `end` back to `start`
   * once, paired with the number of tasks completed that day.
   */
  method Series(ts: seq<Task>, start: Day, end: Day) returns (series: seq<ContributionDay>)
    ensures |series| == WindowLength(start, end)
    ensures forall i :: 0 <= i < |series| ==> series[i].date == end - i
    ensures SeriesCounts(series) == ContributionCounts(ts, start, end)
  {
    var m := CountCompletions(ts, start, end);
    series := BuildSeries(m, start, end);
  }

  /** Splitting a predicate into two disjoint cases splits its count. */
  lemma {:induction false} CountSplitDisjoint<T>(s: seq<T>, p: T -> bool, q: T -> bool, r: T -> bool)
    requires forall i :: 0 <= i < |s| ==> p(s[i]) == (q(s[i]) || r(s[i])) && !(q(s[i]) && r(s[i]))
    ensures Count(s, p) == Count(s, q) + Count(s, r)
    decreases |s|
  {
    if s != [] {
      CountSplitDisjoint(s[..|s| - 1], p, q, r);
    }
  }

  /**
   * The total of the series (`sum` / `reduce`) is the number of tasks whose
   * completion day falls inside the window: each such task is counted once.
   */
  lemma {:induction false} SumContributionCounts(ts: seq<Task>, start: Day, end: Day)
    ensures Sum(ContributionCounts(ts, start, end)) == Count(ts, CompletedWithin(start, end))
    decreases WindowLength(start, end)
  {
    var c := ContributionCounts(ts, start, end);
    if start > end {
      FilterCongruent(ts, CompletedWithin(start, end), (t: Task) => false);
      assert Count(ts, (t: Task) => false) == 0 by {
        ZeroCount(ts, (t: Task) => false);
      }
    } else {
      SumContributionCounts(ts, start + 1, end);
      assert c[..|c| - 1] == ContributionCounts(ts, start + 1, end);
      assert c[|c| - 1] == CompletedOn(ts, start);
      CountSplitDisjoint(ts, CompletedWithin(start, end), CompletedWithin(start + 1, end), CompletedOnDay(start));
    }
  }

  lemma {:induction false} ZeroCount<T>(s: seq<T>, p: T -> bool)
    requires forall i :: 0 <= i < |s| ==> !p(s[i])
    ensures Count(s, p) == 0
    decreases |s|
  {
    if s != [] {
      ZeroCount(s[..|s| - 1], p);
    }
  }

  // ---------------------------------------------------------------------
  // Streaks over a sequence of counts.

  /** `c[i..i+n]` is a run of days that all have a completion. */
  predicate IsRun(c: seq<nat>, i: int, n: int)
  {
    0 <= i && 0 <= n && i + n <= |c| && forall j :: i <= j < i + n ==> c[j] > 0
  }

  /** The length of the run of positive counts at the end of `c` (`temp_streak` after the loop). */
  function TrailingRun(c: seq<nat>): (n: nat)
    ensures IsRun(c, |c| - n, n)
    ensures n < |c| ==> c[|c| - 1 - n] == 0
  {
    if c == [] || c[|c| - 1] == 0 then 0 else TrailingRun(c[..|c| - 1]) + 1
  }

  /** The length of the run of positive counts at the start of `c`: days with a completion counted back from the newest day. */
  function LeadingRun(c: seq<nat>): (n: nat)
    ensures IsRun(c, 0, n)
    ensures n < |c| ==> c[n] == 0
  {
    if c == [] || c[0] == 0 then 0 else LeadingRun(c[1..]) + 1
  }

  /** The longest run seen so far, as the `max(longest_streak, temp_streak)` loop maintains it. */
  function LongestRun(c: seq<nat>): (n: nat)
    ensures n <= |c|
    ensures TrailingRun(c) <= n
  {
    if c == [] then 0
    else
      var before := LongestRun(c[..|c| - 1]);
      var t := TrailingRun(c);
      if before < t then t else before
  }

  lemma RunInPrefix(c: seq<nat>, k: int, i: int, n: int)
    requires 0 <= k <= |c| && IsRun(c[..k], i, n)
    ensures IsRun(c, i, n)
  {
    forall j | i <= j < i + n ensures c[j] > 0 {
      assert c[..k][j] == c[j];
    }
  }

  /** LongestRun is the length of a run and no run is longer. */
  lemma {:induction false} LongestRunIsMaximum(c: seq<nat>)
    ensures exists i :: IsRun(c, i, LongestRun(c))
    ensures forall i, n :: IsRun(c, i, n) ==> n <= LongestRun(c)
    decreases |c|
  {
    if c == [] {
      assert IsRun(c, 0, LongestRun(c));
    } else {
      var p := c[..|c| - 1];
      LongestRunIsMaximum(p);
      var t := TrailingRun(c);
      if LongestRun(p) < t {
        assert IsRun(c, |c| - t, LongestRun(c));
      } else {
        var i :| IsRun(p, i, LongestRun(p));
        RunInPrefix(c, |c| - 1, i, LongestRun(p));
        assert IsRun(c, i, LongestRun(c));
      }
      forall i, n | IsRun(c, i, n) ensures n <= LongestRun(c) {
        if i + n < |c| {
          assert IsRun(p, i, n);
        }
      }
    }
  }

  /** A window without completions has no streaks, in either backend. */
  lemma NoCompletionsNoStreak(c: seq<nat>)
    requires forall i :: 0 <= i < |c| ==> c[i] == 0
    ensures LeadingRun(c) == 0 && LongestRun(c) == 0
    ensures JsCurrentStreak(c) == 0
  {
    LongestRunIsMaximum(c);
    var i :| IsRun(c, i, LongestRun(c));
    JsCurrentStreakIsRun(c);
  }

  /** The current (leading) streak never exceeds the longest one. */
  lemma LeadingRunAtMostLongest(c: seq<nat>)
    ensures LeadingRun(c) <= LongestRun(c)
  {
    LongestRunIsMaximum(c);
  }

  /** The loop's `temp_streak` after the first i days: TrailingRun(c[..i]), counted by index. */
  function TempAfter(c: seq<nat>, i: nat): nat
    requires i <= |c|
  {
    if i == 0 || c[i - 1] == 0 then 0 else TempAfter(c, i - 1) + 1
  }

  /** The loop's `longest_streak` after the first i days: LongestRun(c[..i]), counted by index. */
  function LongestAfter(c: seq<nat>, i: nat): nat
    requires i <= |c|
  {
    if i == 0 then 0
    else
      var before := LongestAfter(c, i - 1);
      var t := TempAfter(c, i);
      if before < t then t else before
  }

  /** The index forms agree with the run functions on every prefix. */
  lemma {:induction false} AfterIsRun(c: seq<nat>, i: nat)
    requires i <= |c|
    ensures TempAfter(c, i) == TrailingRun(c[..i])
    ensures LongestAfter(c, i) == LongestRun(c[..i])
  {
    if i > 0 {
      AfterIsRun(c, i - 1);
      RunsStep(c, i - 1);
    }
  }

  /** The Python streak loops: the longest run, and the run counted from the newest day until the first day without completions. */
  method PyStreaks(c: seq<nat>) returns (longest: nat, current: nat)
    ensures longest == LongestRun(c)
    ensures current == LeadingRun(c)
  {
    var temp: nat := 0;
    longest := 0;
    for i := 0 to |c|
      invariant temp == TempAfter(c, i)
      invariant longest == LongestAfter(c, i)
    {
      if c[i] > 0 {
        temp := temp + 1;
        longest := if longest < temp then temp else longest;
      } else {
        temp := 0;
      }
    }
    AfterIsRun(c, |c|);
    assert c[..|c|] == c;
    current := 0;
    for i := 0 to |c|
      invariant current == i
      invariant forall j :: 0 <= j < i ==> c[j] > 0
    {
      if c[i] > 0 {
        current := current + 1;
      } else {
        LeadingRunIs(c, i);
        return;
      }
    }
    LeadingRunIs(c, |c|);
  }

  /** One more day: the trailing run grows by one or resets, and the longest run takes the larger. */
  lemma RunsStep(c: seq<nat>, i: nat)
    requires i < |c|
    ensures TrailingRun(c[..i + 1]) == if c[i] > 0 then TrailingRun(c[..i]) + 1 else 0
    ensures LongestRun(c[..i + 1]) == if LongestRun(c[..i]) < TrailingRun(c[..i + 1]) then TrailingRun(c[..i + 1]) else LongestRun(c[..i])
  {
    assert c[..i + 1][..i] == c[..i];
  }

  lemma LeadingRunIs(c: seq<nat>, n: nat)
    requires n <= |c|
    requires forall j :: 0 <= j < n ==> c[j] > 0
    requires n < |c| ==> c[n] == 0
    ensures LeadingRun(c) == n
  {
  }

  /** `currentStreak` of the JavaScript loop: the first run that a day without completions closes. */
  function JsLoopCurrent(c: seq<nat>): nat
  {
    if c == [] then 0
    else
      var p := c[..|c| - 1];
      var current := JsLoopCurrent(p);
      if c[|c| - 1] == 0 && current == 0 && TrailingRun(p) > 0 then TrailingRun(p) else current
  }

  /**
   * `currentStreak` as src/storage.js returns it: after the loop, when the
   * newest day has a completion, it is replaced by the trailing run (the run
   * ending at the oldest day) whenever that run is non-empty.
   */
  function JsCurrentStreak(c: seq<nat>): nat
  {
    if |c| > 0 && c[0] > 0 && TrailingRun(c) > 0 then TrailingRun(c) else JsLoopCurrent(c)
  }

  /** The loop's `currentStreak` after the first i days: JsLoopCurrent(c[..i]), counted by index. */
  function JsCurrentAfter(c: seq<nat>, i: nat): nat
    requires i <= |c|
  {
    if i == 0 then 0
    else
      var current := JsCurrentAfter(c, i - 1);
      if c[i - 1] == 0 && current == 0 && TempAfter(c, i - 1) > 0 then TempAfter(c, i - 1) else current
  }

  lemma {:induction false} JsAfterIsLoop(c: seq<nat>, i: nat)
    requires i <= |c|
    ensures JsCurrentAfter(c, i) == JsLoopCurrent(c[..i])
  {
    if i > 0 {
      JsAfterIsLoop(c, i - 1);
      AfterIsRun(c, i - 1);
      assert c[..i][..i - 1] == c[..i - 1];
    }
  }

  /** The JavaScript streak loop and its correction after the loop. */
  method JsStreaks(c: seq<nat>) returns (longest: nat, current: nat)
    ensures longest == LongestRun(c)
    ensures current == JsCurrentStreak(c)
  {
    var temp: nat := 0;
    longest := 0;
    current := 0;
    for i := 0 to |c|
      invariant temp == TempAfter(c, i)
      invariant longest == LongestAfter(c, i)
      invariant current == JsCurrentAfter(c, i)
    {
      if c[i] > 0 {
        temp := temp + 1;
        longest := if longest < temp then temp else longest;
      } else {
        if current == 0 && temp > 0 {
          current := temp;
        }
        temp := 0;
      }
    }
    AfterIsRun(c, |c|);
    JsAfterIsLoop(c, |c|);
    assert c[..|c|] == c;
    if |c| > 0 && c[0] > 0 {
      current := if temp > 0 then temp else current;
    }
  }

  lemma {:induction false} JsLoopCurrentFindsLeadingRun(c: seq<nat>, i: nat)
    requires |c| > 0 && c[0] > 0 && i <= |c|
    ensures i <= LeadingRun(c) ==> JsLoopCurrent(c[..i]) == 0 && TrailingRun(c[..i]) == i
    ensures i > LeadingRun(c) ==> JsLoopCurrent(c[..i]) == LeadingRun(c)
    decreases i
  {
    if i > 0 {
      JsLoopCurrentFindsLeadingRun(c, i - 1);
      assert c[..i][..i - 1] == c[..i - 1];
      var l := LeadingRun(c);
      if i <= l {
        assert c[i - 1] > 0;
        RunsStep(c, i - 1);
      }
    }
  }

  /**
   * The JavaScript current streak equals the leading run when the newest day
   * has a completion and either the oldest day of the window has none or every
   * day has one.
   */
  lemma JsCurrentStreakAgrees(c: seq<nat>)
    requires |c| > 0 && c[0] > 0
    requires c[|c| - 1] == 0 || forall i :: 0 <= i < |c| ==> c[i] > 0
    ensures JsCurrentStreak(c) == LeadingRun(c)
  {
    JsLoopCurrentFindsLeadingRun(c, |c|);
    assert c[..|c|] == c;
    if c[|c| - 1] != 0 {
      LeadingRunIs(c, |c|);
    }
  }

  /**
   * The JavaScript current streak is the length of some run, so it never
   * exceeds the longest streak.
   */
  lemma JsCurrentStreakIsRun(c: seq<nat>)
    ensures exists i :: IsRun(c, i, JsCurrentStreak(c))
    ensures JsCurrentStreak(c) <= LongestRun(c)
  {
    JsLoopCurrentIsRun(c);
    LongestRunIsMaximum(c);
    if |c| > 0 && c[0] > 0 && TrailingRun(c) > 0 {
      assert IsRun(c, |c| - TrailingRun(c), JsCurrentStreak(c));
    } else {
      var i :| IsRun(c, i, JsLoopCurrent(c));
      assert IsRun(c, i, JsCurrentStreak(c));
    }
  }

  lemma {:induction false} JsLoopCurrentIsRun(c: seq<nat>)
    ensures exists i :: IsRun(c, i, JsLoopCurrent(c))
    decreases |c|
  {
    if c == [] {
      assert IsRun(c, 0, JsLoopCurrent(c));
    } else {
      var p := c[..|c| - 1];
      JsLoopCurrentIsRun(p);
      if c[|c| - 1] == 0 && JsLoopCurrent(p) == 0 && TrailingRun(p) > 0 {
        RunInPrefix(c, |c| - 1, |p| - TrailingRun(p), TrailingRun(p));
        assert IsRun(c, |p| - TrailingRun(p), JsLoopCurrent(c));
      } else {
        var i :| IsRun(p, i, JsLoopCurrent(p));
        RunInPrefix(c, |c| - 1, i, JsLoopCurrent(p));
        assert IsRun(c, i, JsLoopCurrent(c));
      }
    }
  }

  /** Day z closes a run: it has no completion and the day before it has one. */
  predicate Closes(c: seq<nat>, z: int)
  {
    0 < z < |c| && c[z] == 0 && c[z - 1] > 0
  }

  /** Day z is the first day of `c` that closes a run. */
  predicate FirstCloser(c: seq<nat>, z: int)
  {
    Closes(c, z) && forall y :: 0 < y < z ==> !Closes(c, y)
  }

  /** Without a day that closes a run, the loop never sets `currentStreak`. */
  lemma {:induction false} JsLoopCurrentNoCloser(c: seq<nat>)
    requires forall z :: 0 < z < |c| ==> !Closes(c, z)
    ensures JsLoopCurrent(c) == 0
    decreases |c|
  {
    if c != [] {
      var p := c[..|c| - 1];
      forall z | 0 < z < |p| ensures !Closes(p, z) {
        assert !Closes(c, z);
      }
      JsLoopCurrentNoCloser(p);
      if c[|c| - 1] == 0 && TrailingRun(p) > 0 {
        assert Closes(c, |c| - 1);
      }
    }
  }

  /** The loop's `currentStreak` is the run that the first closing day ends. */
  lemma {:induction false} JsLoopCurrentFirstCloser(c: seq<nat>, z: int)
    requires FirstCloser(c, z)
    ensures JsLoopCurrent(c) == TrailingRun(c[..z]) > 0
    decreases |c|
  {
    var p := c[..|c| - 1];
    assert c[..z][..z - 1] == c[..z - 1];
    if z == |c| - 1 {
      forall y | 0 < y < |p| ensures !Closes(p, y) {
        assert !Closes(c, y);
      }
      JsLoopCurrentNoCloser(p);
      assert p == c[..z];
    } else {
      forall y | 0 < y < z ensures !Closes(p, y) {
        assert !Closes(c, y);
      }
      assert Closes(p, z);
      JsLoopCurrentFirstCloser(p, z);
      assert p[..z] == c[..z];
    }
  }

  /**
   * With no completion on the newest day, the JavaScript current streak is the
   * first run (counted from the newest day) that a day without completions
   * closes, and 0 when no day closes a run.
   */
  lemma JsCurrentStreakWithoutTodayIsFirstClosed(c: seq<nat>)
    requires |c| > 0 && c[0] == 0
    ensures forall z :: FirstCloser(c, z) ==> JsCurrentStreak(c) == TrailingRun(c[..z]) > 0
    ensures (forall z :: 0 < z < |c| ==> !Closes(c, z)) ==> JsCurrentStreak(c) == 0
  {
    forall z | FirstCloser(c, z) ensures JsCurrentStreak(c) == TrailingRun(c[..z]) > 0 {
      JsLoopCurrentFirstCloser(c, z);
    }
    if forall z :: 0 < z < |c| ==> !Closes(c, z) {
      JsLoopCurrentNoCloser(c);
    }
  }

  /**
   * The JavaScript current streak can differ from the run counted back from
   * the newest day: with a completion today, none yesterday and completions on
   * the two oldest days, it reports the oldest run (2) instead of 1.
   */
  lemma JsCurrentStreakCounterexample()
    ensures JsCurrentStreak([1, 0, 1, 1]) == 2 && LeadingRun([1, 0, 1, 1]) == 1
  {
    var a: seq<nat> := [1, 0, 1, 1];
    assert a[..3] == [1, 0, 1] && a[..3][..2] == [1, 0] && [1, 0][..1] == [1];
    assert a[1..] == [0, 1, 1];
    assert [1, 0][..1] == [1] && [1][..0] == [];
    assert [1, 0, 1][..2] == [1, 0];
  }

  /** With no completion today the JavaScript current streak can still be positive. */
  lemma JsCurrentStreakWithoutToday()
    ensures JsCurrentStreak([0, 1, 0]) == 1 && LeadingRun([0, 1, 0]) == 0
  {
    var b: seq<nat> := [0, 1, 0];
    assert b[..2] == [0, 1] && b[..2][..1] == [0] && [0][..0] == [];
    assert [0, 1][..1] == [0];
    assert TrailingRun([0, 1]) == 1;
    assert JsLoopCurrent([0, 1]) == 0;
  }

  /**
   * get_contributions of app/storage.py over the stored tasks: the series,
   * its total, the longest run and the run counted back from the end day.
   */
  method PyContributions(ts: seq<Task>, startDate: Option<Day>, endDate: Option<Day>, days: int, today: Day) returns (r: ContributionReport)
    ensures var (start, end) := Window(startDate, endDate, days, today);
      && |r.data| == WindowLength(start, end)
      && (forall i :: 0 <= i < |r.data| ==> r.data[i].date == end - i)
      && SeriesCounts(r.data) == ContributionCounts(ts, start, end)
      && r.summary.totalContributions == Count(ts, CompletedWithin(start, end))
      && r.summary.longestStreak == LongestRun(SeriesCounts(r.data))
      && r.summary.currentStreak == LeadingRun(SeriesCounts(r.data))
  {
    var (start, end) := Window(startDate, endDate, days, today);
    var series := Series(ts, start, end);
    var counts := SeriesCounts(series);
    SumContributionCounts(ts, start, end);
    var longest, current := PyStreaks(counts);
    r := ContributionReport(series, ContributionSummary(Sum(counts), longest, current));
  }

  /**
   * getContributions of src/storage.js over the stored tasks: the same series
   * and total, with the current streak of the JavaScript loop.
   */
  method JsContributions(ts: seq<Task>, startDate: Option<Day>, endDate: Option<Day>, days: int, today: Day) returns (r: ContributionReport)
    ensures var (start, end) := Window(startDate, endDate, days, today);
      && |r.data| == WindowLength(start, end)
      && (forall i :: 0 <= i < |r.data| ==> r.data[i].date == end - i)
      && SeriesCounts(r.data) == ContributionCounts(ts, start, end)
      && r.summary.totalContributions == Count(ts, CompletedWithin(start, end))
      && r.summary.longestStreak == LongestRun(SeriesCounts(r.data))
      && r.summary.currentStreak == JsCurrentStreak(SeriesCounts(r.data))
  {
    var (start, end) := Window(startDate, endDate, days, today);
    var series := Series(ts, start, end);
    var counts := SeriesCounts(series);
    SumContributionCounts(ts, start, end);
    var longest, current := JsStreaks(counts);
    r := ContributionReport(series, ContributionSummary(Sum(counts), longest, current));
  }
}
