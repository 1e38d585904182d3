/**
 * The calendar view of the dashboard (src/components/ContributionGraph.tsx):
 * colour levels, the chunking of the days from the Sunday before
 * today − 364 up to today into weeks, the month labels above the weeks, and
 * the total shown in the header. A cell is a ContributionDay: a date and the
 * count the data gives it.
 */
module ContributionGraph {
  import opened Model
  import opened Seqs
  import Contributions

  /** The five colour bands of getColorLevel: 0, 1, 2–3, 4–5 and 6 or more. */
  function Level(count: int): (l: nat)
    ensures l <= 4
    ensures count == 0 ==> l == 0
    ensures count == 1 ==> l == 1
    ensures 2 <= count <= 3 ==> l == 2
    ensures 4 <= count <= 5 ==> l == 3
    ensures count >= 6 ==> l == 4
  {
    if count == 0 then 0
    else if count == 1 then 1
    else if count <= 3 then 2
    else if count <= 5 then 3
    else 4
  }

  const Palette: seq<string> := ["#ebedf0", "#9be9a8", "#40c463", "#30a14e", "#216e39"]

  /** getColorLevel: the colour of a count's band. */
  function ColorLevel(count: int): string
  {
    Palette[Level(count)]
  }

  /** A larger count is never drawn in a lighter band. */
  lemma LevelMonotone(a: int, b: int)
    requires 0 <= a <= b
    ensures Level(a) <= Level(b)
  {
  }

  /** `new Map(data.map(d => [d.date, d.count]))`: a later entry for the same date replaces an earlier one. */
  function DataMap(data: seq<ContributionDay>): (m: map<Day, nat>)
    ensures forall d :: d in m ==> exists i :: 0 <= i < |data| && data[i].date == d
    ensures |data| > 0 ==> data[|data| - 1].date in m && m[data[|data| - 1].date] == data[|data| - 1].count
  {
    if data == [] then map[]
    else DataMap(data[..|data| - 1])[data[|data| - 1].date := data[|data| - 1].count]
  }

  /** Every date of the data is in the map, with the count of its last entry. */
  lemma {:induction false} DataMapLastWins(data: seq<ContributionDay>, i: nat)
    requires i < |data|
    requires forall j :: i < j < |data| ==> data[j].date != data[i].date
    ensures data[i].date in DataMap(data) && DataMap(data)[data[i].date] == data[i].count
    decreases |data|
  {
    if i < |data| - 1 {
      var prefix := data[..|data| - 1];
      DataMapLastWins(prefix, i);
    }
  }

  /** The cells of the days `start` to `end`, each with its count looked up (0 when absent). */
  function Cells(m: map<Day, nat>, start: Day, end: Day): (r: seq<ContributionDay>)
    ensures |r| == if start <= end then end - start + 1 else 0
    ensures forall i :: 0 <= i < |r| ==> r[i] == ContributionDay(start + i, Contributions.Lookup(m, start + i))
    decreases end - start
  {
    if start > end then [] else Cells(m, start, end - 1) + [ContributionDay(end, Contributions.Lookup(m, end))]
  }

  /** The weeks laid end to end. */
  function Flatten(weeks: seq<seq<ContributionDay>>): seq<ContributionDay>
  {
    if weeks == [] then [] else Flatten(weeks[..|weeks| - 1]) + weeks[|weeks| - 1]
  }

  lemma FlattenSnoc(weeks: seq<seq<ContributionDay>>, w: seq<ContributionDay>)
    ensures Flatten(weeks + [w]) == Flatten(weeks) + w
  {
    assert (weeks + [w])[..|weeks|] == weeks;
  }

  function Min(a: int, b: int): int
  {
    if a <= b then a else b
  }

  /**
   * The state of the week loop after it has seen the cells `c`: the closed
   * weeks and the open week. A week is closed when it reaches seven days.
   */
  function Chunk(c: seq<ContributionDay>): (seq<seq<ContributionDay>>, seq<ContributionDay>)
  {
    if c == [] then ([], [])
    else
      var (weeks, week) := Chunk(c[..|c| - 1]);
      var week' := week + [c[|c| - 1]];
      if |week'| == 7 then (weeks + [week'], []) else (weeks, week')
  }

  /** The loop's closed weeks have seven days, the open week fewer, and together they are the cells. */
  lemma {:induction false} ChunkSpec(c: seq<ContributionDay>)
    ensures Flatten(Chunk(c).0) + Chunk(c).1 == c
    ensures forall i :: 0 <= i < |Chunk(c).0| ==> |Chunk(c).0[i]| == 7
    ensures |Chunk(c).1| < 7
    decreases |c|
  {
    if c != [] {
      var c' := c[..|c| - 1];
      ChunkSpec(c');
      var weeks, week := Chunk(c').0, Chunk(c').1;
      var week' := week + [c[|c| - 1]];
      assert c == c' + [c[|c| - 1]];
      if |week'| == 7 {
        FlattenSnoc(weeks, week');
      }
    }
  }

  /** The weeks the loop ends with for the cells `c`: the closed weeks, then the open one if any. */
  function Close(c: seq<ContributionDay>): seq<seq<ContributionDay>>
  {
    if Chunk(c).1 == [] then Chunk(c).0 else Chunk(c).0 + [Chunk(c).1]
  }

  /** The closed weeks laid end to end are the cells. */
  lemma CloseFlatten(c: seq<ContributionDay>)
    ensures Flatten(Close(c)) == c
  {
    ChunkSpec(c);
    if Chunk(c).1 != [] {
      FlattenSnoc(Chunk(c).0, Chunk(c).1);
    }
  }

  /** No closed week is empty or longer than seven days, and all but the last have seven. */
  lemma CloseSizes(c: seq<ContributionDay>)
    ensures forall i :: 0 <= i < |Close(c)| ==> 0 < |Close(c)[i]| <= 7
    ensures forall i :: 0 <= i < |Close(c)| - 1 ==> |Close(c)[i]| == 7
  {
    ChunkSpec(c);
    var full := Chunk(c).0;
    assert forall i :: 0 <= i < |full| ==> Close(c)[i] == full[i];
  }

  /** The weeks the graph draws for the days `start` to `end`. */
  function Weeks(m: map<Day, nat>, start: Day, end: Day): seq<seq<ContributionDay>>
  {
    Close(Cells(m, start, end))
  }

  /**
   * Laid end to end the weeks are the cells from `start` through `end`; no
   * week is empty or longer than seven days, all but the last have seven,
   * and week i begins on day start + 7·i.
   */
  lemma WeeksSpec(m: map<Day, nat>, start: Day, end: Day)
    ensures Flatten(Weeks(m, start, end)) == Cells(m, start, end)
    ensures forall i :: 0 <= i < |Weeks(m, start, end)| ==> 0 < |Weeks(m, start, end)[i]| <= 7
    ensures forall i :: 0 <= i < |Weeks(m, start, end)| - 1 ==> |Weeks(m, start, end)[i]| == 7
    ensures forall i :: 0 <= i < |Weeks(m, start, end)| ==> Weeks(m, start, end)[i][0].date == start + 7 * i
  {
    var c := Cells(m, start, end);
    CloseFlatten(c);
    CloseSizes(c);
    var weeks: seq<seq<ContributionDay>> := Close(c);
    forall i: nat | i < |weeks| ensures weeks[i][0].date == start + 7 * i {
      WeekBegins(c, weeks, i);
    }
  }

  /** In weeks of seven that lay end to end to the cells, week i begins at cell 7·i. */
  lemma WeekBegins(c: seq<ContributionDay>, weeks: seq<seq<ContributionDay>>, i: nat)
    requires Flatten(weeks) == c && i < |weeks| && |weeks[i]| > 0
    requires forall j :: 0 <= j < |weeks| - 1 ==> |weeks[j]| == 7
    ensures 7 * i < |c| && weeks[i][0] == c[7 * i]
  {
    var before := weeks[..i];
    assert forall j :: 0 <= j < |before| ==> |before[j]| == 7 && before[j] == weeks[j];
    FlattenLength(before);
    FlattenPrefix(weeks, i);
  }

  /** The weeks up to i, laid end to end, are followed by week i. */
  lemma {:induction false} FlattenPrefix(weeks: seq<seq<ContributionDay>>, i: nat)
    requires i < |weeks|
    ensures Flatten(weeks[..i]) + weeks[i] == Flatten(weeks[..i + 1])
    ensures Flatten(weeks[..i + 1]) <= Flatten(weeks)
    decreases |weeks|
  {
    assert weeks[..i + 1] == weeks[..i] + [weeks[i]];
    FlattenSnoc(weeks[..i], weeks[i]);
    if i < |weeks| - 1 {
      var w' := weeks[..|weeks| - 1];
      FlattenPrefix(w', i);
      assert w'[..i + 1] == weeks[..i + 1];
      FlattenSnoc(w', weeks[|weeks| - 1]);
      assert weeks == w' + [weeks[|weeks| - 1]];
    } else {
      assert weeks[..i + 1] == weeks;
    }
  }

  /**
   * The week loop: walks the days from `start`, closing a week after seven
   * days and closing the last, partial week after today.
   */
  method BuildWeeks(m: map<Day, nat>, start: Day, today: Day) returns (weeks: seq<seq<ContributionDay>>)
    ensures weeks == Weeks(m, start, today)
  {
    weeks := [];
    var current := start;
    var week: seq<ContributionDay> := [];
    ghost var cells: seq<ContributionDay> := [];
    ghost var closed := false;
    while current <= today || |week| > 0
      invariant current == start || current <= today + 1
      invariant cells == Cells(m, start, current - 1)
      invariant (weeks, week) == Chunk(cells)
      invariant !closed
      decreases today + 2 - current
    {
      var count := Contributions.Lookup(m, current);
      if current <= today {
        ChunkSnoc(cells, ContributionDay(current, count));
        CellsSnoc(m, start, current);
        cells := cells + [ContributionDay(current, count)];
        week := week + [ContributionDay(current, count)];
        if |week| == 7 {
          weeks := weeks + [week];
          week := [];
        }
        current := current + 1;
        if current > today && |week| == 0 {
          break;
        }
      } else {
        // past today: close the partial week, which ends the loop
        LoopEnd(m, start, today, current, weeks, week);
        weeks := weeks + [week];
        week := [];
        current := current + 1;
        closed := true;
        break;
      }
    }
    if !closed {
      LoopEnd(m, start, today, current, weeks, week);
    }
  }

  /** One more cell is one step of Chunk. */
  lemma ChunkSnoc(c: seq<ContributionDay>, x: ContributionDay)
    ensures var week' := Chunk(c).1 + [x];
      Chunk(c + [x]) == if |week'| == 7 then (Chunk(c).0 + [week'], []) else (Chunk(c).0, week')
  {
    assert (c + [x])[..|c|] == c;
  }

  /** When the loop stops after today, its weeks (with the open week closed) are the graph's weeks. */
  lemma LoopEnd(m: map<Day, nat>, start: Day, today: Day, current: Day, weeks: seq<seq<ContributionDay>>, week: seq<ContributionDay>)
    requires current > today && (current == start || current <= today + 1)
    requires (weeks, week) == Chunk(Cells(m, start, current - 1))
    ensures (if week == [] then weeks else weeks + [week]) == Weeks(m, start, today)
  {
    assert Cells(m, start, current - 1) == Cells(m, start, today);
  }

  lemma {:induction false} FlattenLength(weeks: seq<seq<ContributionDay>>)
    requires forall i :: 0 <= i < |weeks| ==> |weeks[i]| == 7
    ensures |Flatten(weeks)| == 7 * |weeks|
  {
    if weeks != [] {
      FlattenLength(weeks[..|weeks| - 1]);
    }
  }

  lemma CellsSnoc(m: map<Day, nat>, start: Day, end: Day)
    requires start <= end
    ensures Cells(m, start, end) == Cells(m, start, end - 1) + [ContributionDay(end, Contributions.Lookup(m, end))]
  {
  }

  /** Day start + 7·i falls on the same weekday as `start`. */
  lemma WeekdayRepeats(start: Day, i: nat)
    ensures DayOfWeek(start + 7 * i) == DayOfWeek(start)
  {
    assert start + 7 * i + 4 == (start + 4) + 7 * i;
  }

  /**
   * The graph's weeks: from the Sunday on or before today − 364 through
   * today, chunked as above, every week beginning on a Sunday.
   */
  method GraphWeeks(data: seq<ContributionDay>, today: Day) returns (start: Day, weeks: seq<seq<ContributionDay>>)
    ensures start <= today - 364 < start + 7 && DayOfWeek(start) == 0
    ensures Flatten(weeks) == Cells(DataMap(data), start, today)
    ensures forall i :: 0 <= i < |weeks| ==> 0 < |weeks[i]| <= 7 && DayOfWeek(weeks[i][0].date) == 0
    ensures forall i :: 0 <= i < |weeks| - 1 ==> |weeks[i]| == 7
  {
    start := StartOfWeek(today - 364);
    weeks := BuildWeeks(DataMap(data), start, today);
    WeeksSpec(DataMap(data), start, today);
    forall i | 0 <= i < |weeks|
      ensures DayOfWeek(weeks[i][0].date) == 0
    {
      WeekdayRepeats(start, i);
    }
  }

  /** A month number as getMonth returns it. */
  type Month = m: int | 0 <= m < 12

  const MonthNames: seq<string> := ["Jan", "Feb", "Mar", "Apr", "May", "Jun", "Jul", "Aug", "Sep", "Oct", "Nov", "Dec"]

  datatype MonthLabel = MonthLabel(name: string, position: nat)

  /** The month of the first day of week k. */
  function WeekMonth(weeks: seq<seq<ContributionDay>>, k: nat, monthOf: Day -> Month): Month
    requires k < |weeks| && |weeks[k]| > 0
  {
    monthOf(weeks[k][0].date)
  }

  /** Week k carries a label. */
  predicate Labelled(labels: seq<MonthLabel>, k: nat)
  {
    exists i :: 0 <= i < |labels| && labels[i].position == k
  }

  /**
   * The labels chosen for weeks 0 to k − 1: positions below k and strictly
   * increasing, each on a non-empty week and naming its month, consecutive
   * labels in different months, and `lastMonth` the month of the last label.
   */
  predicate LabelsSound(weeks: seq<seq<ContributionDay>>, monthOf: Day -> Month, labels: seq<MonthLabel>, lastMonth: int, k: nat)
    requires k <= |weeks|
  {
    && (forall i :: 0 <= i < |labels| ==> (labels[i].position < k && |weeks[labels[i].position]| > 0
      && labels[i].name == MonthNames[WeekMonth(weeks, labels[i].position, monthOf)]))
    && (forall i :: 0 <= i < |labels| - 1 ==> labels[i].position < labels[i + 1].position)
    && (forall i :: 0 <= i < |labels| - 1 ==>
      WeekMonth(weeks, labels[i].position, monthOf) != WeekMonth(weeks, labels[i + 1].position, monthOf))
    && lastMonth == (if labels == [] then -1 else WeekMonth(weeks, labels[|labels| - 1].position, monthOf))
  }

  /**
   * Among weeks 0 to k − 1 the first is labelled when it is non-empty, and a
   * week after a non-empty week is labelled exactly when its month differs.
   */
  predicate LabelsComplete(weeks: seq<seq<ContributionDay>>, monthOf: Day -> Month, labels: seq<MonthLabel>, k: nat)
    requires k <= |weeks|
  {
    && (k > 0 && |weeks[0]| > 0 ==> |labels| > 0 && labels[0].position == 0)
    && (forall j :: 0 < j < k && |weeks[j]| > 0 && |weeks[j - 1]| > 0 ==>
      (Labelled(labels, j) <==> WeekMonth(weeks, j, monthOf) != WeekMonth(weeks, j - 1, monthOf)))
  }

  /** A week that gets no label keeps the soundness of the labels so far. */
  lemma SoundKeep(weeks: seq<seq<ContributionDay>>, monthOf: Day -> Month, labels: seq<MonthLabel>, lastMonth: int, k: nat)
    requires k < |weeks| && LabelsSound(weeks, monthOf, labels, lastMonth, k)
    ensures LabelsSound(weeks, monthOf, labels, lastMonth, k + 1)
  {
  }

  /** Labelling week k with its month, when that differs from the last label's, keeps soundness. */
  lemma SoundAdd(weeks: seq<seq<ContributionDay>>, monthOf: Day -> Month, labels: seq<MonthLabel>, lastMonth: int, k: nat)
    requires k < |weeks| && |weeks[k]| > 0 && WeekMonth(weeks, k, monthOf) != lastMonth
    requires LabelsSound(weeks, monthOf, labels, lastMonth, k)
    ensures LabelsSound(weeks, monthOf, labels + [MonthLabel(MonthNames[WeekMonth(weeks, k, monthOf)], k)], WeekMonth(weeks, k, monthOf), k + 1)
  {
    var labels' := labels + [MonthLabel(MonthNames[WeekMonth(weeks, k, monthOf)], k)];
    assert forall i :: 0 <= i < |labels| ==> labels'[i] == labels[i];
  }

  /**
   * Completeness for week k: whether it is labelled is decided by its month
   * and the last label's, which is the previous week's month.
   */
  lemma CompleteStep(weeks: seq<seq<ContributionDay>>, monthOf: Day -> Month, labels: seq<MonthLabel>, lastMonth: int, k: nat,
                     labels': seq<MonthLabel>)
    requires k < |weeks|
    requires LabelsSound(weeks, monthOf, labels, lastMonth, k) && LabelsComplete(weeks, monthOf, labels, k)
    requires k > 0 && |weeks[k - 1]| > 0 ==> lastMonth == WeekMonth(weeks, k - 1, monthOf)
    requires if |weeks[k]| > 0 && WeekMonth(weeks, k, monthOf) != lastMonth
      then labels' == labels + [MonthLabel(MonthNames[WeekMonth(weeks, k, monthOf)], k)]
      else labels' == labels
    ensures LabelsComplete(weeks, monthOf, labels', k + 1)
  {
    assert !Labelled(labels, k);
    forall j | 0 <= j <= k
      ensures Labelled(labels', j) <==> Labelled(labels, j) || (j == k && |labels'| > |labels|)
    {
      LabelledAppend(labels, labels', j);
    }
  }

  /** The invariant of the month-label loop after k weeks. */
  predicate LabelInv(weeks: seq<seq<ContributionDay>>, monthOf: Day -> Month, labels: seq<MonthLabel>, lastMonth: int, k: nat)
  {
    && k <= |weeks|
    && LabelsSound(weeks, monthOf, labels, lastMonth, k)
    && LabelsComplete(weeks, monthOf, labels, k)
    && (k > 0 && |weeks[k - 1]| > 0 ==> lastMonth == WeekMonth(weeks, k - 1, monthOf))
  }

  /** One iteration of the month-label loop keeps its invariant. */
  lemma LabelStep(weeks: seq<seq<ContributionDay>>, monthOf: Day -> Month, labels: seq<MonthLabel>, lastMonth: int, k: nat,
                  labels': seq<MonthLabel>, lastMonth': int)
    requires k < |weeks| && LabelInv(weeks, monthOf, labels, lastMonth, k)
    requires if |weeks[k]| > 0 && monthOf(weeks[k][0].date) != lastMonth
      then labels' == labels + [MonthLabel(MonthNames[monthOf(weeks[k][0].date)], k)] && lastMonth' == monthOf(weeks[k][0].date)
      else labels' == labels && lastMonth' == lastMonth
    ensures LabelInv(weeks, monthOf, labels', lastMonth', k + 1)
  {
    if |weeks[k]| > 0 && WeekMonth(weeks, k, monthOf) != lastMonth {
      SoundAdd(weeks, monthOf, labels, lastMonth, k);
    } else {
      SoundKeep(weeks, monthOf, labels, lastMonth, k);
    }
    CompleteStep(weeks, monthOf, labels, lastMonth, k, labels');
  }

  /**
   * The labels and the last labelled month after the loop has seen weeks 0
   * to k − 1.
   */
  function LabelsUpTo(weeks: seq<seq<ContributionDay>>, monthOf: Day -> Month, k: nat): (seq<MonthLabel>, int)
    requires k <= |weeks|
  {
    if k == 0 then ([], -1)
    else
      var (labels, lastMonth) := LabelsUpTo(weeks, monthOf, k - 1);
      if |weeks[k - 1]| > 0 && monthOf(weeks[k - 1][0].date) != lastMonth then
        (labels + [MonthLabel(MonthNames[monthOf(weeks[k - 1][0].date)], k - 1)], monthOf(weeks[k - 1][0].date))
      else (labels, lastMonth)
  }

  /** Every prefix of the loop satisfies its invariant. */
  lemma {:induction false} LabelsUpToInv(weeks: seq<seq<ContributionDay>>, monthOf: Day -> Month, k: nat)
    requires k <= |weeks|
    ensures LabelInv(weeks, monthOf, LabelsUpTo(weeks, monthOf, k).0, LabelsUpTo(weeks, monthOf, k).1, k)
  {
    if k > 0 {
      LabelsUpToInv(weeks, monthOf, k - 1);
      var (labels, lastMonth) := LabelsUpTo(weeks, monthOf, k - 1);
      var (labels', lastMonth') := LabelsUpTo(weeks, monthOf, k);
      LabelStep(weeks, monthOf, labels, lastMonth, k - 1, labels', lastMonth');
    }
  }

  /** After the last week the two loop predicates give the properties of the labels. */
  lemma LabelsFinal(weeks: seq<seq<ContributionDay>>, monthOf: Day -> Month, labels: seq<MonthLabel>, lastMonth: int)
    requires LabelInv(weeks, monthOf, labels, lastMonth, |weeks|)
    ensures forall i :: 0 <= i < |labels| ==> (labels[i].position < |weeks| && |weeks[labels[i].position]| > 0
      && labels[i].name == MonthNames[WeekMonth(weeks, labels[i].position, monthOf)])
    ensures forall i :: 0 <= i < |labels| - 1 ==> labels[i].position < labels[i + 1].position
    ensures forall i :: 0 <= i < |labels| - 1 ==>
      WeekMonth(weeks, labels[i].position, monthOf) != WeekMonth(weeks, labels[i + 1].position, monthOf)
    ensures |weeks| > 0 && |weeks[0]| > 0 ==> |labels| > 0 && labels[0].position == 0
    ensures forall k :: 0 < k < |weeks| && |weeks[k]| > 0 && |weeks[k - 1]| > 0 ==>
      (Labelled(labels, k) <==> WeekMonth(weeks, k, monthOf) != WeekMonth(weeks, k - 1, monthOf))
  {
  }

  /**
   * The month-label loop: a week whose first day's month differs from that
   * of the last labelled week is labelled with that month's name. Positions
   * strictly increase, consecutive labels name different months, the first
   * week is always labelled, and (for weeks following a non-empty week) a
   * week is labelled exactly when its month differs from the previous
   * week's. The calendar (which month a day is in) is the parameter
   * `monthOf`.
   */
  method MonthLabels(weeks: seq<seq<ContributionDay>>, monthOf: Day -> Month) returns (labels: seq<MonthLabel>)
    ensures forall i :: 0 <= i < |labels| ==> (labels[i].position < |weeks| && |weeks[labels[i].position]| > 0
      && labels[i].name == MonthNames[WeekMonth(weeks, labels[i].position, monthOf)])
    ensures forall i :: 0 <= i < |labels| - 1 ==> labels[i].position < labels[i + 1].position
    ensures forall i :: 0 <= i < |labels| - 1 ==>
      WeekMonth(weeks, labels[i].position, monthOf) != WeekMonth(weeks, labels[i + 1].position, monthOf)
    ensures |weeks| > 0 && |weeks[0]| > 0 ==> |labels| > 0 && labels[0].position == 0
    ensures forall k :: 0 < k < |weeks| && |weeks[k]| > 0 && |weeks[k - 1]| > 0 ==>
      (Labelled(labels, k) <==> WeekMonth(weeks, k, monthOf) != WeekMonth(weeks, k - 1, monthOf))
  {
    labels := [];
    var lastMonth: int := -1;
    for k := 0 to |weeks|
      invariant (labels, lastMonth) == LabelsUpTo(weeks, monthOf, k)
    {
      if |weeks[k]| > 0 {
        var month := monthOf(weeks[k][0].date);
        if month != lastMonth {
          labels := labels + [MonthLabel(MonthNames[month], k)];
          lastMonth := month;
        }
      }
    }
    LabelsUpToInv(weeks, monthOf, |weeks|);
    LabelsFinal(weeks, monthOf, labels, lastMonth);
  }

  /** Appending at most one label changes only whether that label's week is labelled. */
  lemma LabelledAppend(before: seq<MonthLabel>, after: seq<MonthLabel>, j: nat)
    requires after == before || (|after| == |before| + 1 && after[..|before|] == before)
    ensures Labelled(after, j) <==> Labelled(before, j) || (|after| > |before| && after[|before|].position == j)
  {
    if Labelled(before, j) {
      var i :| 0 <= i < |before| && before[i].position == j;
      assert after[i] == before[i];
    }
    if |after| > |before| && after[|before|].position == j {
      assert Labelled(after, j);
    }
  }

  /** totalContributions: `data.reduce((sum, d) => sum + d.count, 0)`. */
  function Total(data: seq<ContributionDay>): nat
  {
    if data == [] then 0 else Total(data[..|data| - 1]) + data[|data| - 1].count
  }

  lemma TotalSnoc(data: seq<ContributionDay>, c: ContributionDay)
    ensures Total(data + [c]) == Total(data) + c.count
  {
    assert (data + [c])[..|data|] == data;
  }

  /** Changing the count of one day of the window changes the window's total by the difference. */
  lemma {:induction false} CellsTotalUpdate(m: map<Day, nat>, d: Day, c: nat, start: Day, end: Day)
    requires start <= d <= end
    ensures Total(Cells(m[d := c], start, end)) + Contributions.Lookup(m, d) == Total(Cells(m, start, end)) + c
    decreases end - start
  {
    if end > d {
      CellsTotalUpdate(m, d, c, start, end - 1);
    } else {
      assert Cells(m[d := c], start, end - 1) == Cells(m, start, end - 1);
    }
    TotalSnoc(Cells(m[d := c], start, end - 1), ContributionDay(end, Contributions.Lookup(m[d := c], end)));
    TotalSnoc(Cells(m, start, end - 1), ContributionDay(end, Contributions.Lookup(m, end)));
  }

  /** The cells of a window over an empty map are all zero. */
  lemma {:induction false} CellsTotalEmpty(start: Day, end: Day)
    ensures Total(Cells(map[], start, end)) == 0
    decreases end - start
  {
    if start <= end {
      CellsTotalEmpty(start, end - 1);
      TotalSnoc(Cells(map[], start, end - 1), ContributionDay(end, 0));
    }
  }

  /**
   * When the data has one entry per date and every date lies between `start`
   * and today, the graph's cells add up to the header's total: the weeks show
   * every contribution exactly once.
   */
  lemma {:induction false} GraphShowsTotal(data: seq<ContributionDay>, start: Day, today: Day)
    requires forall i, j :: 0 <= i < j < |data| ==> data[i].date != data[j].date
    requires forall i :: 0 <= i < |data| ==> start <= data[i].date <= today
    ensures Total(Cells(DataMap(data), start, today)) == Total(data)
    decreases |data|
  {
    if data == [] {
      CellsTotalEmpty(start, today);
    } else {
      var prefix, last := data[..|data| - 1], data[|data| - 1];
      GraphShowsTotal(prefix, start, today);
      assert last.date !in DataMap(prefix);
      CellsTotalUpdate(DataMap(prefix), last.date, last.count, start, today);
    }
  }
}
