/**
 * The figures of the statistics page as functions of the task list: the summary cards, the
 * priority and monthly charts, the completion time and the performance metrics. The page
 * computes them with loops (module Stats); these are the values those loops arrive at.
 */
module Statistics {
  import opened Common
  import opened Calendar
  import opened Tasks

  // ---------------------------------------------------------------- summary cards

  /** The four cards of `updateSummaryCards`. */
  datatype Summary = Summary(total: nat, completed: nat, pending: int, overdue: nat)

  /**
   * Total, completed, pending (total minus completed) and overdue tasks. Since an overdue
   * task is never completed, the overdue tasks are among the pending ones.
   */
  function SummaryOf(ts: seq<Task>, today: Date): (r: Summary)
    ensures r.total == |ts| && r.completed == Count(ts, IsCompleted) && r.overdue == Count(ts, OverdueOn(today))
    ensures r.pending == r.total - r.completed
    ensures r.overdue <= r.pending
  {
    CountDisjoint(ts, IsCompleted, OverdueOn(today));
    var completed := Count(ts, IsCompleted);
    Summary(|ts|, completed, |ts| - completed, Count(ts, OverdueOn(today)))
  }

  // ---------------------------------------------------------------- priority chart

  /** `getPriorityData().values`: the tasks per priority, in the order low, medium, high, urgent. */
  function PriorityCounts(ts: seq<Task>): (r: seq<nat>)
    ensures |r| == 4
  {
    [Count(ts, HasPriority(Low)), Count(ts, HasPriority(Medium)),
     Count(ts, HasPriority(High)), Count(ts, HasPriority(Urgent))]
  }

  /** Every task falls in exactly one of the four bars, a task without priority in medium's. */
  lemma {:induction false} PriorityCountsSum(ts: seq<Task>)
    ensures PriorityCounts(ts)[0] + PriorityCounts(ts)[1] + PriorityCounts(ts)[2] + PriorityCounts(ts)[3] == |ts|
    decreases |ts|
  {
    if ts != [] {
      PriorityCountsSum(ts[..|ts| - 1]);
    }
  }

  // ---------------------------------------------------------------- monthly chart

  /** The two series of `getMonthlyData`; index `m` is month `m + 1`. */
  datatype Monthly = Monthly(created: seq<nat>, completed: seq<nat>)

  /**
   * Twelve buckets for the given year, keyed by the due date: the tasks due in each month,
   * and those of them that are completed.
   */
  function MonthlyData(ts: seq<Task>, year: int): (r: Monthly)
    ensures |r.created| == 12 && |r.completed| == 12
    ensures forall m :: 0 <= m < 12 ==>
              r.created[m] == Count(ts, DueIn(year, m + 1)) && r.completed[m] == Count(ts, CompletedDueIn(year, m + 1))
    ensures forall m :: 0 <= m < 12 ==> r.completed[m] <= r.created[m]
  {
    var created := seq(12, m requires 0 <= m < 12 => Count(ts, DueIn(year, m + 1)));
    var completed := seq(12, m requires 0 <= m < 12 => Count(ts, CompletedDueIn(year, m + 1)));
    forall m | 0 <= m < 12 ensures completed[m] <= created[m] {
      CountMonotone(ts, CompletedDueIn(year, m + 1), DueIn(year, m + 1));
    }
    Monthly(created, completed)
  }

  /**
   * One more task moves only the bucket of its own month, and only when it is due in the
   * year shown; its completed count moves only when it is completed.
   */
  lemma MonthlyDataAppend(ts: seq<Task>, t: Task, year: int, m: nat)
    requires m < 12
    ensures MonthlyData(ts + [t], year).created[m] ==
              MonthlyData(ts, year).created[m] + (if t.date.year == year && t.date.month == m + 1 then 1 else 0)
    ensures MonthlyData(ts + [t], year).completed[m] ==
              MonthlyData(ts, year).completed[m]
              + (if t.date.year == year && t.date.month == m + 1 && t.status == COMPLETED then 1 else 0)
  {
    assert (ts + [t])[..|ts|] == ts;
  }

  /**
   * One more task changes at most one month: a task due this year adds one to its month's
   * created count, and one to its completed count when it is completed.
   */
  lemma MonthlyDataSnoc(ts: seq<Task>, t: Task, year: int)
    ensures var before, after := MonthlyData(ts, year), MonthlyData(ts + [t], year);
            var k := t.date.month - 1;
            after == if t.date.year == year && 0 <= k < 12 then
                       Monthly(before.created[k := before.created[k] + 1],
                               if t.status == COMPLETED then before.completed[k := before.completed[k] + 1] else before.completed)
                     else before
  {
    forall m | 0 <= m < 12 {
      MonthlyDataAppend(ts, t, year, m);
    }
  }

  // ---------------------------------------------------------------- completion time

  /**
   * `Math.ceil((new Date(task.date) - new Date(task.createdAt)) / (1000 * 60 * 60 * 24))`:
   * the days from creation to the due day, rounded up to whole days.
   */
  function CompletionDays(t: Task): (r: int)
    requires t.createdAt.Some?
    ensures MS_PER_DAY * (r - 1) < DayNumber(t.date) * MS_PER_DAY - t.createdAt.value <= MS_PER_DAY * r
  {
    CeilDiv(DayNumber(t.date) * MS_PER_DAY - t.createdAt.value, MS_PER_DAY)
  }

  /** A task created at some moment of day `d` and due on day `e` counts `e - d` days. */
  lemma CompletionDaysOfDay(t: Task, d: int, ms: int)
    requires 0 <= ms < MS_PER_DAY && t.createdAt == Some(d * MS_PER_DAY + ms)
    ensures CompletionDays(t) == DayNumber(t.date) - d
  {
    var r := CompletionDays(t);
    var e := DayNumber(t.date);
    assert MS_PER_DAY * (r - 1) < MS_PER_DAY * (e - d) - ms <= MS_PER_DAY * r;
  }

  /** The running sums `totalDays` and `completedCount` of `calculatePerformanceMetrics`. */
  datatype Totals = Totals(days: int, count: nat)

  /** The sums over the completed tasks that have a creation time; the others are skipped. */
  function CompletionTotals(ts: seq<Task>): (r: Totals)
    ensures r.count == Count(ts, CompletedWithCreation)
    decreases |ts|
  {
    if ts == [] then Totals(0, 0)
    else
      var acc := CompletionTotals(ts[..|ts| - 1]);
      var t := ts[|ts| - 1];
      if t.status == COMPLETED && t.createdAt.Some? then Totals(acc.days + CompletionDays(t), acc.count + 1)
      else acc
  }

  /** The days of each counted task lie between `lo` and `hi`, so their sum does `count` times. */
  lemma {:induction false} CompletionTotalsBetween(ts: seq<Task>, lo: int, hi: int)
    requires forall i :: 0 <= i < |ts| && Holds(ts[i], CompletedWithCreation) ==> lo <= CompletionDays(ts[i]) <= hi
    ensures lo * CompletionTotals(ts).count <= CompletionTotals(ts).days <= hi * CompletionTotals(ts).count
    decreases |ts|
  {
    if ts != [] {
      var init, t := ts[..|ts| - 1], ts[|ts| - 1];
      CompletionTotalsBetween(init, lo, hi);
      var acc := CompletionTotals(init);
      if t.status == COMPLETED && t.createdAt.Some? {
        var d := CompletionDays(t);
        assert Holds(ts[|ts| - 1], CompletedWithCreation);
        SumStaysBetween(acc.days, acc.count, d, lo, hi);
      }
    }
  }

  lemma SumStaysBetween(sum: int, n: nat, d: int, lo: int, hi: int)
    requires lo * n <= sum <= hi * n && lo <= d <= hi
    ensures lo * (n + 1) <= sum + d <= hi * (n + 1)
  {
    assert lo * (n + 1) == lo * n + lo && hi * (n + 1) == hi * n + hi;
  }

  /** `avgCompletionTime`: the mean of the counted days rounded to a whole day, 0 when none counts. */
  function AverageCompletionDays(ts: seq<Task>): (r: int)
    ensures Count(ts, CompletedWithCreation) == 0 ==> r == 0
  {
    var tot := CompletionTotals(ts);
    if tot.count > 0 then RoundDiv(tot.days, tot.count) else 0
  }

  /** The average lies between the fewest and the most days of the tasks it averages. */
  lemma AverageBetween(ts: seq<Task>, lo: int, hi: int)
    requires forall i :: 0 <= i < |ts| && Holds(ts[i], CompletedWithCreation) ==> lo <= CompletionDays(ts[i]) <= hi
    ensures Count(ts, CompletedWithCreation) > 0 ==> lo <= AverageCompletionDays(ts) <= hi
  {
    var tot := CompletionTotals(ts);
    if tot.count > 0 {
      CompletionTotalsBetween(ts, lo, hi);
      RoundDivBetween(tot.days, tot.count, lo, hi);
    }
  }

  // ---------------------------------------------------------------- performance metrics

  /** The result of `calculatePerformanceMetrics`. */
  datatype Metrics = Metrics(completionRate: int, overdueRate: int, avgCompletionTime: int)

  /**
   * The completion and overdue rates as whole percentages (0 without tasks), and the average
   * completion time. The completion rate is the main page's progress percentage.
   */
  function MetricsOf(ts: seq<Task>, today: Date): (r: Metrics)
    ensures 0 <= r.completionRate <= 100 && 0 <= r.overdueRate <= 100
    ensures ts == [] ==> r == Metrics(0, 0, 0)
    ensures r.completionRate == ProgressPercent(ts)
    ensures r.completionRate + r.overdueRate <= 101
  {
    CountDisjoint(ts, IsCompleted, OverdueOn(today));
    RatesShareTotal(Count(ts, IsCompleted), Count(ts, OverdueOn(today)), |ts|);
    Metrics(Percent(Count(ts, IsCompleted), |ts|), Percent(Count(ts, OverdueOn(today)), |ts|),
            AverageCompletionDays(ts))
  }

  /** Two shares of one total that do not overlap round to at most 101 percent together. */
  lemma RatesShareTotal(a: nat, b: nat, n: nat)
    requires a + b <= n
    ensures Percent(a, n) + Percent(b, n) <= 101
  {
    if n > 0 {
      var p, q := Percent(a, n), Percent(b, n);
      if p + q > 101 {
        assert n * p + n * q == n * (p + q);
        MulMonotone(n, 102, p + q);
      }
    }
  }
}
