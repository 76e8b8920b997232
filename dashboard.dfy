/** The dashboard's derived figures: the task status distribution, the
    failed-execution count, the seven-day execution trend and the table of
    recent executions, all computed from the fetched task and log lists.

    The clock is not modelled. The page takes `today` in local time, steps
    back `i` days with `setDate(getDate() - i)` (local-day arithmetic) and
    then keys the day by `toISOString().split('T')[0]`, which is the UTC
    calendar date of that instant; near midnight the two calendars differ.
    Here the seven day keys are an input: `daysAgo[i]` is whatever key the
    page computes for "`i` days before today". */
module Dashboard {
  import opened TaskTypes
  import opened Seqs
  import opened Text

  /** `task.status === st`. */
  function HasStatus(st: TaskStatus): Task -> bool {
    (t: Task) => t.status == st
  }

  /** `log.status === st`. */
  function HasLogStatus(st: LogStatus): TaskLog -> bool {
    (l: TaskLog) => l.status == st
  }

  /** `tasks.filter(task => task.status === st).length`. */
  function CountStatus(tasks: seq<Task>, st: TaskStatus): (r: nat)
    ensures r <= |tasks|
  {
    |Filter(HasStatus(st), tasks)|
  }

  /** Every task has exactly one of the three statuses, so the three counts
      add up to the number of tasks. */
  lemma {:induction false} StatusPartition(tasks: seq<Task>)
    ensures CountStatus(tasks, Active) + CountStatus(tasks, Inactive) + CountStatus(tasks, Deleted) == |tasks|
  {
    if tasks != [] {
      StatusPartition(tasks[1..]);
    }
  }

  /** The figures of the status cards and the distribution chart. */
  datatype StatusSummary = StatusSummary(total: nat, active: nat, inactive: nat, deleted: nat)

  /** `deleted` is not counted directly: it is the residual
      `Math.max(0, total - active - inactive)`. Because the statuses
      partition the tasks, the residual is never clamped and is exactly the
      number of deleted tasks. */
  function Summarize(tasks: seq<Task>): (r: StatusSummary)
    ensures r.total == |tasks|
    ensures r.active == CountStatus(tasks, Active) && r.inactive == CountStatus(tasks, Inactive)
    ensures r.deleted == CountStatus(tasks, Deleted)
    ensures r.active + r.inactive + r.deleted == r.total
  {
    StatusPartition(tasks);
    var total := |tasks|;
    var active := CountStatus(tasks, Active);
    var inactive := CountStatus(tasks, Inactive);
    var residual := total - active - inactive;
    StatusSummary(total, active, inactive, if residual < 0 then 0 else residual)
  }

  /** The "Failed Executions" card: every failed log, whatever its
      execution time. */
  function FailedExecutions(logs: seq<TaskLog>): (r: nat)
    ensures r <= |logs|
  {
    |Filter(HasLogStatus(Failed), logs)|
  }

  /** The card is an all-time count: one more failed log, of any date or of
      none, raises it by one, and a successful log leaves it alone. */
  lemma FailedExecutionsAppend(logs: seq<TaskLog>, log: TaskLog)
    ensures FailedExecutions(logs + [log]) == FailedExecutions(logs) + (if log.status == Failed then 1 else 0)
  {
    FilterAppend(HasLogStatus(Failed), logs, [log]);
    assert Filter(HasLogStatus(Failed), [log]) == (if log.status == Failed then [log] else []) by {
      assert [log][1..] == [];
    }
  }

  /** The log falls in the bar of day key `day`: it has status `st`, a
      non-empty execution time, and that time starts with the key. */
  function InBucket(st: LogStatus, day: string): TaskLog -> bool {
    (l: TaskLog) => l.status == st && l.executionTime != "" && StartsWith(l.executionTime, day)
  }

  /** One bar's count. */
  function BucketCount(st: LogStatus, logs: seq<TaskLog>, day: string): nat {
    |Filter(InBucket(st, day), logs)|
  }

  /** One bar of the trend chart. The chart label `format(date, 'MMM dd')`
      is not modelled; the bar is identified by its day key. */
  datatype TrendPoint = TrendPoint(day: string, success: nat, failed: nat)

  function Point(logs: seq<TaskLog>, day: string): TrendPoint {
    TrendPoint(day, BucketCount(Success, logs, day), BucketCount(Failed, logs, day))
  }

  /** The bars for the day keys `days`, in the order given. */
  function Points(logs: seq<TaskLog>, days: seq<string>): (r: seq<TrendPoint>)
    ensures |r| == |days|
    ensures forall k :: 0 <= k < |days| ==> r[k] == Point(logs, days[k])
  {
    if days == [] then [] else [Point(logs, days[0])] + Points(logs, days[1..])
  }

  /** The chart covers this many days, today included. */
  const TrendDays := 7

  /** The day keys oldest first: the loop runs `i` from 6 down to 0. */
  function OldestFirst(daysAgo: seq<string>): (r: seq<string>)
    requires |daysAgo| == TrendDays
    ensures |r| == TrendDays
    ensures forall k :: 0 <= k < TrendDays ==> r[k] == daysAgo[TrendDays - 1 - k]
  {
    seq(TrendDays, k requires 0 <= k < TrendDays => daysAgo[TrendDays - 1 - k])
  }

  /** Reading the oldest-first axis backwards gives the days-ago order
      again: the reordering loses and duplicates no day. */
  lemma OldestFirstInvolution(daysAgo: seq<string>)
    requires |daysAgo| == TrendDays
    ensures OldestFirst(OldestFirst(daysAgo)) == daysAgo
    ensures forall d :: d in OldestFirst(daysAgo) <==> d in daysAgo
  {
    var r := OldestFirst(daysAgo);
    forall d | d in daysAgo ensures d in r {
      var k :| 0 <= k < TrendDays && daysAgo[k] == d;
      assert r[TrendDays - 1 - k] == d;
    }
  }

  /** The trend the chart draws. */
  function Trend(logs: seq<TaskLog>, daysAgo: seq<string>): (r: seq<TrendPoint>)
    requires |daysAgo| == TrendDays
    ensures |r| == TrendDays
    ensures r[0].day == daysAgo[TrendDays - 1] && r[TrendDays - 1].day == daysAgo[0]
    ensures forall k :: 0 <= k < TrendDays ==>
      r[k].day == daysAgo[TrendDays - 1 - k]
      && r[k].success == |Filter(InBucket(Success, daysAgo[TrendDays - 1 - k]), logs)|
      && r[k].failed == |Filter(InBucket(Failed, daysAgo[TrendDays - 1 - k]), logs)|
  {
    Points(logs, OldestFirst(daysAgo))
  }

  /** The page's loop: for `i` from 6 down to 0 it counts the successful and
      the failed logs of day `i` and pushes the bar. */
  method ExecutionTrend(logs: seq<TaskLog>, daysAgo: seq<string>) returns (data: seq<TrendPoint>)
    requires |daysAgo| == TrendDays
    ensures data == Trend(logs, daysAgo)
    ensures |data| == TrendDays
    ensures forall k :: 0 <= k < TrendDays ==> data[k].day == daysAgo[TrendDays - 1 - k]
  {
    data := [];
    var i := TrendDays - 1;
    while i >= 0
      invariant -1 <= i < TrendDays
      invariant |data| == TrendDays - 1 - i
      invariant forall k :: 0 <= k < |data| ==> data[k] == Point(logs, daysAgo[TrendDays - 1 - k])
    {
      var day := daysAgo[i];
      var successCount := |Filter(InBucket(Success, day), logs)|;
      var failedCount := |Filter(InBucket(Failed, day), logs)|;
      data := data + [TrendPoint(day, successCount, failedCount)];
      i := i - 1;
    }
  }

  /** The sum of one status's counts over a run of bars. */
  function SumCount(points: seq<TrendPoint>, st: LogStatus): nat {
    if points == [] then 0
    else (if st == Success then points[0].success else points[0].failed) + SumCount(points[1..], st)
  }

  /** The sum of the bar counts of status `st` over the day keys `days`. */
  function BucketTotal(st: LogStatus, logs: seq<TaskLog>, days: seq<string>): nat {
    if days == [] then 0 else BucketCount(st, logs, days[0]) + BucketTotal(st, logs, days[1..])
  }

  lemma {:induction false} SumCountPoints(logs: seq<TaskLog>, days: seq<string>, st: LogStatus)
    ensures SumCount(Points(logs, days), st) == BucketTotal(st, logs, days)
  {
    if days != [] {
      SumCountPoints(logs, days[1..], st);
      assert Points(logs, days)[1..] == Points(logs, days[1..]);
    }
  }

  /** How many of the bars `days` one log falls in. */
  function Hits(st: LogStatus, log: TaskLog, days: seq<string>): nat {
    if days == [] then 0 else (if InBucket(st, days[0])(log) then 1 else 0) + Hits(st, log, days[1..])
  }

  /** Adding a log in front adds its hits to the total. */
  lemma {:induction false} BucketTotalCons(st: LogStatus, log: TaskLog, logs: seq<TaskLog>, days: seq<string>)
    ensures BucketTotal(st, [log] + logs, days) == Hits(st, log, days) + BucketTotal(st, logs, days)
  {
    if days != [] {
      BucketTotalCons(st, log, logs, days[1..]);
      assert ([log] + logs)[1..] == logs;
    }
  }

  /** The day keys are pairwise distinct and all of one length, as the
      `YYYY-MM-DD` keys of seven different days are. */
  predicate DistinctKeys(days: seq<string>) {
    && (forall j, k :: 0 <= j < k < |days| ==> days[j] != days[k])
    && (forall j, k :: 0 <= j < k < |days| ==> |days[j]| == |days[k]|)
  }

  lemma {:induction false} HitsNone(st: LogStatus, log: TaskLog, days: seq<string>)
    requires forall k :: 0 <= k < |days| ==> !InBucket(st, days[k])(log)
    ensures Hits(st, log, days) == 0
  {
    if days != [] {
      HitsNone(st, log, days[1..]);
    }
  }

  /** The log has an execution time that starts with one of the keys. */
  predicate Dated(log: TaskLog, days: seq<string>) {
    log.executionTime != "" && exists k :: 0 <= k < |days| && StartsWith(log.executionTime, days[k])
  }

  /** With distinct keys of one length a log lands in at most one bar, in
      none unless it has the bar's status, and in one exactly when its
      execution time is non-empty and starts with one of the keys. */
  lemma {:induction false} HitsAtMostOne(st: LogStatus, log: TaskLog, days: seq<string>)
    requires DistinctKeys(days)
    ensures Hits(st, log, days) <= 1
    ensures log.status != st ==> Hits(st, log, days) == 0
    ensures Hits(st, log, days) == 1 <==> log.status == st && Dated(log, days)
  {
    if days != [] {
      var rest := days[1..];
      HitsAtMostOne(st, log, rest);
      if InBucket(st, days[0])(log) {
        forall k | 0 <= k < |rest| ensures !InBucket(st, rest[k])(log) {
          assert rest[k] == days[k + 1];
          if InBucket(st, rest[k])(log) {
            SamePrefixLength(log.executionTime, days[0], rest[k]);
          }
        }
        HitsNone(st, log, rest);
      } else if log.status == st && Dated(log, days) {
        var k :| 0 <= k < |days| && StartsWith(log.executionTime, days[k]);
        assert k != 0;
        assert rest[k - 1] == days[k];
      }
    }
  }

  /** A bar total never exceeds the number of logs of that status. */
  lemma {:induction false} BucketTotalBound(st: LogStatus, logs: seq<TaskLog>, days: seq<string>)
    requires DistinctKeys(days)
    ensures BucketTotal(st, logs, days) <= |Filter(HasLogStatus(st), logs)|
  {
    if logs == [] {
      BucketTotalEmpty(st, days);
    } else {
      BucketTotalBound(st, logs[1..], days);
      BucketTotalCons(st, logs[0], logs[1..], days);
      assert [logs[0]] + logs[1..] == logs;
      HitBound(st, logs[0], days);
      StatusCountCons(st, logs);
    }
  }

  /** ... and equals it when every log of that status falls on one of the
      days. */
  lemma {:induction false} BucketTotalCovered(st: LogStatus, logs: seq<TaskLog>, days: seq<string>)
    requires DistinctKeys(days)
    requires forall i :: 0 <= i < |logs| && logs[i].status == st ==> Dated(logs[i], days)
    ensures BucketTotal(st, logs, days) == |Filter(HasLogStatus(st), logs)|
  {
    if logs == [] {
      BucketTotalEmpty(st, days);
    } else {
      var rest := logs[1..];
      forall i | 0 <= i < |rest| && rest[i].status == st ensures Dated(rest[i], days) {
        assert rest[i] == logs[i + 1];
      }
      BucketTotalCovered(st, rest, days);
      BucketTotalCons(st, logs[0], rest, days);
      assert [logs[0]] + rest == logs;
      DatedHit(st, logs[0], days);
      StatusCountCons(st, logs);
    }
  }

  /** The count of a status over a list, by its first log. */
  lemma StatusCountCons(st: LogStatus, logs: seq<TaskLog>)
    requires logs != []
    ensures |Filter(HasLogStatus(st), logs)| == (if logs[0].status == st then 1 else 0) + |Filter(HasLogStatus(st), logs[1..])|
  {
  }

  /** A log lands in at most one bar, and in none of another status. */
  lemma HitBound(st: LogStatus, log: TaskLog, days: seq<string>)
    requires DistinctKeys(days)
    ensures Hits(st, log, days) <= if log.status == st then 1 else 0
  {
    HitsAtMostOne(st, log, days);
  }

  /** A dated log of the bar's status lands in exactly one bar; one of
      another status in none. */
  lemma DatedHit(st: LogStatus, log: TaskLog, days: seq<string>)
    requires DistinctKeys(days)
    requires log.status == st ==> Dated(log, days)
    ensures Hits(st, log, days) == if log.status == st then 1 else 0
  {
    HitsAtMostOne(st, log, days);
  }

  lemma {:induction false} BucketTotalEmpty(st: LogStatus, days: seq<string>)
    ensures BucketTotal(st, [], days) == 0
  {
    if days != [] {
      BucketTotalEmpty(st, days[1..]);
    }
  }

  /** Reordering the keys keeps them distinct and of one length. */
  lemma OldestFirstDistinct(daysAgo: seq<string>)
    requires |daysAgo| == TrendDays && DistinctKeys(daysAgo)
    ensures DistinctKeys(OldestFirst(daysAgo))
  {
    var r := OldestFirst(daysAgo);
    forall j, k | 0 <= j < k < |r| ensures r[j] != r[k] && |r[j]| == |r[k]| {
      assert r[j] == daysAgo[TrendDays - 1 - j] && r[k] == daysAgo[TrendDays - 1 - k];
    }
  }

  /** The chart and the card disagree on purpose or not: the failed bars of
      the seven days add up to at most the all-time failed count shown on
      the card, and to exactly that count only when every failed log is
      dated within the seven days. The same holds for successful logs. */
  lemma TrendWithinTotals(logs: seq<TaskLog>, daysAgo: seq<string>, st: LogStatus)
    requires |daysAgo| == TrendDays && DistinctKeys(daysAgo)
    ensures SumCount(Trend(logs, daysAgo), st) <= |Filter(HasLogStatus(st), logs)|
    ensures SumCount(Trend(logs, daysAgo), Failed) <= FailedExecutions(logs)
    ensures (forall i :: 0 <= i < |logs| && logs[i].status == st ==> Dated(logs[i], daysAgo))
            ==> SumCount(Trend(logs, daysAgo), st) == |Filter(HasLogStatus(st), logs)|
  {
    var days := OldestFirst(daysAgo);
    OldestFirstDistinct(daysAgo);
    SumCountPoints(logs, days, st);
    SumCountPoints(logs, days, Failed);
    BucketTotalBound(st, logs, days);
    BucketTotalBound(Failed, logs, days);
    if forall i :: 0 <= i < |logs| && logs[i].status == st ==> Dated(logs[i], daysAgo) {
      forall i | 0 <= i < |logs| && logs[i].status == st ensures Dated(logs[i], days) {
        var k :| 0 <= k < TrendDays && StartsWith(logs[i].executionTime, daysAgo[k]);
        assert days[TrendDays - 1 - k] == daysAgo[k];
      }
      BucketTotalCovered(st, logs, days);
    }
  }

  /** A log without an execution time is counted by the card but drawn in
      no bar. */
  lemma UndatedLogInNoBar(logs: seq<TaskLog>, daysAgo: seq<string>, log: TaskLog)
    requires |daysAgo| == TrendDays && log.executionTime == ""
    ensures Trend(logs + [log], daysAgo) == Trend(logs, daysAgo)
    ensures FailedExecutions(logs + [log]) == FailedExecutions(logs) + (if log.status == Failed then 1 else 0)
  {
    FailedExecutionsAppend(logs, log);
    var days := OldestFirst(daysAgo);
    forall k | 0 <= k < TrendDays ensures Point(logs + [log], days[k]) == Point(logs, days[k]) {
      forall st: LogStatus ensures Filter(InBucket(st, days[k]), logs + [log]) == Filter(InBucket(st, days[k]), logs) {
        FilterAppend(InBucket(st, days[k]), logs, [log]);
        assert Filter(InBucket(st, days[k]), [log]) == [] by {
          assert [log][1..] == [];
        }
        assert Filter(InBucket(st, days[k]), logs) + [] == Filter(InBucket(st, days[k]), logs);
      }
    }
  }

  /** A bar's count is at most the column total. */
  lemma {:induction false} SumCountAtLeastTwo(points: seq<TrendPoint>, j: nat, k: nat)
    requires j < k < |points|
    ensures SumCount(points, Failed) >= points[j].failed + points[k].failed
  {
    if j == 0 {
      SumCountAtLeast(points[1..], k - 1);
    } else {
      SumCountAtLeastTwo(points[1..], j - 1, k - 1);
    }
  }

  lemma {:induction false} SumCountAtLeast(points: seq<TrendPoint>, k: nat)
    requires k < |points|
    ensures SumCount(points, Failed) >= points[k].failed
  {
    if k > 0 {
      SumCountAtLeast(points[1..], k - 1);
    }
  }

  /** The day keys need not be distinct: the page steps back by local days
      but keys them by UTC date, so after a spring-forward change today and
      yesterday can share a key. A failed log of that day is then drawn in
      both bars, and the bars exceed the failed card. */
  lemma RepeatedKeyCountsTwice(daysAgo: seq<string>, log: TaskLog)
    requires |daysAgo| == TrendDays && daysAgo[0] == daysAgo[1]
    requires InBucket(Failed, daysAgo[0])(log)
    ensures FailedExecutions([log]) == 1
    ensures SumCount(Trend([log], daysAgo), Failed) >= 2 > FailedExecutions([log])
  {
    assert [log][1..] == [];
    var r := Trend([log], daysAgo);
    assert r[TrendDays - 2].failed == 1 && r[TrendDays - 1].failed == 1;
    SumCountAtLeastTwo(r, TrendDays - 2, TrendDays - 1);
  }

  /** With no tasks every count is 0; with no logs the failed count is 0
      and every day of the trend shows 0 successes and 0 failures. */
  lemma EmptyDashboard(daysAgo: seq<string>)
    requires |daysAgo| == TrendDays
    ensures Summarize([]) == StatusSummary(0, 0, 0, 0)
    ensures FailedExecutions([]) == 0
    ensures forall k :: 0 <= k < TrendDays ==> Trend([], daysAgo)[k].success == 0 && Trend([], daysAgo)[k].failed == 0
  {
  }

  /** One row of the "Recent Executions" table. `executedAt` is `None` when
      the execution time is empty (shown as "Unknown Time"); the date
      formatting of a present time is not modelled. */
  datatype RecentRow = RecentRow(
    taskName: string,
    executedAt: Option<string>,
    status: LogStatus,
    retries: int,
    message: string)

  const UnknownTask := "Unknown Task"

  /** `task?.name || 'Unknown Task'`: the `||` also replaces an empty name. */
  function DashboardTaskName(tasks: seq<Task>, taskId: string): (r: string)
    ensures r != ""
    ensures (forall k :: 0 <= k < |tasks| ==> tasks[k].id != taskId) ==> r == UnknownTask
    ensures FindTask(tasks, taskId).Some? && FindTask(tasks, taskId).value.name != ""
            ==> r == FindTask(tasks, taskId).value.name
    ensures FindTask(tasks, taskId).Some? && FindTask(tasks, taskId).value.name == "" ==> r == UnknownTask
  {
    var t := FindTask(tasks, taskId);
    if t.Some? && t.value.name != "" then t.value.name else UnknownTask
  }

  /** The row built for one log. `retry_count || 0` is the retry count
      itself, since the count is always a number here. */
  function RecentRowOf(tasks: seq<Task>, log: TaskLog): (r: RecentRow)
    ensures r.taskName != "" && r.message != ""
    ensures r.executedAt.None? <==> log.executionTime == ""
    ensures r.executedAt.Some? ==> r.executedAt.value == log.executionTime
  {
    RecentRow(
      DashboardTaskName(tasks, log.taskId),
      if log.executionTime != "" then Some(log.executionTime) else None,
      log.status,
      log.retryCount,
      MessageOrDash(log.message))
  }

  /** The table shows at most five rows. */
  const RecentLimit := 5

  /** `logs.slice(0, 5).map(...)`: the first five logs in the order the
      service returned them, one row each. */
  function RecentExecutions(tasks: seq<Task>, logs: seq<TaskLog>): (r: seq<RecentRow>)
    ensures |r| == if |logs| < RecentLimit then |logs| else RecentLimit
    ensures forall k :: 0 <= k < |r| ==>
      && r[k].status == logs[k].status
      && r[k].retries == logs[k].retryCount
      && (r[k].executedAt.Some? <==> logs[k].executionTime != "")
      && (r[k].executedAt.Some? ==> r[k].executedAt.value == logs[k].executionTime)
      && r[k].message == MessageOrDash(logs[k].message)
      && r[k].taskName == DashboardTaskName(tasks, logs[k].taskId)
  {
    var n := if |logs| < RecentLimit then |logs| else RecentLimit;
    seq(n, k requires 0 <= k < n => RecentRowOf(tasks, logs[k]))
  }

  /** Logs after the fifth do not affect the table. */
  lemma RecentExecutionsPrefix(tasks: seq<Task>, logs: seq<TaskLog>, more: seq<TaskLog>)
    requires |logs| >= RecentLimit
    ensures RecentExecutions(tasks, logs + more) == RecentExecutions(tasks, logs)
  {
    var a := RecentExecutions(tasks, logs + more);
    var b := RecentExecutions(tasks, logs);
    forall k | 0 <= k < RecentLimit ensures a[k] == b[k] {
      assert (logs + more)[k] == logs[k];
    }
  }
}
