/** The task log page: the fetched logs and tasks, the message search, the
    status select, and the rows of the log table. */
module LogList {
  import opened TaskTypes
  import opened Seqs
  import opened Text
  import Dashboard

  /** The search filter: the log has a non-empty message that contains the
      term, ignoring case. A missing or empty message never matches. */
  function MessageMatches(term: string): TaskLog -> bool {
    (l: TaskLog) => l.message.Some? && l.message.value != "" && ContainsIgnoringCase(l.message.value, term)
  }

  /** The status filter: `log.status === statusFilter`. */
  function LogStatusMatches(statusFilter: string): TaskLog -> bool {
    (l: TaskLog) => LogStatusText(l.status) == statusFilter
  }

  /** The specification of the visible logs, in one test. */
  function LogShown(term: string, statusFilter: string): TaskLog -> bool {
    (l: TaskLog) => (term == "" || (l.message.Some? && l.message.value != "" && ContainsIgnoringCase(l.message.value, term)))
                    && (statusFilter == "all" || LogStatusText(l.status) == statusFilter)
  }

  /** The logs the table shows. */
  function VisibleLogs(logs: seq<TaskLog>, term: string, statusFilter: string): seq<TaskLog> {
    Filter(LogShown(term, statusFilter), logs)
  }

  /** The page's two filters applied one after the other are the single
      test `LogShown`. */
  lemma LogFiltersAgree(logs: seq<TaskLog>, term: string, statusFilter: string)
    ensures (var afterSearch := if term != "" then Filter(MessageMatches(term), logs) else logs;
             if statusFilter != "all" then Filter(LogStatusMatches(statusFilter), afterSearch) else afterSearch)
            == VisibleLogs(logs, term, statusFilter)
  {
    var shown := LogShown(term, statusFilter);
    if term != "" && statusFilter != "all" {
      FilterChain(MessageMatches(term), LogStatusMatches(statusFilter), shown, logs);
    } else if term != "" {
      FilterSamePredicate(MessageMatches(term), shown, logs);
    } else if statusFilter != "all" {
      FilterSamePredicate(LogStatusMatches(statusFilter), shown, logs);
    } else {
      FilterKeepsAll(shown, logs);
    }
  }

  /** The visible logs are logs of the list, in the list's order. */
  lemma VisibleLogsIsSubsequence(logs: seq<TaskLog>, term: string, statusFilter: string)
    ensures IsSubsequence(VisibleLogs(logs, term, statusFilter), logs)
  {
    FilterIsSubsequence(LogShown(term, statusFilter), logs);
  }

  /** While a search term is typed, a log without a message is hidden,
      whatever the status filter. */
  lemma SearchHidesSilentLogs(logs: seq<TaskLog>, term: string, statusFilter: string)
    requires term != ""
    ensures forall k :: 0 <= k < |VisibleLogs(logs, term, statusFilter)| ==>
      VisibleLogs(logs, term, statusFilter)[k].message.Some?
      && VisibleLogs(logs, term, statusFilter)[k].message.value != ""
    ensures (forall k :: 0 <= k < |logs| ==> logs[k].message.None?) ==> VisibleLogs(logs, term, statusFilter) == []
  {
    var v := VisibleLogs(logs, term, statusFilter);
    if v != [] {
      assert v[0] in logs && v[0].message.Some?;
    }
  }

  /** A log is shown exactly when it is in the list and passes both
      filters: with a search term it has a non-empty message containing the
      term, ignoring case. */
  lemma VisibleLogsMembership(logs: seq<TaskLog>, term: string, statusFilter: string, l: TaskLog)
    ensures l in VisibleLogs(logs, term, statusFilter) <==>
      l in logs
      && (term == "" || (l.message.Some? && l.message.value != "" && ContainsIgnoringCase(l.message.value, term)))
      && (statusFilter == "all" || LogStatusText(l.status) == statusFilter)
  {
    var v := VisibleLogs(logs, term, statusFilter);
    if l in v {
      var k :| 0 <= k < |v| && v[k] == l;
    }
    if l in logs && LogShown(term, statusFilter)(l) {
      var k :| 0 <= k < |logs| && logs[k] == l;
    }
  }

  /** Filtering the shown logs again changes nothing. */
  lemma VisibleLogsIdempotent(logs: seq<TaskLog>, term: string, statusFilter: string)
    ensures VisibleLogs(VisibleLogs(logs, term, statusFilter), term, statusFilter) == VisibleLogs(logs, term, statusFilter)
  {
    FilterIdempotent(LogShown(term, statusFilter), logs);
  }

  /** With no search term and the `'all'` status every log is shown. */
  lemma NoLogFiltersShowAll(logs: seq<TaskLog>)
    ensures VisibleLogs(logs, "", "all") == logs
  {
    FilterKeepsAll(LogShown("", "all"), logs);
  }

  /** A status choice other than `'all'` shows only logs with that status. */
  lemma LogStatusFilterExact(logs: seq<TaskLog>, term: string, statusFilter: string)
    requires statusFilter != "all"
    ensures forall k :: 0 <= k < |VisibleLogs(logs, term, statusFilter)| ==>
      ParseLogStatus(statusFilter) == Some(VisibleLogs(logs, term, statusFilter)[k].status)
    ensures ParseLogStatus(statusFilter).None? ==> VisibleLogs(logs, term, statusFilter) == []
  {
    var v := VisibleLogs(logs, term, statusFilter);
    forall k | 0 <= k < |v| ensures ParseLogStatus(statusFilter) == Some(v[k].status) {
      LogStatusRoundTrip(v[k].status);
    }
    if ParseLogStatus(statusFilter).None? && v != [] {
      LogStatusRoundTrip(v[0].status);
    }
  }

  /** The search ignores case. */
  lemma LogSearchIgnoresCase(logs: seq<TaskLog>, term: string, statusFilter: string)
    ensures VisibleLogs(logs, Lower(term), statusFilter) == VisibleLogs(logs, term, statusFilter)
  {
    LowerIdempotent(term);
    assert Lower(term) == "" <==> term == "";
    FilterSamePredicate(LogShown(Lower(term), statusFilter), LogShown(term, statusFilter), logs);
  }

  /** `getTaskName`: the name of the first task with that id, kept even
      when it is empty, or "Unknown Task" when no task has the id. */
  function TaskNameOf(tasks: seq<Task>, taskId: string): (r: string)
    ensures (forall k :: 0 <= k < |tasks| ==> tasks[k].id != taskId) ==> r == Dashboard.UnknownTask
    ensures forall k :: (0 <= k < |tasks| && tasks[k].id == taskId
                         && forall j :: 0 <= j < k ==> tasks[j].id != taskId) ==> r == tasks[k].name
  {
    var t := FindTask(tasks, taskId);
    if t.Some? then t.value.name else Dashboard.UnknownTask
  }

  /** The two pages name a task differently when its name is empty: this
      page shows the empty name, the dashboard shows "Unknown Task". When
      the name is non-empty, or no task has the id, they agree. */
  lemma TaskNamesDiffer(tasks: seq<Task>, taskId: string)
    ensures FindTask(tasks, taskId).Some? && FindTask(tasks, taskId).value.name == "" ==>
      TaskNameOf(tasks, taskId) == "" && Dashboard.DashboardTaskName(tasks, taskId) == Dashboard.UnknownTask
    ensures !(FindTask(tasks, taskId).Some? && FindTask(tasks, taskId).value.name == "") ==>
      TaskNameOf(tasks, taskId) == Dashboard.DashboardTaskName(tasks, taskId)
  {
  }

  /** One row of the log table. The execution time is shown formatted;
      the formatting is not modelled, so the row carries the raw time. */
  datatype LogRow = LogRow(taskName: string, executionTime: string, status: LogStatus, retries: int, message: string, taskLink: string)

  /** The row of one log, linking to `/tasks/<task id>`. */
  function LogRowOf(tasks: seq<Task>, log: TaskLog): (r: LogRow)
    ensures r.message != ""
    ensures |r.taskLink| == 7 + |log.taskId| && r.taskLink[..7] == "/tasks/" && r.taskLink[7..] == log.taskId
  {
    LogRow(TaskNameOf(tasks, log.taskId), log.executionTime, log.status, log.retryCount,
           MessageOrDash(log.message), "/tasks/" + log.taskId)
  }

  /** `filteredLogs.map(...)`: one row per shown log, in order. */
  function LogRows(tasks: seq<Task>, shown: seq<TaskLog>): (rows: seq<LogRow>)
    ensures |rows| == |shown|
    ensures forall k :: 0 <= k < |rows| ==>
      && rows[k].taskName == TaskNameOf(tasks, shown[k].taskId)
      && rows[k].executionTime == shown[k].executionTime
      && rows[k].status == shown[k].status
      && rows[k].retries == shown[k].retryCount
      && rows[k].message == MessageOrDash(shown[k].message)
      && rows[k].message != ""
      && (shown[k].message.Some? && shown[k].message.value != "" ==> rows[k].message == shown[k].message.value)
      && (shown[k].message.None? || shown[k].message.value == "" ==> rows[k].message == "-")
      && rows[k].taskLink == "/tasks/" + shown[k].taskId
  {
    seq(|shown|, k requires 0 <= k < |shown| => LogRowOf(tasks, shown[k]))
  }

  /** With no tasks loaded, as after a failed task request, every row of
      the table names its task "Unknown Task" and still links to it. */
  lemma NoTasksAllUnknown(shown: seq<TaskLog>)
    ensures forall k :: 0 <= k < |shown| ==>
      LogRows([], shown)[k].taskName == Dashboard.UnknownTask
      && LogRows([], shown)[k].taskLink == "/tasks/" + shown[k].taskId
  {
  }

  /** The page's state; `filteredLogs` is what the filter effect last
      computed, and every change re-runs the effect. */
  class LogListView {
    var logs: seq<TaskLog>
    var tasks: seq<Task>
    var searchTerm: string
    var statusFilter: string
    var filteredLogs: seq<TaskLog>

    ghost predicate Valid()
      reads this
    {
      filteredLogs == VisibleLogs(logs, searchTerm, statusFilter)
    }

    constructor ()
      ensures Valid()
      ensures logs == [] && tasks == [] && searchTerm == "" && statusFilter == "all"
    {
      logs := [];
      tasks := [];
      searchTerm := "";
      statusFilter := "all";
      filteredLogs := [];
    }

    /** The filter effect. */
    method ApplyFilters()
      modifies this
      ensures Valid()
      ensures logs == old(logs) && tasks == old(tasks)
      ensures searchTerm == old(searchTerm) && statusFilter == old(statusFilter)
    {
      var result := logs;
      if searchTerm != "" {
        result := Filter(MessageMatches(searchTerm), result);
      }
      if statusFilter != "all" {
        result := Filter(LogStatusMatches(statusFilter), result);
      }
      filteredLogs := result;
      LogFiltersAgree(logs, searchTerm, statusFilter);
    }

    /** The fetch on mount: logs and tasks are requested together. Each
        response is the array returned, or `None` when that request failed
        or its body held no array. `listTaskLogs` and `listTasks` answer
        `[]` in that case instead of throwing, so `Promise.all` never
        rejects, the page's error toast is never raised, and each list is
        set on its own: a failed task request leaves the logs with no task
        to name. */
    method Load(logsResponse: Option<seq<TaskLog>>, tasksResponse: Option<seq<Task>>)
      modifies this
      ensures Valid()
      ensures logs == (if logsResponse.Some? then logsResponse.value else [])
      ensures tasks == (if tasksResponse.Some? then tasksResponse.value else [])
      ensures tasksResponse.None? ==> forall k :: 0 <= k < |filteredLogs| ==>
                TaskNameOf(tasks, filteredLogs[k].taskId) == Dashboard.UnknownTask
      ensures searchTerm == old(searchTerm) && statusFilter == old(statusFilter)
    {
      logs := if logsResponse.Some? then logsResponse.value else [];
      tasks := if tasksResponse.Some? then tasksResponse.value else [];
      ApplyFilters();
    }

    method SetSearchTerm(term: string)
      modifies this
      ensures Valid()
      ensures searchTerm == term && logs == old(logs) && tasks == old(tasks) && statusFilter == old(statusFilter)
    {
      searchTerm := term;
      ApplyFilters();
    }

    method SetStatusFilter(value: string)
      modifies this
      ensures Valid()
      ensures statusFilter == value && logs == old(logs) && tasks == old(tasks) && searchTerm == old(searchTerm)
    {
      statusFilter := value;
      ApplyFilters();
    }

    /** The table rows: one per visible log, in order, naming its task and
        linking to it. */
    function Rows(): (rows: seq<LogRow>)
      reads this
      requires Valid()
      ensures |rows| == |VisibleLogs(logs, searchTerm, statusFilter)|
      ensures forall k :: 0 <= k < |rows| ==>
        && rows[k].taskName == TaskNameOf(tasks, VisibleLogs(logs, searchTerm, statusFilter)[k].taskId)
        && rows[k].status == VisibleLogs(logs, searchTerm, statusFilter)[k].status
        && rows[k].taskLink == "/tasks/" + VisibleLogs(logs, searchTerm, statusFilter)[k].taskId
    {
      LogRows(tasks, filteredLogs)
    }
  }
}
