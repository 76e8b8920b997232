# insignia-fe task scheduler front end, in Dafny

This project models the data handling of the insignia-fe web front end.
The front end manages scheduled webhook tasks: each task names a cron
schedule and a Discord webhook, and each execution of a task leaves a log.
The model covers these parts:

- **Cron utilities** (`Cron`): the cron-expression checker, with its regular
  expression stated as a grammar of five fields separated by runs of
  whitespace, and the describer, which splits on single spaces. The
  describer says "Invalid cron expression" exactly when the string does not
  hold four spaces. So an accepted expression whose double spaces or tabs
  change that count is described as invalid. An accepted expression with
  four spaces and a tab beside one of them is recited with the tab inside a
  field. An expression that the checker rejects can still be described
  field by field.
- **Dashboard** (`Dashboard`):
  - the status counts, with the `deleted` slice computed as a residual;
  - the failed-execution count, which covers every log ever made even though
    its card says "Last 7 days";
  - the seven-day success/failed trend, an imperative loop proved against a
    specification function;
  - the "recent executions" table.
- **Task list page** (`TaskList`): a class holding the fetched tasks, the
  search term, the status choice and the list the table shows. Every change
  re-runs the filter effect. Deleting a task sets the list to the one the
  handler saw when the page was rendered, without that task.
- **Task log page** (`LogList`): the same filters on the log message and
  status, the task-name lookup and the table rows.
- **Create-task form** (`CreateForm`): a class holding the form values and
  the error record, with the change handler, the validation and the submit
  gate.
- **Toasts** (`Toasts`): the reducer that appends and removes notifications.
- **Records** (`TaskTypes`): tasks, logs, their status enumerations and the
  request shapes.

Two shared modules support the rest. `Text` holds JavaScript's `\s`
whitespace, `trim`, ASCII lower-casing, `startsWith` and `includes`. `Seqs`
holds an order-preserving filter and subsequence facts.

Inputs the pages get from the outside world are parameters of the model:
- the answer to each list request: `Option`, with `None` when the request
  failed or its body held no array (the list services then return `[]`);
- whether the delete and create calls succeeded, as a `bool` (those services
  rethrow, so the pages' error toasts do run);
- the seven date strings of the trend;
- the id `Date.now()` stamps on a toast;
- what `JSON.parse` and `parseInt` returned.

## Model

| member | source | states |
|---|---|---|
| TaskTypes.TaskStatusRoundTrip | src/types/task.ts:8 | each task status has one spelling, which parses back to it and is never `'all'` |
| TaskTypes.LogStatusRoundTrip | src/types/task.ts:18 | each log status has one spelling, which parses back to it and is never `'all'` |
| TaskTypes.ParseTaskStatus | src/types/task.ts:8 | a string that parses as a task status is exactly that status's spelling |
| TaskTypes.ParseLogStatus | src/types/task.ts:18 | a string that parses as a log status is exactly that status's spelling |
| TaskTypes.FindTask | src/app/logs/page.tsx:68 | `find` by id: `None` exactly when no task has the id, otherwise a task of the list with that id |
| TaskTypes.MessageOrDash | src/app/logs/page.tsx:78 | `message \|\| '-'`: a non-empty message is shown as is, and a null or empty one as `-`; never empty |
| Text.TrimEmptyIffBlank | src/app/tasks/create/page.tsx:47 | `trim()` gives the empty string exactly when the text is all whitespace |
| Text.TrimStartShape | src/app/tasks/create/page.tsx:47 | trimming the start drops a whitespace-only prefix and leaves a suffix that starts with a non-space |
| Text.TrimEndShape | src/app/tasks/create/page.tsx:47 | trimming the end drops a whitespace-only suffix and leaves a prefix that ends with a non-space |
| Text.TrimStart | src/app/tasks/create/page.tsx:47 | the start of `trim()`: the result is no longer than the text and is empty or starts with a non-space |
| Text.TrimEnd | src/app/tasks/create/page.tsx:47 | the end of `trim()`: the result is no longer than the text and is empty or ends with a non-space |
| Text.Trim | src/app/tasks/create/page.tsx:47 | `trim()`: the result is no longer than the text and is empty or both starts and ends with a non-space |
| Text.Lower | src/app/tasks/page.tsx:48 | `toLowerCase` keeps the length, raises each capital `A`-`Z` by 32 to its small letter, leaves every other character alone, and leaves no capital behind |
| Seqs.Filter | src/app/tasks/page.tsx:47-55 | `Array.prototype.filter`: the result is no longer than the list, holds only list elements that pass, and holds every element that passes |
| Seqs.FilterMultiset | src/components/context/toast-context.tsx:30 | filtering keeps every copy of an element that passes and no copy of one that fails |
| Cron.IsValidCronExpression | src/utils/cron.ts:7-12 | the checker's regular expression, read as runs of whitespace and non-whitespace; its meaning is stated by `Cron.ValidIffCronShape` |
| Cron.ValidIffCronShape | src/utils/cron.ts:10 | the checker accepts a string exactly when it is five fields (`*`, digits, `*/`digits, digits`-`digits, or digits`,`digits) separated by four runs of whitespace, with nothing before or after |
| Cron.Runs | src/utils/cron.ts:10 | cutting a string into alternating runs of whitespace and non-whitespace loses nothing |
| Cron.RunsUnique | src/utils/cron.ts:10 | the cut into alternating runs is the only one, so the anchored pattern can match in only one way |
| Cron.ValidHasNoOuterWhitespace | src/utils/cron.ts:10 | an accepted expression is non-empty and neither starts nor ends with whitespace |
| Cron.NoRangeCheck | src/utils/cron.ts:7-12 | `99 99 99 99 99` is accepted: values are never range-checked |
| Cron.AcceptsDailyNine | src/utils/cron.ts:7-12 | `0 9 * * *` is accepted |
| Cron.AcceptsStepRangePair | src/utils/cron.ts:10 | steps, ranges and two-item lists are accepted (`*/15 0-23 1,15 * *`) |
| Cron.RejectsLetters | src/utils/cron.ts:7-12 | `9am` is rejected |
| Cron.RejectsFourFields | src/utils/cron.ts:7-12 | `* * * *` (four fields) is rejected |
| Cron.RejectsTripleList | src/utils/cron.ts:10 | a list of three items (`1,2,3`) is rejected |
| Cron.RejectsEmptyStep | src/utils/cron.ts:10 | a step without a number (`*/`) is rejected |
| Cron.RejectsLeadingSpace | src/utils/cron.ts:10 | leading whitespace is rejected because the pattern is anchored |
| Cron.LetterFieldRejected | src/utils/cron.ts:10 | a letter field (`a * * * *`) is rejected |
| Cron.SplitOnSpace | src/utils/cron.ts:22 | `split(' ')` gives at least one piece, and no piece holds a space |
| Cron.SplitThenJoin | src/utils/cron.ts:22 | `split(' ')` loses nothing: joining the pieces with spaces gives back the string, and there is one more piece than there are spaces |
| Cron.JoinThenSplit | src/utils/cron.ts:22 | splitting space-free pieces joined by spaces gives back the pieces |
| Cron.Describe | src/utils/cron.ts:19-48 | the describer: split on single spaces, "invalid" unless five pieces, four fixed sentences, otherwise the field template; its meaning is stated by `Cron.DescribeInvalidIff` and `Cron.DescribeRecitesFields` |
| Cron.DescribeInvalidIff | src/utils/cron.ts:22-26 | the describer says "Invalid cron expression" exactly when the string has other than four spaces |
| Cron.DescribeDailyMidnight | src/utils/cron.ts:31-33 | `0 0 * * *` reads "At 12:00 AM every day" |
| Cron.DescribeDailyNine | src/utils/cron.ts:35-37 | `0 9 * * *` reads "At 9:00 AM every day" |
| Cron.DescribeSundayMidnight | src/utils/cron.ts:39-41 | `0 0 * * 0` reads "At 12:00 AM every Sunday" |
| Cron.DescribeMonthlyFirst | src/utils/cron.ts:43-45 | `0 0 1 * *` reads "At 12:00 AM on the 1st of every month" |
| Cron.DescribeRecitesFields | src/utils/cron.ts:28-47 | any other five space-free fields joined by single spaces are recited as minute, hour, day, month and day of week, in that order |
| Cron.SingleSpacedValidIsDescribed | src/utils/cron.ts:10-26 | when every separator of an accepted expression is one space, the describer splits out the checker's five fields and never says "invalid" |
| Cron.DoubleSpaceAccepted | src/utils/cron.ts:10 | `0  9 * * *` (two spaces) is accepted |
| Cron.DoubleSpaceDescribedInvalid | src/utils/cron.ts:22-26 | `0  9 * * *` is described as invalid |
| Cron.TabsAccepted | src/utils/cron.ts:10 | tab separators are accepted |
| Cron.TabsDescribedInvalid | src/utils/cron.ts:22-26 | tab separators are described as invalid |
| Cron.SeparatorGap | src/utils/cron.ts:10-26 | the checker and the describer disagree: `0  9 * * *` (two spaces) and a tab-separated expression are accepted, but their space count is not four, so they are described as invalid |
| Cron.TabInsideFieldRecited | src/utils/cron.ts:10-47 | `0 \t9 * * *` (a space then a tab) is accepted and, having four spaces, is recited through the template with hour `\t9` |
| Cron.DescribeLetterField | src/utils/cron.ts:28-47 | the describer recites `a * * * *` through its template |
| Cron.DescribeIgnoresSyntax | src/utils/cron.ts:10-47 | the describer never checks field syntax: `a * * * *` is rejected by the checker yet described through the template |
| Dashboard.StatusPartition | src/types/task.ts:8 | the active, inactive and deleted counts add up to the number of tasks |
| Dashboard.CountStatus | src/app/dashboard/page.tsx:60-61 | the number of tasks with a status, never more than the number of tasks |
| Dashboard.Summarize | src/app/dashboard/page.tsx:59-94 | the total is the list length (59), active and inactive are the counts of that status (60-61), and the residual `max(0, total-active-inactive)` of the chart (94) is exactly the number of deleted tasks; the three slices sum to the total |
| Dashboard.FailedExecutions | src/app/dashboard/page.tsx:62 | the number of failed logs of any date, never more than the number of logs |
| Dashboard.FailedExecutionsAppend | src/app/dashboard/page.tsx:62 | the failed count goes up by one for every failed log, whatever its execution time |
| Dashboard.Points | src/app/dashboard/page.tsx:74-90 | one trend point per date, each counting the logs of that status dated that day |
| Dashboard.OldestFirstInvolution | src/app/dashboard/page.tsx:69 | `i` running from 6 down to 0 reverses the dates: reversing twice gives them back, and no date is gained or lost |
| Dashboard.Trend | src/app/dashboard/page.tsx:65-91 | seven bars, the oldest day (six days ago) first and today last; each bar counts the success and the failed logs dated that day |
| Dashboard.ExecutionTrend | src/app/dashboard/page.tsx:65-91 | the loop builds exactly the trend function: seven points, oldest day first, each counting the success and failed logs whose non-empty execution time starts with that day's date |
| Dashboard.SumCountPoints | src/app/dashboard/page.tsx:74-90 | the trend's column total is the sum over days of that day's bucket |
| Dashboard.BucketTotalCons | src/app/dashboard/page.tsx:74-84 | a log adds to the bucket totals the number of days it falls in |
| Dashboard.HitsNone | src/app/dashboard/page.tsx:74-84 | a log in no day's bucket adds nothing |
| Dashboard.HitsAtMostOne | src/app/dashboard/page.tsx:74-84 | with distinct dates of equal length a log falls in at most one bucket, and in exactly one when its status matches and its time starts with one of the dates |
| Dashboard.BucketTotalBound | src/app/dashboard/page.tsx:74-84 | for distinct date keys of one length, the buckets of a status hold no more logs than have that status |
| Dashboard.BucketTotalCovered | src/app/dashboard/page.tsx:74-84 | for distinct date keys of one length, when every log of that status is dated within the window, the buckets hold exactly those logs |
| Dashboard.BucketTotalEmpty | src/app/dashboard/page.tsx:74-84 | with no logs every bucket total is 0 |
| Dashboard.OldestFirstDistinct | src/app/dashboard/page.tsx:69-72 | reversing the dates keeps them distinct |
| Dashboard.TrendWithinTotals | src/app/dashboard/page.tsx:62-84 | for distinct date keys of one length, the trend's success and failed totals never exceed the status counts, and the failed bars never exceed the all-time failed count; equality holds when every log of that status falls in the window |
| Dashboard.RepeatedKeyCountsTwice | src/app/dashboard/page.tsx:62-84 | when today's key equals yesterday's, one failed log of that day is drawn in both bars: the failed bars total at least 2 while the failed card shows 1 |
| Dashboard.UndatedLogInNoBar | src/app/dashboard/page.tsx:62-84 | a log without an execution time changes no bar of the trend, yet a failed one still raises the failed count |
| Dashboard.EmptyDashboard | src/app/dashboard/page.tsx:59-84 | with no tasks every count is 0; with no logs the failed count and every bar are 0 |
| Dashboard.DashboardTaskName | src/app/dashboard/page.tsx:106-108 | `task?.name \|\| 'Unknown Task'`: the name of the first task with the id, with "Unknown Task" when there is none or its name is empty; never empty |
| Dashboard.RecentRowOf | src/app/dashboard/page.tsx:105-112 | a recent row always has a task name and a message, and its time is absent exactly when the log's execution time is empty, otherwise that time |
| Dashboard.RecentExecutions | src/app/dashboard/page.tsx:103-114 | `min(5, \|logs\|)` rows, in input order, each carrying its log's task name, time (absent when empty), status, retry count and message-or-dash |
| Dashboard.RecentExecutionsPrefix | src/app/dashboard/page.tsx:104 | logs after the fifth do not change the table |
| Toasts.ToastReducer | src/components/context/toast-context.tsx:25-34 | add appends exactly one toast with the given message, type and id after the others; remove keeps every copy of each toast whose id differs, in order, and none whose id matches; any other action leaves the list unchanged |
| Toasts.RemoveKeepsOrder | src/components/context/toast-context.tsx:30 | removal keeps the remaining toasts in their order |
| Toasts.RemoveAbsent | src/components/context/toast-context.tsx:30 | removing an id no toast has changes nothing |
| Toasts.RemoveIdempotent | src/components/context/toast-context.tsx:30 | removing twice is removing once |
| Toasts.AddThenRemove | src/components/context/toast-context.tsx:28-30 | adding a toast with an unused id and then removing that id restores the list |
| Toasts.SharedIdClosesBoth | src/components/context/toast-context.tsx:28-30 | two toasts stamped with the same id are removed together |
| TaskList.Visible | src/app/tasks/page.tsx:42-58 | the tasks the table shows; their meaning is stated by `TaskList.VisibleMembership` and `TaskList.VisibleIsSubsequence` |
| TaskList.FiltersAgree | src/app/tasks/page.tsx:42-58 | the effect's two filters, each skipped when its input is empty or `'all'`, are together the single filter `Visible` |
| TaskList.VisibleIsSubsequence | src/app/tasks/page.tsx:43-57 | the shown tasks are tasks of the list, in list order |
| TaskList.VisibleMembership | src/app/tasks/page.tsx:46-55 | a task is shown exactly when it is in the list, its name contains the term ignoring case (or the term is empty), and its status is the chosen one (or the choice is `'all'`) |
| TaskList.NoFiltersShowAll | src/app/tasks/page.tsx:46-55 | an empty term with `'all'` shows the whole list |
| TaskList.StatusFilterExact | src/app/tasks/page.tsx:53-55 | with a status other than `'all'` every shown task has that status, and a string naming no status shows nothing |
| TaskList.SearchIgnoresCase | src/app/tasks/page.tsx:47-48 | a term and its lower-case form show the same tasks |
| TaskList.VisibleIdempotent | src/app/tasks/page.tsx:43-57 | filtering the shown list again changes nothing |
| TaskList.RemoveByIdSpec | src/app/tasks/page.tsx:63 | after removal no task has the id, every copy of every other task is kept, in order, and an unknown id leaves the list as it was |
| TaskList.DeletedMessage | src/app/tasks/page.tsx:64 | the success text is exactly `Task "`, then the task name, then `" deleted successfully` |
| TaskList.OverlappingDeletesRestore | src/app/tasks/page.tsx:60-64 | two deletes started from the same rendered list `[a, b]` each filter that list, so whichever finishes last puts the other task back, until the next fetch replaces the list |
| TaskList.TaskListView.constructor | src/app/tasks/page.tsx:18-22 | the page starts with no tasks, an empty search and status `'all'` |
| TaskList.TaskListView.ApplyFilters | src/app/tasks/page.tsx:42-58 | the effect sets the shown list to the visible tasks and changes nothing else |
| TaskList.TaskListView.Load | src/app/tasks/page.tsx:25-40 | the list becomes the fetched tasks, or `[]` when the request failed (the service swallows the error, so no toast is raised); the shown list is kept in step |
| TaskList.TaskListView.SetSearchTerm | src/app/tasks/page.tsx:42-58 | a new term re-runs the filters and changes nothing else |
| TaskList.TaskListView.SetStatusFilter | src/app/tasks/page.tsx:42-58 | a new status choice re-runs the filters and changes nothing else |
| TaskList.TaskListView.HandleDeleteTask | src/app/tasks/page.tsx:60-69 | on success the list becomes the list captured at render without the tasks with the id, and a success toast names the task; on failure the list is unchanged and the delete-error toast is raised; the shown list is kept in step |
| LogList.VisibleLogs | src/app/logs/page.tsx:48-64 | the logs the table shows; their meaning is stated by `LogList.VisibleLogsMembership` and `LogList.VisibleLogsIsSubsequence` |
| LogList.LogFiltersAgree | src/app/logs/page.tsx:48-64 | the effect's two filters are together the single filter `VisibleLogs` |
| LogList.VisibleLogsIsSubsequence | src/app/logs/page.tsx:49-63 | the shown logs are logs of the list, in list order |
| LogList.VisibleLogsMembership | src/app/logs/page.tsx:52-61 | a log is shown exactly when it is in the list, it has a non-empty message containing the term ignoring case (or the term is empty), and its status is the chosen one (or `'all'`) |
| LogList.SearchHidesSilentLogs | src/app/logs/page.tsx:52-55 | while a term is typed every shown log has a non-empty message, so a list of message-less logs shows nothing |
| LogList.NoLogFiltersShowAll | src/app/logs/page.tsx:48-64 | an empty term with `'all'` shows every log |
| LogList.LogStatusFilterExact | src/app/logs/page.tsx:59-61 | with a status other than `'all'` every shown log has that status, and a string naming no status shows nothing |
| LogList.LogSearchIgnoresCase | src/app/logs/page.tsx:54 | a term and its lower-case form show the same logs |
| LogList.VisibleLogsIdempotent | src/app/logs/page.tsx:48-64 | filtering the shown logs again changes nothing |
| LogList.TaskNameOf | src/app/logs/page.tsx:67-70 | `getTaskName`: the name of the first task with the id, even when empty, or "Unknown Task" when none has it |
| LogList.TaskNamesDiffer | src/app/logs/page.tsx:69 | this page and the dashboard name a task the same way except when its name is empty: here it stays empty, there it reads "Unknown Task" |
| LogList.LogRowOf | src/app/logs/page.tsx:74-85 | a row's message is never empty and its link is `/tasks/` followed by exactly the log's task id |
| LogList.LogRows | src/app/logs/page.tsx:73-86 | one row per shown log, in order, with its task name, time, status and retry count; its message is the log's message when that is non-empty and `-` when it is null or empty; its link is `/tasks/<task id>` |
| LogList.LogListView.constructor | src/app/logs/page.tsx:19-24 | the page starts with no logs, no tasks, an empty search and status `'all'` |
| LogList.LogListView.ApplyFilters | src/app/logs/page.tsx:48-64 | the effect sets the shown logs to the visible logs and changes nothing else |
| LogList.LogListView.Load | src/app/logs/page.tsx:27-46 | each list becomes its fetched array, or `[]` when its own request failed, with no toast; after a failed task request every shown log is named "Unknown Task" |
| LogList.NoTasksAllUnknown | src/app/logs/page.tsx:67-86 | with no tasks loaded every row names its task "Unknown Task" and still links to `/tasks/<task id>` |
| LogList.LogListView.SetSearchTerm | src/app/logs/page.tsx:48-64 | a new term re-runs the filters and changes nothing else |
| LogList.LogListView.SetStatusFilter | src/app/logs/page.tsx:48-64 | a new status choice re-runs the filters and changes nothing else |
| LogList.LogListView.Rows | src/app/logs/page.tsx:73-86 | one row per visible log, naming its task and linking to it |
| CreateForm.ErrorText | src/app/tasks/create/page.tsx:48-62 | every error message is non-empty, so a recorded error always counts as present |
| CreateForm.ErrorRecordEntries | src/app/tasks/create/page.tsx:45-63 | the error record holds a field's message exactly when that field's check failed, never holds payload or status, and is empty exactly when every check passed |
| CreateForm.ExpectedErrors | src/app/tasks/create/page.tsx:44-67 | the record validation builds; its entries are stated by `CreateForm.ErrorRecordEntries` and `CreateForm.FormValidIff` |
| CreateForm.RequiredIffBlank | src/app/tasks/create/page.tsx:47-53 | the name error and the schedule error are present exactly when the text is all whitespace |
| CreateForm.WebhookErrorCases | src/app/tasks/create/page.tsx:55-59 | a blank URL gets the "required" error; a non-blank URL without the Discord prefix (compared untrimmed) gets the prefix error; a URL with the prefix gets none |
| CreateForm.WebhookPrefixIsUntrimmed | src/app/tasks/create/page.tsx:57 | a non-blank URL with leading whitespace always gets the prefix error, because the prefix test does not trim |
| CreateForm.MaxRetryErrorIff | src/app/tasks/create/page.tsx:61-63 | the retry error is present exactly when the value is below 0 or above 10 |
| CreateForm.FormValidIff | src/app/tasks/create/page.tsx:44-67 | the form has no errors exactly when the name and schedule are not blank, the URL has the prefix and the retry count is within 0..10 |
| CreateForm.ScheduleNotCronChecked | src/app/tasks/create/page.tsx:51-53 | the schedule check is only non-blankness: `9am` passes it though the cron checker rejects it |
| CreateForm.InitialFormErrors | src/app/tasks/create/page.tsx:16-23 | validating the empty opening form reports name, schedule and URL as required, and no retry error |
| CreateForm.RetryFromInput | src/app/tasks/create/page.tsx:31 | `parseInt(value, 10) \|\| 0`: a parsed number is kept and NaN becomes 0 |
| CreateForm.SubmitDecision | src/app/tasks/create/page.tsx:69-110 | the submit gate: invalid, a bad payload, or the request sent; its meaning is stated by `CreateForm.SubmitDecisionSpec` |
| CreateForm.SubmitDecisionSpec | src/app/tasks/create/page.tsx:69-98 | an invalid form is never sent; a non-blank payload that fails to parse stops a valid form; a valid form whose payload is blank or parses is sent; a sent request carries the form's values, passes every rule, and has no payload when the box is blank and the parsed one otherwise |
| CreateForm.CreateTaskForm.constructor | src/app/tasks/create/page.tsx:16-24 | the form opens with empty texts, 3 retries, status active and no errors |
| CreateForm.CreateTaskForm.HandleChange | src/app/tasks/create/page.tsx:27-42 | only the named field changes, with the retry count taken from the parsed number or 0, and only that field's error is cleared |
| CreateForm.CreateTaskForm.ValidateForm | src/app/tasks/create/page.tsx:44-67 | the error record is replaced wholesale by the errors the rules give, and the result is true exactly when it is empty |
| CreateForm.CreateTaskForm.HandleSubmit | src/app/tasks/create/page.tsx:69-110 | the outcome is the submit gate's; an invalid form keeps its validation errors and sends nothing; an unparsable payload records only the JSON error; a sent form raises the success or the failure toast |

## Left out

- The HTTP layer (`src/services/api.ts`, `taskService.ts`, `taskLogService.ts`) is not modelled. Each service call appears only as its result, passed in as a parameter. `listTasks` and `listTaskLogs` (`taskService.ts:67-79`, `taskLogService.ts:49-61`) catch every error and return `[]`, so the `catch` branches of the two list pages never run and their load-error toasts are not modelled. The status transitions and the `retry_count <= max_retry` bound belong to the backend and are not modelled.
- React is not modelled: the rendering, the loading flags, the `finally` blocks and router navigation after a create. Effects are modelled as running synchronously after each state change. The stale `errors` closure in `handleChange` is read as the current record.
- `TaskList.TaskListView.Load` and `LogList.LogListView.Load`: each is modelled as running once, on mount. In the program the fetch effects depend on `addToast`, which `ToastProvider` re-creates on every render. So every toast added or removed re-runs the fetch, and whatever the page wrote into its lists (a delete's filtered list included) lasts only until that fetch answers.
- `Dashboard.Summarize` and `Dashboard.StatusPartition`: the residual equals the deleted count only because a task's status is one of `active`, `inactive` and `deleted`. `listTasks` checks only that the body is an array, so a task with any other status string from the backend would be counted in none of the three and would fall into the residual.
- The clock is not modelled. The dashboard takes its seven date strings as a parameter. The page builds them by local-day arithmetic (`setDate`) but formats them in UTC (`toISOString`), so near midnight a bucket may name a different day than the user's. After a spring-forward daylight-saving change two consecutive local days can even give the same UTC key (Europe/London at 00:30 on 2025-03-31 gives "2025-03-30" for both today and yesterday). `Dashboard.BucketTotalBound`, `Dashboard.BucketTotalCovered` and `Dashboard.TrendWithinTotals` assume distinct keys and do not hold then; `Dashboard.RepeatedKeyCountsTwice` shows the failed bars exceeding the failed card. Which keys the clock yields is outside the model.
- Toast ids come from `Date.now()` and are a parameter of the reducer. Their uniqueness is an assumption of `Toasts.AddThenRemove`.
- `JSON.parse` and `parseInt` are parameters: the parsed value, or `None` when the call throws or returns NaN. A parsed payload is kept as its text.
- Lower-casing covers ASCII only. Strings are sequences of characters, not UTF-16 code units.
- `Dashboard.RecentExecutions`: the time column carries the raw execution time (or `None` when it is empty, shown as "Unknown Time"). It is not formatted with `date-fns`, and the model gives a row where the page fails: `format(new Date(t))` throws a `RangeError` for a non-empty time that does not parse as a date, and the page does not render. The status badge is the status itself.
- `Dashboard.RecentExecutions`: `retry_count || 0` is the retry count itself, because the record types make it always a number.
- `LogList.LogRows`: the time column is the raw execution time, not its formatted form. The page formats every time with no guard, so `format(new Date(t))` throws a `RangeError` for an empty time or one that does not parse as a date, and the table does not render. The model gives an ordinary row for such a log.
- `LogList.LogListView.Rows`: it inherits from `LogList.LogRows` a row for a log whose time makes the page's formatting throw.
- `Dashboard.ExecutionTrend`: each point's `date` label is the date string passed in, not the `MMM dd` label the chart shows.
- The task detail page (`src/app/tasks/[id]/page.tsx`) is not part of this model. The update request shape (`TaskTypes.TaskUpdateRequest`, whose status may also be `deleted`) is defined but has no operations.
