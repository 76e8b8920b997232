/** The records of the task scheduler front end: a task (a scheduled webhook
    dispatch) and a task log (one execution attempt), with their status
    enumerations, the request shapes the task service accepts, and the
    lookup of a task by id that the pages share. */
module TaskTypes {

  /** A value that may be `null`. */
  datatype Option<T> = None | Some(value: T)

  /** `'active' | 'inactive' | 'deleted'`. */
  datatype TaskStatus = Active | Inactive | Deleted

  /** `'success' | 'failed'`. */
  datatype LogStatus = Success | Failed

  /** A parsed JSON payload, kept as the text it was parsed from; its
      structure plays no part in the logic modelled here. */
  datatype JsonValue = JsonValue(source: string)

  /** A task. Timestamps are ISO-8601 strings; `logs` is optional. */
  datatype Task = Task(
    id: string,
    name: string,
    schedule: string,
    webhookUrl: string,
    payload: Option<JsonValue>,
    maxRetry: int,
    status: TaskStatus,
    createdAt: string,
    updatedAt: string,
    logs: Option<seq<TaskLog>>)

  /** One execution attempt. It names its task only by `taskId`. */
  datatype TaskLog = TaskLog(
    id: string,
    taskId: string,
    executionTime: string,
    status: LogStatus,
    retryCount: int,
    message: Option<string>,
    createdAt: string)

  /** The status a task may be created with: never `deleted`. */
  type CreationStatus = s: TaskStatus | s != Deleted witness Active

  /** The body of a create call. */
  datatype TaskCreateRequest = TaskCreateRequest(
    name: string,
    schedule: string,
    webhookUrl: string,
    payload: Option<JsonValue>,
    maxRetry: int,
    status: CreationStatus)

  /** The body of an update call: every field optional, and the status may
      also be `deleted`. */
  datatype TaskUpdateRequest = TaskUpdateRequest(
    name: Option<string>,
    schedule: Option<string>,
    webhookUrl: Option<string>,
    payload: Option<Option<JsonValue>>,
    maxRetry: Option<int>,
    status: Option<TaskStatus>)

  /** The wire spelling of a task status. */
  function TaskStatusText(s: TaskStatus): string {
    match s
    case Active => "active"
    case Inactive => "inactive"
    case Deleted => "deleted"
  }

  /** Reads a wire spelling back; any other string is not a task status. */
  function ParseTaskStatus(text: string): (r: Option<TaskStatus>)
    ensures r.Some? ==> TaskStatusText(r.value) == text
  {
    if text == "active" then Some(Active)
    else if text == "inactive" then Some(Inactive)
    else if text == "deleted" then Some(Deleted)
    else None
  }

  /** Spelling a task status and reading it back gives the status; so the
      spellings are distinct, and `'all'` spells none of them. */
  lemma TaskStatusRoundTrip(s: TaskStatus)
    ensures ParseTaskStatus(TaskStatusText(s)) == Some(s)
    ensures TaskStatusText(s) != "all"
  {
  }

  /** The wire spelling of a log status. */
  function LogStatusText(s: LogStatus): string {
    match s
    case Success => "success"
    case Failed => "failed"
  }

  /** Reads a log status spelling back. */
  function ParseLogStatus(text: string): (r: Option<LogStatus>)
    ensures r.Some? ==> LogStatusText(r.value) == text
  {
    if text == "success" then Some(Success)
    else if text == "failed" then Some(Failed)
    else None
  }

  /** Spelling a log status and reading it back gives the status. */
  lemma LogStatusRoundTrip(s: LogStatus)
    ensures ParseLogStatus(LogStatusText(s)) == Some(s)
    ensures LogStatusText(s) != "all"
  {
  }

  /** `tasks.find(t => t.id === id)`: the first task with that id, if any. */
  function FindTask(tasks: seq<Task>, id: string): (r: Option<Task>)
    ensures r.None? <==> forall k :: 0 <= k < |tasks| ==> tasks[k].id != id
    ensures r.Some? ==> exists k :: 0 <= k < |tasks| && tasks[k] == r.value && r.value.id == id
                                    && forall j :: 0 <= j < k ==> tasks[j].id != id
  {
    if tasks == [] then None
    else if tasks[0].id == id then Some(tasks[0])
    else
      var r := FindTask(tasks[1..], id);
      if r.None? then r
      else
        var k :| 0 <= k < |tasks| - 1 && tasks[1..][k] == r.value && r.value.id == id
                 && forall j :: 0 <= j < k ==> tasks[1..][j].id != id;
        assert forall j :: 0 <= j < k + 1 ==> tasks[j].id != id by {
          forall j | 0 <= j < k + 1 ensures tasks[j].id != id {
            if j > 0 { assert tasks[j] == tasks[1..][j - 1]; }
          }
        }
        r
  }

  /** `log.message || '-'`: a missing or empty message is shown as a dash. */
  function MessageOrDash(message: Option<string>): (r: string)
    ensures r != ""
    ensures message.Some? && message.value != "" ==> r == message.value
    ensures message.None? || message.value == "" ==> r == "-"
  {
    if message.Some? && message.value != "" then message.value else "-"
  }
}
