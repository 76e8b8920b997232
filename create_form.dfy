/** The create-task form: its fields, the change handler, the validation
    that fills the error messages, and the submit gate that builds the
    create request. */
module CreateForm {
  import opened TaskTypes
  import opened Text
  import opened Toasts
  import Cron

  /** The form's inputs, by their `name` attribute (`name`, `schedule`,
      `webhook_url`, `payload`, `max_retry`, `status`), which are also the
      keys of the error record. */
  datatype Field = NameField | ScheduleField | WebhookUrlField | PayloadField | MaxRetryField | StatusField

  /** The form's values. The payload is the raw text of the JSON box; the
      status is only ever `active` or `inactive`. */
  datatype FormData = FormData(
    name: string,
    schedule: string,
    webhookUrl: string,
    payload: string,
    maxRetry: int,
    status: CreationStatus)

  /** The form as the page opens it. */
  const InitialForm := FormData("", "", "", "", 3, Active)

  /** The messages the form shows under a field. */
  datatype FormError =
    | NameRequired
    | ScheduleRequired
    | WebhookRequired
    | WebhookPrefix
    | MaxRetryRange
    | InvalidJson

  /** The text of each message; none is empty, so a recorded message is
      always truthy. */
  function ErrorText(e: FormError): (text: string)
    ensures text != ""
  {
    match e
    case NameRequired => "Task name is required"
    case ScheduleRequired => "Schedule (cron expression) is required"
    case WebhookRequired => "Webhook URL is required"
    case WebhookPrefix => "Webhook URL must start with https://discord.com/api/webhooks/"
    case MaxRetryRange => "Max retry must be between 0 and 10"
    case InvalidJson => "Invalid JSON format"
  }

  const CreatedMessage := "Task created successfully!"
  const CreateFailedMessage := "Failed to create task. Please try again."

  /** The prefix every webhook URL must carry. */
  const DiscordWebhookPrefix := "https://discord.com/api/webhooks/"

  /** The largest retry count the form accepts. */
  const MaxRetryLimit := 10

  /** `!formData.name.trim()`. */
  function NameError(name: string): Option<FormError> {
    if Trim(name) == "" then Some(NameRequired) else None
  }

  /** `!formData.schedule.trim()`: the schedule is only checked for being
      blank, not for being a cron expression. */
  function ScheduleError(schedule: string): Option<FormError> {
    if Trim(schedule) == "" then Some(ScheduleRequired) else None
  }

  /** `url.startsWith('https://discord.com/api/webhooks/')`, on the
      untrimmed text. */
  predicate HasWebhookPrefix(url: string) {
    StartsWith(url, DiscordWebhookPrefix)
  }

  /** A URL starting with the prefix starts with its first letter, which
      is not whitespace. */
  lemma PrefixStartsWithLetter(url: string)
    requires HasWebhookPrefix(url)
    ensures |url| > 0 && url[0] == 'h' && !IsWhitespace(url[0])
  {
    assert url[..|DiscordWebhookPrefix|][0] == url[0];
  }

  /** Blank, or else not starting with the Discord prefix. */
  function WebhookError(url: string): Option<FormError> {
    if Trim(url) == "" then Some(WebhookRequired)
    else if !HasWebhookPrefix(url) then Some(WebhookPrefix)
    else None
  }

  function MaxRetryError(maxRetry: int): Option<FormError> {
    if maxRetry < 0 || maxRetry > MaxRetryLimit then Some(MaxRetryRange) else None
  }

  /** `m` with the entry `f := e` when there is a message `e`. */
  function WithError(m: map<Field, FormError>, f: Field, e: Option<FormError>): map<Field, FormError> {
    if e.Some? then m[f := e.value] else m
  }

  /** The record built from the four checks, in the page's order. */
  function ErrorRecord(name: Option<FormError>, schedule: Option<FormError>, url: Option<FormError>, retry: Option<FormError>)
    : map<Field, FormError>
  {
    WithError(WithError(WithError(WithError(map[], NameField, name), ScheduleField, schedule), WebhookUrlField, url),
              MaxRetryField, retry)
  }

  /** A field has an entry exactly when its check produced a message, the
      entry is that message, the payload and the status never get one, and
      the record is empty exactly when every check passed. */
  lemma ErrorRecordEntries(name: Option<FormError>, schedule: Option<FormError>, url: Option<FormError>, retry: Option<FormError>)
    ensures NameField in ErrorRecord(name, schedule, url, retry) <==> name.Some?
    ensures ScheduleField in ErrorRecord(name, schedule, url, retry) <==> schedule.Some?
    ensures WebhookUrlField in ErrorRecord(name, schedule, url, retry) <==> url.Some?
    ensures MaxRetryField in ErrorRecord(name, schedule, url, retry) <==> retry.Some?
    ensures PayloadField !in ErrorRecord(name, schedule, url, retry)
    ensures StatusField !in ErrorRecord(name, schedule, url, retry)
    ensures name.Some? ==> ErrorRecord(name, schedule, url, retry)[NameField] == name.value
    ensures schedule.Some? ==> ErrorRecord(name, schedule, url, retry)[ScheduleField] == schedule.value
    ensures url.Some? ==> ErrorRecord(name, schedule, url, retry)[WebhookUrlField] == url.value
    ensures retry.Some? ==> ErrorRecord(name, schedule, url, retry)[MaxRetryField] == retry.value
    ensures ErrorRecord(name, schedule, url, retry) == map[] <==>
            name.None? && schedule.None? && url.None? && retry.None?
  {
    if ErrorRecord(name, schedule, url, retry) == map[] {
      assert NameField !in ErrorRecord(name, schedule, url, retry);
    }
  }

  /** The error record validation produces for a form. */
  function ExpectedErrors(form: FormData): map<Field, FormError> {
    ErrorRecord(NameError(form.name), ScheduleError(form.schedule), WebhookError(form.webhookUrl),
                MaxRetryError(form.maxRetry))
  }

  /** The name and the schedule are refused exactly when they are blank. */
  lemma RequiredIffBlank(s: string)
    ensures NameError(s).Some? <==> IsBlank(s)
    ensures ScheduleError(s).Some? <==> IsBlank(s)
  {
    TrimEmptyIffBlank(s);
  }

  /** The URL is refused as missing exactly when it is blank, passes
      exactly when it starts with the Discord webhook prefix, and is
      refused for its prefix otherwise. */
  lemma WebhookErrorCases(url: string)
    ensures WebhookError(url) == Some(WebhookRequired) <==> IsBlank(url)
    ensures WebhookError(url).None? <==> StartsWith(url, DiscordWebhookPrefix)
    ensures WebhookError(url) == Some(WebhookPrefix) <==>
            !IsBlank(url) && !StartsWith(url, DiscordWebhookPrefix)
  {
    TrimEmptyIffBlank(url);
    if HasWebhookPrefix(url) {
      PrefixStartsWithLetter(url);
    }
  }

  /** The retry count is refused exactly outside 0..10. */
  lemma MaxRetryErrorIff(n: int)
    ensures MaxRetryError(n).Some? <==> n < 0 || n > MaxRetryLimit
  {
  }

  /** The form passes validation exactly when the name and the schedule
      are not blank, the URL starts with the Discord webhook prefix, and
      the retry count lies between 0 and 10. */
  lemma FormValidIff(form: FormData)
    ensures ExpectedErrors(form) == map[] <==>
      && !IsBlank(form.name)
      && !IsBlank(form.schedule)
      && StartsWith(form.webhookUrl, DiscordWebhookPrefix)
      && 0 <= form.maxRetry <= MaxRetryLimit
  {
    ErrorRecordEntries(NameError(form.name), ScheduleError(form.schedule), WebhookError(form.webhookUrl),
                       MaxRetryError(form.maxRetry));
    RequiredIffBlank(form.name);
    RequiredIffBlank(form.schedule);
    WebhookErrorCases(form.webhookUrl);
  }

  /** The URL is checked before trimming: a leading space fails the prefix
      test even when the rest is a Discord webhook URL. */
  lemma WebhookPrefixIsUntrimmed(url: string)
    requires |url| > 0 && IsWhitespace(url[0]) && !IsBlank(url)
    ensures WebhookError(url) == Some(WebhookPrefix)
  {
    WebhookErrorCases(url);
    if HasWebhookPrefix(url) {
      PrefixStartsWithLetter(url);
    }
  }

  /** The schedule is not checked against the cron checker: a schedule the
      checker rejects passes validation. */
  lemma ScheduleNotCronChecked()
    ensures ScheduleError("9am").None?
    ensures !Cron.IsValidCronExpression("9am")
  {
    Cron.RejectsLetters();
    RequiredIffBlank("9am");
    assert !IsWhitespace("9am"[0]);
  }

  /** The untouched form has errors on the name, the schedule and the URL,
      and none on the default retry count. */
  lemma InitialFormErrors()
    ensures ExpectedErrors(InitialForm) ==
      map[NameField := NameRequired, ScheduleField := ScheduleRequired, WebhookUrlField := WebhookRequired]
  {
    assert NameError("") == Some(NameRequired);
    assert ScheduleError("") == Some(ScheduleRequired);
    assert WebhookError("") == Some(WebhookRequired);
    assert MaxRetryError(3).None?;
  }

  /** `parseInt(value, 10) || 0`: `parsed` is what `parseInt` returned,
      `None` for `NaN`; `NaN` and `0` both give 0. */
  function RetryFromInput(parsed: Option<int>): (n: int)
    ensures parsed.None? ==> n == 0
    ensures parsed.Some? ==> n == parsed.value
  {
    if parsed.Some? && parsed.value != 0 then parsed.value else 0
  }

  /** What the submit handler does, given the validation result and what
      `JSON.parse` made of the payload (`None` when it threw). */
  datatype SubmitOutcome =
    | Invalid
    | BadPayload
    | Submitted(request: TaskCreateRequest)

  /** The submit gate as one function of the form and the parse result. */
  function SubmitDecision(form: FormData, parsedPayload: Option<JsonValue>): SubmitOutcome {
    if ExpectedErrors(form) != map[] then Invalid
    else if Trim(form.payload) != "" && parsedPayload.None? then BadPayload
    else
      var payload := if Trim(form.payload) != "" then parsedPayload else None;
      Submitted(TaskCreateRequest(form.name, form.schedule, form.webhookUrl, payload, form.maxRetry, form.status))
  }

  /** A form that fails validation is never sent, and a valid one is sent
      unless its payload is non-blank and does not parse; a sent request carries
      the form's text unchanged, satisfies every validation rule, has no
      payload when the payload box is blank and the parsed payload
      otherwise; a non-blank payload that does not parse stops a valid form. */
  lemma SubmitDecisionSpec(form: FormData, parsedPayload: Option<JsonValue>)
    ensures ExpectedErrors(form) != map[] ==> SubmitDecision(form, parsedPayload) == Invalid
    ensures SubmitDecision(form, parsedPayload) == BadPayload <==>
      ExpectedErrors(form) == map[] && !IsBlank(form.payload) && parsedPayload.None?
    ensures SubmitDecision(form, parsedPayload).Submitted? ==>
      var req := SubmitDecision(form, parsedPayload).request;
      && req.name == form.name && req.schedule == form.schedule && req.webhookUrl == form.webhookUrl
      && req.maxRetry == form.maxRetry && req.status == form.status
      && !IsBlank(req.name) && !IsBlank(req.schedule)
      && StartsWith(req.webhookUrl, DiscordWebhookPrefix)
      && 0 <= req.maxRetry <= MaxRetryLimit
      && (IsBlank(form.payload) ==> req.payload.None?)
      && (!IsBlank(form.payload) ==> req.payload == parsedPayload && parsedPayload.Some?)
    ensures ExpectedErrors(form) == map[] && (IsBlank(form.payload) || parsedPayload.Some?)
            ==> SubmitDecision(form, parsedPayload).Submitted?
  {
    FormValidIff(form);
    TrimEmptyIffBlank(form.payload);
  }

  /** The page's form state. */
  class CreateTaskForm {
    var form: FormData
    var errors: map<Field, FormError>

    constructor ()
      ensures form == InitialForm && errors == map[]
    {
      form := InitialForm;
      errors := map[];
    }

    /** `handleChange`: stores the new value (the retry count through
        `parseInt(value, 10) || 0`) and clears the field's error if it has
        one. The status select offers only `active` and `inactive`. */
    method HandleChange(field: Field, value: string, parsedRetry: Option<int>)
      requires field == StatusField ==> value == "active" || value == "inactive"
      modifies this
      ensures errors == old(errors) - {field}
      ensures form == match field
        case NameField => old(form).(name := value)
        case ScheduleField => old(form).(schedule := value)
        case WebhookUrlField => old(form).(webhookUrl := value)
        case PayloadField => old(form).(payload := value)
        case MaxRetryField => old(form).(maxRetry := RetryFromInput(parsedRetry))
        case StatusField => old(form).(status := if value == "active" then Active else Inactive)
    {
      match field {
        case NameField => form := form.(name := value);
        case ScheduleField => form := form.(schedule := value);
        case WebhookUrlField => form := form.(webhookUrl := value);
        case PayloadField => form := form.(payload := value);
        case MaxRetryField => form := form.(maxRetry := RetryFromInput(parsedRetry));
        case StatusField => form := form.(status := if value == "active" then Active else Inactive);
      }
      if field in errors && ErrorText(errors[field]) != "" {
        errors := errors - {field};
      }
    }

    /** `validateForm`: builds the error record field by field, replaces
        the old record with it, and reports whether it is empty. */
    method ValidateForm() returns (ok: bool)
      modifies this
      ensures form == old(form)
      ensures errors == ExpectedErrors(form)
      ensures ok <==> errors == map[]
    {
      var data := form;
      var newErrors: map<Field, FormError> := map[];
      if Trim(data.name) == "" {
        newErrors := newErrors[NameField := NameRequired];
      }
      if Trim(data.schedule) == "" {
        newErrors := newErrors[ScheduleField := ScheduleRequired];
      }
      if Trim(data.webhookUrl) == "" {
        newErrors := newErrors[WebhookUrlField := WebhookRequired];
      } else if !HasWebhookPrefix(data.webhookUrl) {
        newErrors := newErrors[WebhookUrlField := WebhookPrefix];
      }
      if data.maxRetry < 0 || data.maxRetry > MaxRetryLimit {
        newErrors := newErrors[MaxRetryField := MaxRetryRange];
      }
      errors := newErrors;
      ok := |newErrors| == 0;
    }

    /** `handleSubmit`. `parsedPayload` is what `JSON.parse` made of the
        payload text (`None` when it threw); `created` is whether the
        create call succeeded. A valid form with a bad payload gets the
        payload error added to its (empty) record. */
    method HandleSubmit(parsedPayload: Option<JsonValue>, created: bool)
      returns (outcome: SubmitOutcome, notice: Option<ToastAction>)
      modifies this
      ensures form == old(form)
      ensures outcome == SubmitDecision(form, parsedPayload)
      ensures outcome == Invalid ==> errors == ExpectedErrors(form) && notice.None?
      ensures outcome == BadPayload ==> errors == map[PayloadField := InvalidJson] && notice.None?
      ensures outcome.Submitted? ==> errors == map[]
      ensures outcome.Submitted? && created ==> notice == Some(AddToast(CreatedMessage, SuccessToast))
      ensures outcome.Submitted? && !created ==> notice == Some(AddToast(CreateFailedMessage, ErrorToast))
    {
      var ok := ValidateForm();
      if !ok {
        return Invalid, None;
      }
      var payload: Option<JsonValue> := None;
      if Trim(form.payload) != "" {
        if parsedPayload.None? {
          errors := errors[PayloadField := InvalidJson];
          return BadPayload, None;
        }
        payload := parsedPayload;
      }
      var taskData := TaskCreateRequest(form.name, form.schedule, form.webhookUrl, payload, form.maxRetry, form.status);
      outcome := Submitted(taskData);
      if created {
        notice := Some(AddToast(CreatedMessage, SuccessToast));
      } else {
        notice := Some(AddToast(CreateFailedMessage, ErrorToast));
      }
    }
  }
}
