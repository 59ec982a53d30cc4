/** The pure half of src/microfastapitodowebapp/util/todo_form_helper.py: list defaults,
    the deadline parse, the create and patch bodies built from the edit form, and the choice
    of toast. `datetime.strptime(s, "%Y-%m-%dT%H:%M:%S")` is the parameter `strptime`: the
    naive wall-clock time it reads, in microseconds, or None where it raises ValueError. */
module FormHelper {
  import opened Base
  import Text
  import opened Requests

  /** `normalize_list`: `value or []`. */
  function NormalizeList<T>(value: Option<seq<T>>): (r: seq<T>)
    ensures value.None? ==> r == []
    ensures value.Some? ==> r == value.value
  {
    match value
    case Some(xs) => xs
    case None => []
  }

  /** `not s or not s.strip()` for an optional string. */
  predicate Blank(s: Option<string>) {
    s.None? || Text.AllSpace(s.value)
  }

  const MidnightHM := "00:00"
  const Seconds := ":00"
  const Midnight := "00:00:00"

  /** The time half of the deadline: stripped, `00:00` when missing or blank, and seconds
      `:00` added to a five-character `HH:MM`. */
  function NormalizeTime(time: Option<string>): (r: string)
    ensures Blank(time) ==> r == Midnight
    ensures !Blank(time) && |Text.Strip(time.value)| == 5 ==> r == Text.Strip(time.value) + Seconds
    ensures !Blank(time) && |Text.Strip(time.value)| != 5 ==> r == Text.Strip(time.value)
  {
    var raw := match time case Some(t) => t case None => "";
    Text.StripEmptyIffAllSpace(raw);
    assert MidnightHM + Seconds == Midnight;
    var stripped := Text.Strip(raw);
    var t := if stripped == "" then MidnightHM else stripped;
    if |t| == 5 then t + Seconds else t
  }

  /** Normalising a normalised time changes nothing: the result is already stripped and is
      never five characters long. */
  lemma NormalizeTimeIdempotent(time: Option<string>)
    ensures NormalizeTime(Some(NormalizeTime(time))) == NormalizeTime(time)
  {
    var r := NormalizeTime(time);
    assert r != [] && !Text.IsSpace(r[|r| - 1]) && |r| != 5 by {
      if Blank(time) {
        assert r[|r| - 1] == '0';
      } else {
        var s := Text.Strip(time.value);
        Text.StripEmptyIffAllSpace(time.value);
        Text.StripTrimmed(time.value);
        if |s| == 5 {
          assert r[|r| - 1] == '0';
        }
      }
    }
    assert !Text.IsSpace(r[0]) by {
      if Blank(time) {
        assert r[0] == '0';
      } else {
        Text.StripEmptyIffAllSpace(time.value);
        Text.StripTrimmed(time.value);
        assert r[0] == Text.Strip(time.value)[0];
      }
    }
    Text.StripKeepsTrimmed(r);
    assert !Text.AllSpace(r) by {
      assert !Text.IsSpace(r[0]);
    }
  }

  /** `parse_deadline`: None for a missing or blank date, whatever the time; otherwise the
      date (as given, unstripped) joined by `T` to the normalised time, parsed and marked as
      UTC, or None when it does not parse. */
  function ParseDeadline(date: Option<string>, time: Option<string>, strptime: string -> Option<int>)
    : (r: Option<DateTime>)
    ensures Blank(date) ==> r == None
    ensures !Blank(date) ==>
      var parsed := strptime(date.value + "T" + NormalizeTime(time));
      (r.Some? <==> parsed.Some?) && (r.Some? ==> r.value == DateTime(parsed.value, Utc))
    ensures r.Some? ==> r.value.zone == Utc
  {
    if Blank(date) then None
    else match strptime(date.value + "T" + NormalizeTime(time))
      case Some(micros) => Some(DateTime(micros, Utc))
      case None => None
  }

  /** `build_create_request`: title, description, priority and completion copied as given,
      the parsed deadline, and the categories with None turned into the empty list. */
  function BuildCreateRequest(form: TodoFormData, strptime: string -> Option<int>)
    : (r: TodoCreateRequest)
    ensures r.title == Some(form.title) && r.description == Some(form.description)
    ensures r.priority == form.priority && r.completed == form.completed
    ensures r.deadline == ParseDeadline(form.deadlineDate, form.deadlineTime, strptime)
    ensures r.parent == None
    ensures form.categories.None? ==> r.categories == []
    ensures form.categories.Some? ==> r.categories == form.categories.value
  {
    TodoCreateRequest(
      title := Some(form.title),
      description := Some(form.description),
      deadline := ParseDeadline(form.deadlineDate, form.deadlineTime, strptime),
      completed := form.completed,
      parent := None,
      priority := form.priority,
      categories := NormalizeList(form.categories))
  }

  /** `build_patch_request` at the instant `nowMicros` (microseconds, UTC): a deadline that
      parses and lies strictly in the past is dropped by sending the body without a deadline
      field; otherwise the parsed deadline, None included, is sent. */
  function BuildPatchRequest(form: TodoFormData, nowMicros: int, strptime: string -> Option<int>)
    : (r: TodoPatch)
    ensures var d := ParseDeadline(form.deadlineDate, form.deadlineTime, strptime);
      r.TodoPatchNoDateRequest? <==> d.Some? && d.value.micros < nowMicros
    ensures r.TodoPatchRequest? ==>
      r.deadline == ParseDeadline(form.deadlineDate, form.deadlineTime, strptime)
    ensures r.title == Some(form.title) && r.description == Some(form.description)
    ensures r.priority == Some(form.priority) && r.completed == Some(form.completed)
    ensures r.parent == None
    ensures r.categories == Some(NormalizeList(form.categories))
  {
    var categories := NormalizeList(form.categories);
    var deadline := ParseDeadline(form.deadlineDate, form.deadlineTime, strptime);
    if deadline.Some? && deadline.value.micros < nowMicros then
      TodoPatchNoDateRequest(
        title := Some(form.title),
        description := Some(form.description),
        completed := Some(form.completed),
        parent := None,
        priority := Some(form.priority),
        categories := Some(categories))
    else
      TodoPatchRequest(
        title := Some(form.title),
        description := Some(form.description),
        deadline := deadline,
        completed := Some(form.completed),
        parent := None,
        priority := Some(form.priority),
        categories := Some(categories))
  }

  /** A deadline that is sent is never in the past: either it is absent or it is not before
      `nowMicros`. */
  lemma PatchNeverSendsPastDeadline(form: TodoFormData, nowMicros: int, strptime: string -> Option<int>)
    ensures var r := BuildPatchRequest(form, nowMicros, strptime);
      r.TodoPatchRequest? && r.deadline.Some? ==> r.deadline.value.micros >= nowMicros
  {
  }

  /** The type and message `create_toast_response` renders: an error wins over a share
      failure, and a custom message, unless empty, replaces the default text. */
  datatype Toast = Toast(toastType: string, message: string)

  /** The default error text, with the characters that stand in the source file. */
  const ErrorMessage := "We couldn\U{00E2}\U{20AC}\U{2122}t save your changes. Please try again."
  const WarningMessage := "Saved, but sharing could not be completed."
  const SuccessMessage := "Your changes have been saved."

  function SelectToast(sharesOk: bool, isError: bool, customMessage: Option<string>): (t: Toast)
    ensures isError ==> t.toastType == "error"
    ensures !isError && !sharesOk ==> t.toastType == "warning"
    ensures !isError && sharesOk ==> t.toastType == "success"
    ensures customMessage.Some? && customMessage.value != "" ==> t.message == customMessage.value
    ensures customMessage.None? || customMessage.value == "" ==>
      t.message == (if isError then ErrorMessage else if !sharesOk then WarningMessage else SuccessMessage)
  {
    var custom := if customMessage.Some? then customMessage.value else "";
    if isError then Toast("error", if custom != "" then custom else ErrorMessage)
    else if !sharesOk then Toast("warning", if custom != "" then custom else WarningMessage)
    else Toast("success", if custom != "" then custom else SuccessMessage)
  }
}
