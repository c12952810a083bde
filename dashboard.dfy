/** The logic inside the task dashboard page (app/dashboard/page.tsx): the
    one-click status cycle, the overdue test, the counters above the list,
    removing a deleted task from the list, and turning the edit form into
    the request the page sends. Date parsing and the clock are parameters:
    `time(s)` is the millisecond value of `new Date(s)` (nothing for an
    invalid date), `toIso(s)` is `new Date(s).toISOString()` (nothing when
    that throws) and `now` is the current time. */
module Dashboard {
  import opened Wrappers
  import opened Strings
  import opened Json
  import opened Domain
  import opened Validations

  /** A task as the list endpoint delivers it to the page. */
  datatype TaskView = TaskView(id: string, title: string, description: Option<string>,
                               status: Status, priority: Priority, dueDate: Option<string>)

  // ─── Status cycle ─────────────────────────────────────

  /** The status a click on the status chip asks for. */
  function NextStatus(s: Status): (next: Status)
    ensures next != s
  {
    match s
    case Todo => InProgress
    case InProgress => Done
    case Done => Todo
  }

  /** The cycle has length three: every click changes the status and three
      clicks bring it back. */
  lemma StatusCycle(s: Status)
    ensures NextStatus(s) != s
    ensures NextStatus(NextStatus(s)) != s
    ensures NextStatus(NextStatus(NextStatus(s))) == s
  {
  }

  /** The body of the status click, `{status: next}`, is an update the
      task validator accepts, changing the status and nothing else. */
  lemma StatusClickIsValidUpdate(s: Status, f: Formats)
    ensures var r := UpdateTaskSchema(JObj(map["status" := JStr(StatusName(NextStatus(s)))]), f);
      r.Valid? && r.value.status == Some(NextStatus(s)) &&
      r.value.title.None? && r.value.priority.None? &&
      r.value.description.Undefined? && r.value.dueDate.Undefined?
  {
    var m := map["status" := JStr(StatusName(NextStatus(s)))];
    assert Get(m, "status") == Some(JStr(StatusName(NextStatus(s))));
    assert Get(m, "title").None? && Get(m, "priority").None? && Get(m, "description").None? && Get(m, "dueDate").None?;
    UpdateTaskAccepts(m, f);
    NamesRoundTrip(NextStatus(s), Low);
  }

  // ─── Overdue and counters ─────────────────────────────

  /** `isOverdue`: a task with a (non-empty) due date that is not done and
      whose date is before now; an unparseable date is never overdue. */
  predicate IsOverdue(t: TaskView, now: int, time: string -> Option<int>)
    ensures IsOverdue(t, now, time) ==> t.status != Done && t.dueDate.Some?
    ensures t.dueDate.None? || t.status == Done ==> !IsOverdue(t, now, time)
  {
    t.dueDate.Some? && t.dueDate.value != "" && t.status != Done &&
    time(t.dueDate.value).Some? && time(t.dueDate.value).value < now
  }

  function CountStatus(tasks: seq<TaskView>, s: Status): (n: nat)
    ensures n <= |tasks|
    decreases |tasks|
  {
    if tasks == [] then 0
    else (if tasks[0].status == s then 1 else 0) + CountStatus(tasks[1..], s)
  }

  function CountOverdue(tasks: seq<TaskView>, now: int, time: string -> Option<int>): (n: nat)
    ensures n <= |tasks|
    decreases |tasks|
  {
    if tasks == [] then 0
    else (if IsOverdue(tasks[0], now, time) then 1 else 0) + CountOverdue(tasks[1..], now, time)
  }

  /** The counters shown above the list. */
  datatype Stats = Stats(total: nat, todo: nat, inProgress: nat, done: nat, overdue: nat)

  function ComputeStats(tasks: seq<TaskView>, now: int, time: string -> Option<int>): (st: Stats)
    ensures st.total == |tasks|
    ensures st.todo <= st.total && st.inProgress <= st.total && st.done <= st.total && st.overdue <= st.total
  {
    Stats(|tasks|, CountStatus(tasks, Todo), CountStatus(tasks, InProgress), CountStatus(tasks, Done),
          CountOverdue(tasks, now, time))
  }

  /** Every task is counted under exactly one status, and the overdue
      tasks are among those not done. */
  lemma {:induction false} StatsAddUp(tasks: seq<TaskView>, now: int, time: string -> Option<int>)
    ensures var st := ComputeStats(tasks, now, time);
      st.total == st.todo + st.inProgress + st.done && st.overdue <= st.total - st.done
    decreases |tasks|
  {
    if tasks != [] {
      StatsAddUp(tasks[1..], now, time);
    }
  }

  // ─── Delete ───────────────────────────────────────────

  /** The list after a successful delete of `id`. */
  function DeleteById(tasks: seq<TaskView>, id: string): (r: seq<TaskView>)
    ensures forall t :: t in r <==> t in tasks && t.id != id
    ensures |r| <= |tasks|
    decreases |tasks|
  {
    if tasks == [] then []
    else if tasks[0].id == id then DeleteById(tasks[1..], id)
    else [tasks[0]] + DeleteById(tasks[1..], id)
  }

  /** Deleting works piece by piece, so the kept tasks stay in their order. */
  lemma {:induction false} DeleteSplits(a: seq<TaskView>, b: seq<TaskView>, id: string)
    ensures DeleteById(a + b, id) == DeleteById(a, id) + DeleteById(b, id)
    decreases |a|
  {
    if a == [] {
      assert a + b == b;
    } else {
      assert (a + b)[1..] == a[1..] + b;
      DeleteSplits(a[1..], b, id);
    }
  }

  /** A list without the id is left as it is, so deleting twice is
      deleting once. */
  lemma {:induction false} DeleteAbsent(tasks: seq<TaskView>, id: string)
    requires forall t :: t in tasks ==> t.id != id
    ensures DeleteById(tasks, id) == tasks
    decreases |tasks|
  {
    if tasks != [] {
      assert tasks[0] in tasks;
      assert forall t :: t in tasks[1..] ==> t in tasks;
      DeleteAbsent(tasks[1..], id);
    }
  }

  lemma DeleteIdempotent(tasks: seq<TaskView>, id: string)
    ensures DeleteById(DeleteById(tasks, id), id) == DeleteById(tasks, id)
  {
    DeleteAbsent(DeleteById(tasks, id), id);
  }

  // ─── Create and edit form ─────────────────────────────

  /** The modal's fields. */
  datatype FormData = FormData(title: string, description: string, status: Status,
                               priority: Priority, dueDate: string)

  const BlankForm: FormData := FormData("", "", Todo, Medium, "")

  /** The form opened on an existing task: a missing description is shown
      empty, and a due date is cut to `YYYY-MM-DDTHH:mm`, its first 16
      characters. */
  function EditForm(t: TaskView): (form: FormData)
    ensures |form.dueDate| <= 16 && form.dueDate <= t.dueDate.GetOr("")
    ensures form.dueDate == "" <==> t.dueDate.None? || t.dueDate.value == ""
    ensures var d := t.dueDate.GetOr(""); d != "" ==> |form.dueDate| == if |d| < 16 then |d| else 16
    ensures form.title == t.title && form.status == t.status && form.priority == t.priority
    ensures form.description == t.description.GetOr("")
  {
    var due := t.dueDate.GetOr("");
    FormData(t.title, t.description.GetOr(""), t.status, t.priority,
             if due == "" then "" else due[..if |due| < 16 then |due| else 16])
  }

  /** What `handleSave` does: refuse a blank title, or send a body; a due
      date that `toISOString` cannot render ends in the catch-all error. */
  datatype SaveStep = FormError(message: string) | Send(httpMethod: string, url: string, body: Json)

  const TitleRequired: string := "Title is required"
  const Unexpected: string := "An unexpected error occurred"

  /** The request body's `description`: the trimmed text, or null when it
      trims to nothing. */
  function DescriptionJson(description: string): Json
  {
    if Trim(description) == "" then JNull else JStr(Trim(description))
  }

  /** The fields of the body, with the due date as rendered. */
  function SaveFields(form: FormData, due: Json): map<string, Json>
  {
    map[
      "title" := JStr(Trim(form.title)),
      "description" := DescriptionJson(form.description),
      "status" := JStr(StatusName(form.status)),
      "priority" := JStr(PriorityName(form.priority)),
      "dueDate" := due]
  }

  function HandleSave(form: FormData, editing: Option<TaskView>, toIso: string -> Option<string>): (step: SaveStep)
    ensures step.FormError? ==> step.message == TitleRequired || step.message == Unexpected
    ensures step.Send? ==>
      (step.httpMethod == "PUT" <==> editing.Some?) &&
      (step.httpMethod == "POST" <==> editing.None?) &&
      step.body.JObj?
  {
    if Trim(form.title) == "" then FormError(TitleRequired)
    else if form.dueDate != "" && toIso(form.dueDate).None? then FormError(Unexpected)
    else
      var body := JObj(SaveFields(form, if form.dueDate == "" then JNull else JStr(toIso(form.dueDate).value)));
      if editing.Some? then Send("PUT", "/api/tasks/" + editing.value.id, body)
      else Send("POST", "/api/tasks", body)
  }

  /** Nothing is sent exactly for a title that is blank or a due date that
      cannot be rendered; the blank title is reported first. */
  lemma SaveRefusals(form: FormData, editing: Option<TaskView>, toIso: string -> Option<string>)
    ensures HandleSave(form, editing, toIso) == FormError(TitleRequired) <==> IsBlank(form.title)
    ensures HandleSave(form, editing, toIso).FormError? <==>
      IsBlank(form.title) || (form.dueDate != "" && toIso(form.dueDate).None?)
  {
    TrimEmptyIffBlank(form.title);
  }

  /** A sent body has a trimmed, non-empty title and a trimmed description
      that is null exactly when the form's was blank; an open task is
      updated in place and otherwise a task is created. */
  lemma SaveBody(form: FormData, editing: Option<TaskView>, toIso: string -> Option<string>)
    ensures var step := HandleSave(form, editing, toIso);
      step.Send? ==>
        step.body.JObj? && "title" in step.body.fields && step.body.fields["title"].JStr? &&
        var title := step.body.fields["title"].s;
        title != "" && Trim(title) == title
    ensures var step := HandleSave(form, editing, toIso);
      step.Send? ==>
        step.body.JObj? && "description" in step.body.fields &&
        (step.body.fields["description"] == JNull <==> IsBlank(form.description)) &&
        (step.body.fields["description"].JStr? ==> Trim(step.body.fields["description"].s) == step.body.fields["description"].s)
    ensures var step := HandleSave(form, editing, toIso);
      step.Send? ==>
        (step.httpMethod == "PUT" <==> editing.Some?) &&
        (editing.Some? ==> step.url == "/api/tasks/" + editing.value.id)
  {
    TrimIdempotent(form.title);
    TrimIdempotent(form.description);
    TrimEmptyIffBlank(form.description);
  }

  /** The body fields pass the create-task validator when the trimmed
      title and description fit its bounds and the due date is null or a
      datetime. */
  lemma SaveFieldsAccepted(form: FormData, due: Json, f: Formats)
    requires !IsBlank(form.title) && |Trim(form.title)| <= 255 && |Trim(form.description)| <= 2000
    requires due == JNull || (due.JStr? && f.isDatetime(due.s))
    ensures var r := CreateTaskSchema(JObj(SaveFields(form, due)), f);
      r.Valid? && r.value.title == Trim(form.title) &&
      r.value.status == form.status && r.value.priority == form.priority &&
      (r.value.dueDate.Some? <==> due.JStr? && due.s != "")
  {
    var m := SaveFields(form, due);
    TrimEmptyIffBlank(form.title);
    TrimIdempotent(form.title);
    assert Get(m, "title") == Some(JStr(Trim(form.title)));
    TitleField(["title"], Trim(form.title), TitleChecks, f);
    assert Get(m, "description") == Some(DescriptionJson(form.description));
    OptionalDescription(["description"], Get(m, "description"), DescriptionChecks, f);
    assert Get(m, "status") == Some(JStr(StatusName(form.status)));
    CreateStatus(Get(m, "status"));
    assert Get(m, "priority") == Some(JStr(PriorityName(form.priority)));
    CreatePriority(["priority"], Get(m, "priority"), true);
    assert Get(m, "dueDate") == Some(due);
    DueDate(["dueDate"], Get(m, "dueDate"), f);
    NamesRoundTrip(form.status, form.priority);
  }

  /** A create request from the form passes the create-task validator when
      the trimmed title and description fit its bounds and the rendered due
      date is a datetime, and the stored task has the form's values. */
  lemma SavedCreateIsAccepted(form: FormData, toIso: string -> Option<string>, f: Formats)
    requires !IsBlank(form.title) && |Trim(form.title)| <= 255 && |Trim(form.description)| <= 2000
    requires form.dueDate != "" ==>
      toIso(form.dueDate).Some? && toIso(form.dueDate).value != "" && f.isDatetime(toIso(form.dueDate).value)
    ensures var step := HandleSave(form, None, toIso);
      step.Send? && step.httpMethod == "POST" &&
      var r := CreateTaskSchema(step.body, f);
      r.Valid? && r.value.title == Trim(form.title) &&
      r.value.status == form.status && r.value.priority == form.priority &&
      (r.value.dueDate.Some? <==> form.dueDate != "")
  {
    TrimEmptyIffBlank(form.title);
    var due := if form.dueDate == "" then JNull else JStr(toIso(form.dueDate).value);
    assert HandleSave(form, None, toIso) == Send("POST", "/api/tasks", JObj(SaveFields(form, due)));
    SaveFieldsAccepted(form, due, f);
  }

  /** Opening a task whose title and description are already trimmed and
      saving without a change sends back that title and description, its
      status and priority, to the task's own URL. */
  lemma EditThenSaveKeepsTask(t: TaskView, toIso: string -> Option<string>)
    requires t.title != "" && Trim(t.title) == t.title
    requires t.description.Some? ==> t.description.value != "" && Trim(t.description.value) == t.description.value
    requires t.dueDate.None?
    ensures HandleSave(EditForm(t), Some(t), toIso) ==
      Send("PUT", "/api/tasks/" + t.id, JObj(map[
        "title" := JStr(t.title),
        "description" := if t.description.Some? then JStr(t.description.value) else JNull,
        "status" := JStr(StatusName(t.status)),
        "priority" := JStr(PriorityName(t.priority)),
        "dueDate" := JNull]))
  {
    assert Trim("") == "";
  }
}
