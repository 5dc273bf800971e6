/** The add/edit task form (frontend/src/components/Task/TaskModal.tsx): its fields, the
    validation rules, the per-field change handler and the submit protocol that hands the form to
    the task cache. The date input holds a calendar day; the model keeps it as the time of that
    day's midnight (UTC), as `new Date('YYYY-MM-DD')` reads it. An empty date input is `None`. */
module TaskModal {
  import opened Wrappers
  import opened TaskTypes
  import Text
  import Service
  import TaskService
  import TaskStore
  import TaskContext

  datatype FormData = FormData(title: string, description: string, priority: string, dueDate: Option<Time>,
                               category: string)

  /** The blank form (TaskModal.tsx:14-20, 33-39, 100-106). */
  const EmptyForm := FormData("", "", Medium, None, "general")

  /** `new Date(t).toISOString().split('T')[0]`, read back as a date: midnight of that day. */
  function DayStart(t: Time): (d: Time)
    ensures d <= t < d + DayMs && d % DayMs == 0
  {
    t - t % DayMs
  }

  /** JavaScript's `s || fallback` for a string. */
  function OrElse(s: string, fallback: string): (r: string)
    ensures r == (if s == "" then fallback else s)
  {
    if s != "" then s else fallback
  }

  /** The form the modal shows when it opens (TaskModal.tsx:23-42): the task's fields, with the
      fallbacks for missing ones, or the blank form. Tasks carry no category, so it is always
      `'general'`. */
  function FormFor(initial: Option<Task>): FormData {
    match initial
    case None => EmptyForm
    case Some(t) =>
      FormData(OrElse(t.title, ""), t.description.GetOr(""), OrElse(t.priority, Medium),
               if t.dueDate.Some? then Some(DayStart(t.dueDate.value)) else None, "general")
  }

  const TitleRequired := "Title is required"
  const DueDateInPast := "Due date cannot be in the past"

  /** `validateForm` (TaskModal.tsx:69-81): the title must not be blank, and a due date, if
      given, must not lie before `now`. */
  function ValidateForm(form: FormData, now: Time): (errors: map<string, string>)
    ensures errors.Keys <= {"title", "dueDate"}
    ensures "title" in errors <==> Text.IsBlank(form.title)
    ensures "dueDate" in errors <==> form.dueDate.Some? && form.dueDate.value < now
    ensures forall k | k in errors :: errors[k] == (if k == "title" then TitleRequired else DueDateInPast)
  {
    Text.TrimEmptyIffBlank(form.title);
    var titleErrors := if Text.Trim(form.title) == "" then map["title" := TitleRequired] else map[];
    if form.dueDate.Some? && form.dueDate.value < now then titleErrors["dueDate" := DueDateInPast]
    else titleErrors
  }

  /** The body the form is sent as: the whole form object, `category` included. */
  function Payload(form: FormData): (b: RequestBody)
    ensures b.extra == {"category"}
    ensures b.fields.title == Some(form.title) && b.fields.description == Some(form.description)
    ensures b.fields.priority == Some(form.priority) && b.fields.dueDate == form.dueDate
    ensures b.fields.status == None
  {
    RequestBody(UpdateTaskData(Some(form.title), Some(form.description), None, Some(form.priority), form.dueDate),
                {"category"})
  }

  /** One `onChange` event: the input's `name` and its new `value`. */
  datatype Input =
    | TitleInput(text: string)
    | DescriptionInput(text: string)
    | PriorityInput(text: string)
    | DueDateInput(day: Option<Time>)
    | CategoryInput(text: string)
  {
    function Name(): string {
      match this
      case TitleInput(_) => "title"
      case DescriptionInput(_) => "description"
      case PriorityInput(_) => "priority"
      case DueDateInput(_) => "dueDate"
      case CategoryInput(_) => "category"
    }
  }

  /** `{ ...prev, [name]: value }`. */
  function WithInput(form: FormData, input: Input): (r: FormData)
    ensures input.TitleInput? ==> r == form.(title := input.text)
    ensures input.DescriptionInput? ==> r == form.(description := input.text)
    ensures input.PriorityInput? ==> r == form.(priority := input.text)
    ensures input.DueDateInput? ==> r == form.(dueDate := input.day)
    ensures input.CategoryInput? ==> r == form.(category := input.text)
  {
    match input
    case TitleInput(s) => form.(title := s)
    case DescriptionInput(s) => form.(description := s)
    case PriorityInput(s) => form.(priority := s)
    case DueDateInput(d) => form.(dueDate := d)
    case CategoryInput(s) => form.(category := s)
  }

  class TaskModalForm {
    var formData: FormData
    var errors: map<string, string>
    var initialTask: Option<Task>

    constructor ()
      ensures formData == EmptyForm && errors == map[] && initialTask == None
    {
      formData := EmptyForm;
      errors := map[];
      initialTask := None;
    }

    /** The effect that runs when the modal opens or its task changes (TaskModal.tsx:23-42). */
    method Open(initial: Option<Task>)
      modifies this
      ensures initialTask == initial && formData == FormFor(initial) && errors == map[]
    {
      initialTask := initial;
      formData := FormFor(initial);
      errors := map[];
    }

    /** `handleChange` (TaskModal.tsx:113-123): the field takes the new value, and a shown error
        for that field is blanked; no other field and no other error changes. */
    method HandleChange(input: Input)
      modifies this
      ensures formData == WithInput(old(formData), input) && initialTask == old(initialTask)
      ensures input.Name() in old(errors) && old(errors)[input.Name()] != "" ==>
                errors == old(errors)[input.Name() := ""]
      ensures !(input.Name() in old(errors) && old(errors)[input.Name()] != "") ==> errors == old(errors)
    {
      formData := WithInput(formData, input);
      var name := input.Name();
      if name in errors && errors[name] != "" {
        errors := errors[name := ""];
      }
    }

    /** `handleSubmit` (TaskModal.tsx:83-111). An invalid form shows its errors and sends
        nothing. A valid one is sent whole: as an update of the task being edited, or as a new
        task. `saved` says the cache's call resolved; then the parent is told (`onTaskCreated`,
        `onClose`) and the form is reset. A rejected call leaves the form as it was. */
    method HandleSubmit(now: Time, cache: TaskContext.TaskProvider, call: Service.Outcome<()>,
                        refetch: Service.Outcome<TaskService.TasksResponse>) returns (saved: bool)
      modifies this, cache
      ensures initialTask == old(initialTask)
      ensures |ValidateForm(old(formData), now)| > 0 ==>
                && !saved && errors == ValidateForm(old(formData), now) && formData == old(formData)
                && unchanged(cache)
      ensures |ValidateForm(old(formData), now)| == 0 && initialTask.None? ==>
                cache.sent == old(cache.sent) + [TaskContext.Create(Payload(old(formData)))]
                                + (if call.Resolved? then [TaskContext.ListAll] else [])
      ensures |ValidateForm(old(formData), now)| == 0 && initialTask.Some? ==>
                cache.sent == old(cache.sent) + [TaskContext.Update(initialTask.value.id, Payload(old(formData)))]
                                + (if call.Resolved? then [TaskContext.ListAll] else [])
      ensures saved <==> |ValidateForm(old(formData), now)| == 0 && call.Resolved?
      ensures saved ==> formData == EmptyForm && errors == map[]
      ensures |ValidateForm(old(formData), now)| == 0 && !saved ==>
                formData == old(formData) && errors == old(errors)
      ensures |ValidateForm(old(formData), now)| == 0 ==> !cache.loading
      ensures |ValidateForm(old(formData), now)| == 0 && call.Resolved? && refetch.Resolved? ==>
                cache.tasks == refetch.value.tasks && cache.error == None
      ensures |ValidateForm(old(formData), now)| == 0 && call.Resolved? && refetch.Rejected? ==>
                cache.tasks == old(cache.tasks) && cache.error == Some(Service.MessageOr(refetch, TaskContext.FetchFailed))
      ensures |ValidateForm(old(formData), now)| == 0 && call.Rejected? ==>
                && cache.tasks == old(cache.tasks)
                && cache.error == Some(Service.MessageOr(call, if initialTask.Some? then TaskContext.UpdateFailed
                                                               else TaskContext.CreateFailed))
    {
      var validation := ValidateForm(formData, now);
      if |validation| > 0 {
        errors := validation;
        return false;
      }
      var body := Payload(formData);
      if initialTask.Some? {
        saved := cache.UpdateTask(initialTask.value.id, body, call, refetch);
      } else {
        saved := cache.AddTask(body, call, refetch);
      }
      if saved {
        formData := EmptyForm;
        errors := map[];
      }
    }
  }

  /** Every edit the form sends names `category`, which the update handler does not allow: an edit
      saved through this form is always refused. */
  lemma EditIsRefused(form: FormData)
    ensures Keys(Payload(form)) - TaskStore.AllowedUpdates == {"category"}
    ensures !TaskStore.IsValidOperation(Payload(form))
  {
    TaskStore.ValidOperationIffNoExtraKeys(Payload(form));
  }

  /** A form that passes validation carries a title the server accepts, so its create request is
      never answered "Title is required"; the task created from it gets exactly the form's title,
      description, priority and due day, and the category is dropped. */
  lemma CreatedFromForm(form: FormData, now: Time, id: TaskId, requester: UserId, at: Time)
    requires "title" !in ValidateForm(form, now)
    ensures TaskStore.TitleGiven(Payload(form).fields.title)
    ensures var t := TaskStore.NewTask(id, requester, Payload(form).fields, at);
      && t.title == form.title && t.description == Some(form.description)
      && t.priority == form.priority && t.dueDate == form.dueDate && t.status == Todo
  {
  }

  /** Opening a task and saving the form unchanged, were the edit accepted, would keep the title and
      any non-empty priority, turn a missing description into the empty one, and move the due date
      back to midnight of its day. */
  lemma ReopenedForm(t: Task)
    ensures var r := TaskStore.Apply(t, Payload(FormFor(Some(t))).fields);
      && r.title == t.title && r.status == t.status
      && (t.priority != "" ==> r.priority == t.priority)
      && r.description == Some(t.description.GetOr(""))
      && (t.dueDate.None? ==> r.dueDate == None)
      && (t.dueDate.Some? ==> r.dueDate.Some? && r.dueDate.value <= t.dueDate.value < r.dueDate.value + DayMs)
  {
  }
}
