/** The records both ends of the application exchange (frontend/src/types/task.types.ts and
    frontend/src/types/auth.types.ts). Dates are integers: milliseconds since the epoch. The two
    declarations of `Task` in task.types.ts are merged into one record. Status and priority stay
    strings, as the JavaScript code compares them as strings and has fallbacks for unknown values. */
module TaskTypes {
  import opened Wrappers

  type UserId = string
  type TaskId = nat
  /** Milliseconds since the epoch. */
  type Time = int

  /** Milliseconds in a day. */
  const DayMs := 86400000

  const Todo := "todo"
  const InProgress := "in-progress"
  const Done := "done"

  const Low := "low"
  const Medium := "medium"
  const High := "high"

  datatype Subtask = Subtask(id: string, title: string, completed: bool)

  datatype Attachment = Attachment(id: string, name: string, url: string, kind: string)

  datatype Task = Task(
    id: TaskId,
    title: string,
    description: Option<string>,
    status: string,
    priority: string,
    dueDate: Option<Time>,
    subtasks: Option<seq<Subtask>>,
    attachments: Option<seq<Attachment>>,
    tags: Option<seq<string>>,
    assignedTo: Option<string>,
    user: UserId,
    isDeleted: bool,
    createdAt: Time,
    updatedAt: Time)

  /** `task => task.status === status`, the condition every status filter uses. */
  function HasStatus(status: string): Task -> bool {
    (t: Task) => t.status == status
  }

  /** The five fields a client may send when changing a task; each one may be left out. The same
      shape carries the body of a create request, whose `status` the server ignores. */
  datatype UpdateTaskData = UpdateTaskData(
    title: Option<string>,
    description: Option<string>,
    status: Option<string>,
    priority: Option<string>,
    dueDate: Option<Time>)

  const NoChanges := UpdateTaskData(None, None, None, None, None)

  const TaskDataKeys: set<string> := {"title", "description", "status", "priority", "dueDate"}

  /** A body key that is none of the five task fields (for instance `category`). */
  type ExtraKey = k: string | k !in TaskDataKeys witness "category"

  /** A JSON request body: the task fields it carries plus the names of any other keys. */
  datatype RequestBody = RequestBody(fields: UpdateTaskData, extra: set<ExtraKey>)

  /** `Object.keys(body)`. */
  function Keys(b: RequestBody): (ks: set<string>)
    ensures ks * TaskDataKeys == PresentFields(b.fields)
    ensures ks - TaskDataKeys == b.extra
  {
    PresentFields(b.fields) + b.extra
  }

  /** The names of the task fields that are present. */
  function PresentFields(f: UpdateTaskData): (ks: set<string>)
    ensures ks <= TaskDataKeys
    ensures "title" in ks <==> f.title.Some?
    ensures "description" in ks <==> f.description.Some?
    ensures "status" in ks <==> f.status.Some?
    ensures "priority" in ks <==> f.priority.Some?
    ensures "dueDate" in ks <==> f.dueDate.Some?
  {
    (if f.title.Some? then {"title"} else {})
    + (if f.description.Some? then {"description"} else {})
    + (if f.status.Some? then {"status"} else {})
    + (if f.priority.Some? then {"priority"} else {})
    + (if f.dueDate.Some? then {"dueDate"} else {})
  }

  /** A notification as the bell reads it (its type file, notification.types.ts, is not part of
      this model; the fields are those the component uses). */
  datatype Notification = Notification(
    id: string,
    userId: string,
    kind: string,
    title: string,
    message: string,
    taskId: Option<string>,
    points: Option<int>,
    read: bool,
    createdAt: Time)

  /** The signed-in user (auth.types.ts). */
  datatype User = User(id: string, name: string, email: string, createdAt: Time, updatedAt: Time)
}
