/** The server's task handlers (backend/controllers/task.controller.js) over one collection of task
    records. Every handler receives the requester's id as resolved by the authentication middleware
    and scopes its query to it. Each database call the handler awaits (`create`, `find`,
    `findOne`, `save`) is a `DbOutcome` parameter: when it fails the handler answers 500. */
module TaskStore {
  import opened Wrappers
  import opened TaskTypes
  import Seqs

  /** The keys `updateTask` accepts (task.controller.js:73). */
  const AllowedUpdates: set<string> := {"title", "description", "status", "priority", "dueDate"}

  /** Values the task schema supplies when `create` leaves a field undefined. models/task.js is not
      part of this model; these defaults are assumed for it. */
  const SchemaDefaultStatus := Todo
  const SchemaDefaultPriority := Medium

  datatype DbOutcome = DbOk | DbError(message: string)

  /** The JSON answers of the handlers. */
  datatype Reply =
    | Created(task: Task)
    | Listed(count: nat, tasks: seq<Task>)
    | Found(task: Task)
    | Updated(task: Task)
    | Deleted
    | TitleRequired
    | NotFound
    | InvalidUpdates
    | ServerError(message: string, error: string)
  {
    function StatusCode(): int {
      match this
      case Created(_) => 201
      case Listed(_, _) | Found(_) | Updated(_) | Deleted => 200
      case TitleRequired | InvalidUpdates => 400
      case NotFound => 404
      case ServerError(_, _) => 500
    }

    /** The `success` field; the missing-title answer has none. */
    function Success(): Option<bool> {
      match this
      case TitleRequired => None
      case Created(_) | Listed(_, _) | Found(_) | Updated(_) | Deleted => Some(true)
      case _ => Some(false)
    }

    /** The `message` field, where there is one. */
    function Message(): Option<string> {
      match this
      case Created(_) => Some("Task created successfully")
      case Updated(_) => Some("Task updated successfully")
      case Deleted => Some("Task deleted successfully")
      case TitleRequired => Some("Title is required")
      case NotFound => Some("Task not found")
      case InvalidUpdates => Some("Invalid updates")
      case ServerError(m, _) => Some(m)
      case Listed(_, _) | Found(_) => None
    }
  }

  /** A JavaScript value is truthy as a title when it is present and not the empty string. */
  predicate TitleGiven(title: Option<string>) {
    title.Some? && title.value != ""
  }

  /** `updates.every(update => allowedUpdates.includes(update))`. */
  predicate IsValidOperation(b: RequestBody) {
    forall k | k in Keys(b) :: k in AllowedUpdates
  }

  /** The allow-list is exactly the five task fields, so an update is refused precisely when the
      body names some other key. */
  lemma ValidOperationIffNoExtraKeys(b: RequestBody)
    ensures IsValidOperation(b) <==> b.extra == {}
  {
    assert AllowedUpdates == TaskDataKeys;
    if b.extra != {} {
      var k :| k in b.extra;
      assert k in Keys(b) && k !in AllowedUpdates;
    }
  }

  /** The `findOne({ _id, user, isDeleted: false })` query. */
  predicate Matches(t: Task, requester: UserId, id: TaskId) {
    t.id == id && t.user == requester && !t.isDeleted
  }

  /** The position of the record `findOne` returns, if any. */
  function Lookup(tasks: seq<Task>, requester: UserId, id: TaskId): (r: Option<nat>)
    ensures r.Some? ==> r.value < |tasks| && Matches(tasks[r.value], requester, id)
    ensures r.Some? ==> forall j :: 0 <= j < r.value ==> !Matches(tasks[j], requester, id)
    ensures r.None? <==> forall j :: 0 <= j < |tasks| ==> !Matches(tasks[j], requester, id)
  {
    Seqs.FindIndex(tasks, t => Matches(t, requester, id))
  }

  /** The `find({ user, isDeleted: false })` query. */
  predicate Visible(t: Task, requester: UserId) {
    t.user == requester && !t.isDeleted
  }

  /** `sort({ createdAt: -1 })`: newer records first. */
  predicate NewestFirst(a: Task, b: Task) {
    a.createdAt >= b.createdAt
  }

  lemma NewestFirstIsTotalPreorder()
    ensures Seqs.TotalPreorder(NewestFirst)
  {
  }

  /** What `getMyTasks` lists for `requester`. */
  function MyTasks(tasks: seq<Task>, requester: UserId): (r: seq<Task>)
    ensures multiset(r) == multiset(Seqs.Filter(tasks, t => Visible(t, requester)))
    ensures Seqs.SortedBy(r, NewestFirst)
  {
    NewestFirstIsTotalPreorder();
    Seqs.SortBySorted(Seqs.Filter(tasks, t => Visible(t, requester)), NewestFirst);
    Seqs.SortBy(Seqs.Filter(tasks, t => Visible(t, requester)), NewestFirst)
  }

  /** `getMyTasks` lists exactly the requester's records that are not deleted, each as often as it
      is stored, newest first. */
  lemma MyTasksSpec(tasks: seq<Task>, requester: UserId)
    ensures forall t :: t in MyTasks(tasks, requester) <==> t in tasks && Visible(t, requester)
    ensures multiset(MyTasks(tasks, requester)) == multiset(Seqs.Filter(tasks, t => Visible(t, requester)))
    ensures Seqs.SortedBy(MyTasks(tasks, requester), NewestFirst)
  {
    var kept := Seqs.Filter(tasks, t => Visible(t, requester));
    forall t ensures t in MyTasks(tasks, requester) <==> t in kept {
      assert t in MyTasks(tasks, requester) <==> t in multiset(MyTasks(tasks, requester));
      assert t in kept <==> t in multiset(kept);
    }
  }

  /** The record `Task.create` stores: the four fields taken from the body, the owner taken from the
      requester, and the schema's values for everything else. */
  function NewTask(id: TaskId, requester: UserId, f: UpdateTaskData, now: Time): (t: Task)
    requires TitleGiven(f.title)
    ensures t.id == id && t.user == requester && !t.isDeleted
    ensures t.title == f.title.value && t.description == f.description && t.dueDate == f.dueDate
    ensures t.priority == f.priority.GetOr(SchemaDefaultPriority) && t.status == SchemaDefaultStatus
    ensures t.createdAt == now && t.updatedAt == now
  {
    Task(id, f.title.value, f.description, SchemaDefaultStatus, f.priority.GetOr(SchemaDefaultPriority),
         f.dueDate, None, None, None, None, requester, false, now, now)
  }

  /** Creating ignores the body's `status` and every key outside title, description, priority and
      due date. */
  lemma NewTaskIgnoresOtherKeys(id: TaskId, requester: UserId, a: RequestBody, b: RequestBody, now: Time)
    requires TitleGiven(a.fields.title)
    requires a.fields.title == b.fields.title && a.fields.description == b.fields.description
    requires a.fields.priority == b.fields.priority && a.fields.dueDate == b.fields.dueDate
    ensures NewTask(id, requester, a.fields, now) == NewTask(id, requester, b.fields, now)
  {
  }

  /** `updates.forEach(update => task[update] = req.body[update])`: every supplied field is
      assigned, every other field keeps its value. */
  function Apply(t: Task, f: UpdateTaskData): (r: Task)
    ensures r.title == f.title.GetOr(t.title) && r.description == (if f.description.Some? then f.description else t.description)
    ensures r.status == f.status.GetOr(t.status) && r.priority == f.priority.GetOr(t.priority)
    ensures r.dueDate == (if f.dueDate.Some? then f.dueDate else t.dueDate)
    ensures r.id == t.id && r.user == t.user && r.isDeleted == t.isDeleted
    ensures r.createdAt == t.createdAt && r.updatedAt == t.updatedAt
    ensures r.tags == t.tags && r.subtasks == t.subtasks && r.attachments == t.attachments
    ensures r.assignedTo == t.assignedTo
  {
    t.(title := f.title.GetOr(t.title),
       description := if f.description.Some? then f.description else t.description,
       status := f.status.GetOr(t.status),
       priority := f.priority.GetOr(t.priority),
       dueDate := if f.dueDate.Some? then f.dueDate else t.dueDate)
  }

  /** An empty body changes nothing; a status-only body changes only the status. */
  lemma ApplyNoChanges(t: Task)
    ensures Apply(t, NoChanges) == t
  {
  }

  lemma ApplyStatusOnly(t: Task, s: string)
    ensures Apply(t, NoChanges.(status := Some(s))) == t.(status := s)
  {
  }

  /** `task.isDeleted = true` on the record at position `i`. */
  function SoftDeleted(tasks: seq<Task>, i: nat): (r: seq<Task>)
    requires i < |tasks|
    ensures |r| == |tasks| && r[i] == tasks[i].(isDeleted := true)
    ensures forall j :: 0 <= j < |tasks| && j != i ==> r[j] == tasks[j]
  {
    tasks[i := tasks[i].(isDeleted := true)]
  }

  /** Record `i` has id `i`: ids are handed out in order and never reused. */
  ghost predicate IdsArePositions(tasks: seq<Task>) {
    forall i :: 0 <= i < |tasks| ==> tasks[i].id == i
  }

  /** With distinct ids the query finds the record with that id, if it is the requester's and
      not deleted. */
  lemma LookupById(tasks: seq<Task>, requester: UserId, id: TaskId)
    requires IdsArePositions(tasks)
    ensures Lookup(tasks, requester, id) == if id < |tasks| && Matches(tasks[id], requester, id) then Some(id) else None
  {
    if id < |tasks| && Matches(tasks[id], requester, id) {
      assert Lookup(tasks, requester, id).Some?;
    }
  }

  /** A created task can be fetched straight away by its creator, and by nobody else. */
  lemma CreatedTaskIsFound(tasks: seq<Task>, requester: UserId, other: UserId, f: UpdateTaskData, now: Time)
    requires IdsArePositions(tasks) && TitleGiven(f.title)
    ensures IdsArePositions(tasks + [NewTask(|tasks|, requester, f, now)])
    ensures Lookup(tasks + [NewTask(|tasks|, requester, f, now)], requester, |tasks|) == Some(|tasks|)
    ensures other != requester ==> Lookup(tasks + [NewTask(|tasks|, requester, f, now)], other, |tasks|) == None
  {
    var after := tasks + [NewTask(|tasks|, requester, f, now)];
    LookupById(after, requester, |tasks|);
    LookupById(after, other, |tasks|);
  }

  /** After a soft delete the record is found neither by id nor in the owner's list, so a second
      delete of it answers 404. */
  lemma SoftDeletedIsGone(tasks: seq<Task>, requester: UserId, id: TaskId)
    requires IdsArePositions(tasks) && Lookup(tasks, requester, id).Some?
    ensures IdsArePositions(SoftDeleted(tasks, Lookup(tasks, requester, id).value))
    ensures Lookup(SoftDeleted(tasks, Lookup(tasks, requester, id).value), requester, id) == None
    ensures forall t :: t in MyTasks(SoftDeleted(tasks, Lookup(tasks, requester, id).value), requester) ==> t.id != id
  {
    var i := Lookup(tasks, requester, id).value;
    var after := SoftDeleted(tasks, i);
    LookupById(tasks, requester, id);
    LookupById(after, requester, id);
    MyTasksSpec(after, requester);
    forall t | t in MyTasks(after, requester) ensures t.id != id {
      var j :| 0 <= j < |after| && after[j] == t;
    }
  }

  /** What one user does to their own record changes nothing another user lists. */
  lemma OthersListUnchanged(tasks: seq<Task>, i: nat, x: Task, other: UserId)
    requires i < |tasks| && tasks[i].user == x.user && x.user != other
    ensures MyTasks(tasks[i := x], other) == MyTasks(tasks, other)
  {
    FilterUpdateHidden(tasks, i, x, other);
  }

  lemma {:induction false} FilterUpdateHidden(tasks: seq<Task>, i: nat, x: Task, other: UserId)
    requires i < |tasks| && !Visible(tasks[i], other) && !Visible(x, other)
    ensures Seqs.Filter(tasks[i := x], t => Visible(t, other)) == Seqs.Filter(tasks, t => Visible(t, other))
    decreases |tasks|
  {
    if i > 0 {
      FilterUpdateHidden(tasks[1..], i - 1, x, other);
      assert tasks[i := x][1..] == tasks[1..][i - 1 := x];
    } else {
      assert tasks[i := x][1..] == tasks[1..];
    }
  }

  /** No record of another user was written: each keeps its position and its value. */
  ghost predicate OthersUntouched(before: seq<Task>, after: seq<Task>, requester: UserId) {
    |before| <= |after| && forall j :: 0 <= j < |before| && before[j].user != requester ==> after[j] == before[j]
  }

  /** The task collection the handlers read and write. */
  class TaskCollection {
    var tasks: seq<Task>

    ghost predicate Valid()
      reads this
    {
      IdsArePositions(tasks)
    }

    constructor ()
      ensures Valid() && tasks == []
    {
      tasks := [];
    }

    /** POST /tasks/add (task.controller.js:4-32). */
    method AddTask(requester: UserId, body: RequestBody, now: Time, create: DbOutcome) returns (reply: Reply)
      requires Valid()
      modifies this
      ensures Valid()
      ensures !TitleGiven(body.fields.title) ==> reply == TitleRequired && tasks == old(tasks)
      ensures TitleGiven(body.fields.title) && create.DbError? ==>
                reply == ServerError("Failed to create task", create.message) && tasks == old(tasks)
      ensures TitleGiven(body.fields.title) && create.DbOk? ==>
                && tasks == old(tasks) + [NewTask(|old(tasks)|, requester, body.fields, now)]
                && reply == Created(NewTask(|old(tasks)|, requester, body.fields, now))
      ensures OthersUntouched(old(tasks), tasks, requester)
    {
      if !TitleGiven(body.fields.title) {
        return TitleRequired;
      }
      if create.DbError? {
        return ServerError("Failed to create task", create.message);
      }
      var task := NewTask(|tasks|, requester, body.fields, now);
      tasks := tasks + [task];
      reply := Created(task);
    }

    /** GET /tasks/all (task.controller.js:35-54). */
    method GetMyTasks(requester: UserId, find: DbOutcome) returns (reply: Reply)
      ensures find.DbError? ==> reply == ServerError("Failed to fetch tasks", find.message)
      ensures find.DbOk? ==> reply.Listed? && reply.count == |reply.tasks|
      ensures find.DbOk? ==> forall t :: t in reply.tasks <==> t in tasks && Visible(t, requester)
      ensures find.DbOk? ==> multiset(reply.tasks) == multiset(Seqs.Filter(tasks, t => Visible(t, requester)))
      ensures find.DbOk? ==> Seqs.SortedBy(reply.tasks, NewestFirst)
    {
      if find.DbError? {
        return ServerError("Failed to fetch tasks", find.message);
      }
      var mine := MyTasks(tasks, requester);
      MyTasksSpec(tasks, requester);
      reply := Listed(|mine|, mine);
    }

    /** GET /tasks/:id (task.controller.js:137-163). */
    method GetTask(requester: UserId, id: TaskId, find: DbOutcome) returns (reply: Reply)
      ensures find.DbError? ==> reply == ServerError("Failed to fetch task", find.message)
      ensures find.DbOk? && Lookup(tasks, requester, id).None? ==> reply == NotFound
      ensures find.DbOk? && Lookup(tasks, requester, id).Some? ==>
                reply == Found(tasks[Lookup(tasks, requester, id).value])
      ensures reply.Found? ==> Matches(reply.task, requester, id)
    {
      if find.DbError? {
        return ServerError("Failed to fetch task", find.message);
      }
      match Lookup(tasks, requester, id)
      case None => reply := NotFound;
      case Some(i) => reply := Found(tasks[i]);
    }

    /** PUT /tasks/update/:id (task.controller.js:57-102): look up first (404), then check the keys
        (400), then assign them all and save. */
    method UpdateTask(requester: UserId, id: TaskId, body: RequestBody, find: DbOutcome, save: DbOutcome)
      returns (reply: Reply)
      requires Valid()
      modifies this
      ensures Valid()
      ensures find.DbError? ==> reply == ServerError("Failed to update task", find.message) && tasks == old(tasks)
      ensures find.DbOk? && Lookup(old(tasks), requester, id).None? ==> reply == NotFound && tasks == old(tasks)
      ensures find.DbOk? && Lookup(old(tasks), requester, id).Some? && !IsValidOperation(body) ==>
                reply == InvalidUpdates && tasks == old(tasks)
      ensures find.DbOk? && Lookup(old(tasks), requester, id).Some? && IsValidOperation(body) && save.DbError? ==>
                reply == ServerError("Failed to update task", save.message) && tasks == old(tasks)
      ensures find.DbOk? && Lookup(old(tasks), requester, id).Some? && IsValidOperation(body) && save.DbOk? ==>
                var i := Lookup(old(tasks), requester, id).value;
                && tasks == old(tasks)[i := Apply(old(tasks)[i], body.fields)]
                && reply == Updated(tasks[i])
      ensures OthersUntouched(old(tasks), tasks, requester)
    {
      if find.DbError? {
        return ServerError("Failed to update task", find.message);
      }
      var found := Lookup(tasks, requester, id);
      if found.None? {
        return NotFound;
      }
      var i := found.value;
      if !IsValidOperation(body) {
        return InvalidUpdates;
      }
      if save.DbError? {
        return ServerError("Failed to update task", save.message);
      }
      tasks := tasks[i := Apply(tasks[i], body.fields)];
      reply := Updated(tasks[i]);
    }

    /** DELETE /tasks/delete/:id (task.controller.js:105-134): a soft delete. */
    method DeleteTask(requester: UserId, id: TaskId, find: DbOutcome, save: DbOutcome) returns (reply: Reply)
      requires Valid()
      modifies this
      ensures Valid()
      ensures find.DbError? ==> reply == ServerError("Failed to delete task", find.message) && tasks == old(tasks)
      ensures find.DbOk? && Lookup(old(tasks), requester, id).None? ==> reply == NotFound && tasks == old(tasks)
      ensures find.DbOk? && Lookup(old(tasks), requester, id).Some? && save.DbError? ==>
                reply == ServerError("Failed to delete task", save.message) && tasks == old(tasks)
      ensures find.DbOk? && Lookup(old(tasks), requester, id).Some? && save.DbOk? ==>
                tasks == SoftDeleted(old(tasks), Lookup(old(tasks), requester, id).value) && reply == Deleted
      ensures OthersUntouched(old(tasks), tasks, requester)
    {
      if find.DbError? {
        return ServerError("Failed to delete task", find.message);
      }
      var found := Lookup(tasks, requester, id);
      if found.None? {
        return NotFound;
      }
      if save.DbError? {
        return ServerError("Failed to delete task", save.message);
      }
      tasks := SoftDeleted(tasks, found.value);
      reply := Deleted;
    }
  }
}
