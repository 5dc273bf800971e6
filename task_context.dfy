/** The client-side task cache (frontend/src/contexts/TaskContext.tsx). The provider holds the
    list last fetched from the server, a loading flag and an error text. Every awaited service call
    is an `Outcome` parameter, and every call the provider makes is appended to `sent`, the
    model's record of the HTTP traffic, so that order and payloads can be stated. */
module TaskContext {
  import opened Wrappers
  import opened TaskTypes
  import Seqs
  import Service
  import TaskService
  import TaskStore

  /** A request the provider sends through the task service. */
  datatype Request =
    | ListAll
    | Create(body: RequestBody)
    | Update(id: TaskId, body: RequestBody)
    | Remove(id: TaskId)

  const FetchFailed := "Failed to fetch tasks"
  const CreateFailed := "Failed to create task"
  const UpdateFailed := "Failed to update task"
  const DeleteFailed := "Failed to delete task"

  /** `task => task._id === taskId`. */
  function HasId(id: TaskId): Task -> bool {
    (t: Task) => t.id == id
  }

  class TaskProvider {
    var tasks: seq<Task>
    var loading: bool
    var error: Option<string>
    var sent: seq<Request>

    /** The initial state (TaskContext.tsx:31-33): nothing cached, not loading, no error. */
    constructor ()
      ensures tasks == [] && !loading && error == None && sent == []
    {
      tasks := [];
      loading := false;
      error := None;
      sent := [];
    }

    /** `fetchTasks` (TaskContext.tsx:35-47): on success the cache becomes the server's list and
        the error is cleared; on failure the cache is kept and the error says why. It never
        rejects. */
    method FetchTasks(all: Service.Outcome<TaskService.TasksResponse>)
      modifies this
      ensures sent == old(sent) + [ListAll] && !loading
      ensures all.Resolved? ==> tasks == all.value.tasks && error == None
      ensures all.Rejected? ==> tasks == old(tasks) && error == Some(Service.MessageOr(all, FetchFailed))
    {
      loading := true;
      error := None;
      sent := sent + [ListAll];
      if all.Resolved? {
        tasks := all.value.tasks;
      } else {
        error := Some(Service.MessageOr(all, FetchFailed));
      }
      loading := false;
    }

    /** `addTask` (TaskContext.tsx:49-61): sends the body; only once the server has accepted it is
        the list fetched again. On failure the cache is kept, the error is set and the call
        rejects (`resolved` is false). */
    method AddTask(data: RequestBody, create: Service.Outcome<()>,
                   refetch: Service.Outcome<TaskService.TasksResponse>) returns (resolved: bool)
      modifies this
      ensures resolved <==> create.Resolved?
      ensures !loading
      ensures create.Resolved? ==> sent == old(sent) + [Create(data), ListAll]
      ensures create.Resolved? && refetch.Resolved? ==> tasks == refetch.value.tasks && error == None
      ensures create.Resolved? && refetch.Rejected? ==>
                tasks == old(tasks) && error == Some(Service.MessageOr(refetch, FetchFailed))
      ensures create.Rejected? ==> sent == old(sent) + [Create(data)]
      ensures create.Rejected? ==> tasks == old(tasks) && error == Some(Service.MessageOr(create, CreateFailed))
    {
      loading := true;
      error := None;
      sent := sent + [Create(data)];
      if create.Resolved? {
        FetchTasks(refetch);
        resolved := true;
      } else {
        error := Some(Service.MessageOr(create, CreateFailed));
        resolved := false;
      }
      loading := false;
    }

    /** `updateTask` (TaskContext.tsx:63-75), the same protocol for a change to one task. */
    method UpdateTask(id: TaskId, data: RequestBody, update: Service.Outcome<()>,
                      refetch: Service.Outcome<TaskService.TasksResponse>) returns (resolved: bool)
      modifies this
      ensures resolved <==> update.Resolved?
      ensures !loading
      ensures update.Resolved? ==> sent == old(sent) + [Update(id, data), ListAll]
      ensures update.Resolved? && refetch.Resolved? ==> tasks == refetch.value.tasks && error == None
      ensures update.Resolved? && refetch.Rejected? ==>
                tasks == old(tasks) && error == Some(Service.MessageOr(refetch, FetchFailed))
      ensures update.Rejected? ==> sent == old(sent) + [Update(id, data)]
      ensures update.Rejected? ==> tasks == old(tasks) && error == Some(Service.MessageOr(update, UpdateFailed))
    {
      loading := true;
      error := None;
      sent := sent + [Update(id, data)];
      if update.Resolved? {
        FetchTasks(refetch);
        resolved := true;
      } else {
        error := Some(Service.MessageOr(update, UpdateFailed));
        resolved := false;
      }
      loading := false;
    }

    /** `deleteTask` (TaskContext.tsx:77-89), the same protocol for a removal. */
    method DeleteTask(id: TaskId, remove: Service.Outcome<()>,
                      refetch: Service.Outcome<TaskService.TasksResponse>) returns (resolved: bool)
      modifies this
      ensures resolved <==> remove.Resolved?
      ensures !loading
      ensures remove.Resolved? ==> sent == old(sent) + [Remove(id), ListAll]
      ensures remove.Resolved? && refetch.Resolved? ==> tasks == refetch.value.tasks && error == None
      ensures remove.Resolved? && refetch.Rejected? ==>
                tasks == old(tasks) && error == Some(Service.MessageOr(refetch, FetchFailed))
      ensures remove.Rejected? ==> sent == old(sent) + [Remove(id)]
      ensures remove.Rejected? ==> tasks == old(tasks) && error == Some(Service.MessageOr(remove, DeleteFailed))
    {
      loading := true;
      error := None;
      sent := sent + [Remove(id)];
      if remove.Resolved? {
        FetchTasks(refetch);
        resolved := true;
      } else {
        error := Some(Service.MessageOr(remove, DeleteFailed));
        resolved := false;
      }
      loading := false;
    }

    /** `getTask` (TaskContext.tsx:91-93): the first cached task with that id, if any. */
    function GetTask(id: TaskId): (r: Option<Task>)
      reads this
      ensures r.Some? ==> r.value in tasks && r.value.id == id
      ensures r.Some? ==> exists i :: 0 <= i < |tasks| && tasks[i] == r.value && forall j :: 0 <= j < i ==> tasks[j].id != id
      ensures r.None? <==> forall t :: t in tasks ==> t.id != id
    {
      Seqs.Find(tasks, HasId(id))
    }
  }

  /** The provider as it stands after mounting (TaskContext.tsx:95-97): constructed, then one
      fetch. */
  method Mount(all: Service.Outcome<TaskService.TasksResponse>) returns (p: TaskProvider)
    ensures fresh(p) && p.sent == [ListAll] && !p.loading
    ensures all.Resolved? ==> p.tasks == all.value.tasks && p.error == None
    ensures all.Rejected? ==> p.tasks == [] && p.error == Some(Service.MessageOr(all, FetchFailed))
  {
    p := new TaskProvider();
    p.FetchTasks(all);
  }

  /** When the cache holds what the server lists for the requester, looking a task up in the cache
      agrees with asking the server for it (`GET /tasks/:id`): the same record, or nothing. */
  lemma GetTaskAgreesWithServer(p: TaskProvider, store: seq<Task>, requester: UserId, id: TaskId)
    requires TaskStore.IdsArePositions(store)
    requires p.tasks == TaskStore.MyTasks(store, requester)
    ensures match TaskStore.Lookup(store, requester, id)
      case Some(i) => p.GetTask(id) == Some(store[i])
      case None => p.GetTask(id) == None
  {
    TaskStore.MyTasksSpec(store, requester);
    TaskStore.LookupById(store, requester, id);
    match p.GetTask(id)
    case Some(t) =>
      var j :| 0 <= j < |store| && store[j] == t;
      assert store[id] == t;
    case None =>
  }
}
