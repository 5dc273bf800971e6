/** The client's task service (frontend/src/services/task.service.ts): typed wrappers around the
    HTTP routes. The only one with logic of its own is `getTasksByStatus`, which fetches the whole
    list and filters it on the client. */
module TaskService {
  import opened Wrappers
  import opened TaskTypes
  import Seqs
  import Service
  import TaskStore

  /** `TasksResponse` (task.types.ts): the body of a listing answer. */
  datatype TasksResponse = TasksResponse(success: bool, count: nat, tasks: seq<Task>)

  /** The body the server sends with a 200 listing answer. */
  function ListingBody(reply: TaskStore.Reply): (r: TasksResponse)
    requires reply.Listed?
    ensures r.success && r.count == reply.count && r.tasks == reply.tasks
  {
    TasksResponse(true, reply.count, reply.tasks)
  }

  /** The filtering step: the same answer with only the tasks of that status, and a count that
      matches the list again. */
  function ByStatus(response: TasksResponse, status: string): (r: TasksResponse)
    ensures r.success == response.success
    ensures r.count == |r.tasks| <= |response.tasks|
    ensures forall t :: t in r.tasks <==> t in response.tasks && t.status == status
  {
    var kept := Seqs.Filter(response.tasks, HasStatus(status));
    response.(tasks := kept, count := |kept|)
  }

  /** `getTasksByStatus`: a rejected request stays rejected; a resolved one is filtered. */
  function GetTasksByStatus(all: Service.Outcome<TasksResponse>, status: string): (r: Service.Outcome<TasksResponse>)
    ensures all.Rejected? ==> r == all
    ensures all.Resolved? ==> r.Resolved? && r.value.success == all.value.success
    ensures all.Resolved? ==> r.value.count == |r.value.tasks|
    ensures all.Resolved? ==> forall t :: t in r.value.tasks <==> t in all.value.tasks && t.status == status
  {
    match all
    case Rejected(_) => all
    case Resolved(response) => Service.Resolved(ByStatus(response, status))
  }

  /** The filtered list keeps the server's order and each matching task as often as it came. */
  lemma ByStatusKeepsOrder(response: TasksResponse, status: string)
    ensures Seqs.IsSubsequence(ByStatus(response, status).tasks, response.tasks)
    ensures forall t ::
      multiset(ByStatus(response, status).tasks)[t] == (if t.status == status then multiset(response.tasks)[t] else 0)
  {
    Seqs.FilterIsSubsequence(response.tasks, HasStatus(status));
    forall t ensures multiset(ByStatus(response, status).tasks)[t]
      == if t.status == status then multiset(response.tasks)[t] else 0
    {
      Seqs.FilterCounts(response.tasks, HasStatus(status), t);
    }
  }

  /** Applied to what the server lists, the filter gives exactly the requester's live tasks of that
      status, still newest first. */
  lemma ByStatusOfListing(tasks: seq<Task>, requester: UserId, status: string)
    ensures var mine := TaskStore.MyTasks(tasks, requester);
      var r := ByStatus(ListingBody(TaskStore.Listed(|mine|, mine)), status);
      && (forall t :: t in r.tasks <==> t in tasks && TaskStore.Visible(t, requester) && t.status == status)
      && Seqs.SortedBy(r.tasks, TaskStore.NewestFirst)
  {
    var mine := TaskStore.MyTasks(tasks, requester);
    TaskStore.MyTasksSpec(tasks, requester);
    Seqs.FilterSorted(mine, HasStatus(status), TaskStore.NewestFirst);
  }
}
