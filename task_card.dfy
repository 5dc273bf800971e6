/** One task's card (frontend/src/components/Task/TaskCard.tsx): the display rules (done toggle,
    overdue flag, priority and status styles, the "Show more" toggle) and the card's own flags for
    the two-step delete. The service calls the card makes are appended to `sent`. */
module TaskCard {
  import opened Wrappers
  import opened TaskTypes
  import Service
  import TaskStore
  import Dashboard

  // ---------------------------------------------------------------------------------------------
  // Display rules

  /** The status the round check button asks for (TaskCard.tsx:154-156): a done task goes back to
      to-do, any other task becomes done. */
  function ToggleTarget(status: string): (r: string)
    ensures r == Done <==> status != Done
    ensures r == Todo <==> status == Done
  {
    if status == Done then Todo else Done
  }

  /** Between to-do and done the button flips back and forth; from in progress it first goes to
      done. */
  lemma ToggleTargetFlips(status: string)
    ensures status in {Todo, Done} ==> ToggleTarget(ToggleTarget(status)) == status
    ensures status !in {Todo, Done} ==> ToggleTarget(ToggleTarget(status)) == Todo
  {
  }

  /** `isOverdue` (TaskCard.tsx:139): a due date is set, it lies before `now`, and the task is not
      done. */
  predicate IsOverdue(t: Task, now: Time): (r: bool)
    ensures t.status == Done || t.dueDate.None? ==> !r
    ensures t.dueDate.Some? && now <= t.dueDate.value ==> !r
    ensures t.status != Done && t.dueDate.Some? && t.dueDate.value < now ==> r
  {
    t.dueDate.Some? && t.dueDate.value < now && t.status != Done
  }

  /** Once overdue, a task stays overdue as time goes on, until its status or due date changes. */
  lemma OverdueStaysOverdue(t: Task, now: Time, later: Time)
    requires IsOverdue(t, now) && now <= later
    ensures IsOverdue(t, later)
  {
  }

  /** Ticking an overdue task off ends its overdue state; unticking a past-due done task brings it
      back. */
  lemma ToggleAndOverdue(t: Task, now: Time)
    ensures IsOverdue(t, now) ==> !IsOverdue(t.(status := ToggleTarget(t.status)), now)
    ensures t.status == Done && t.dueDate.Some? && t.dueDate.value < now ==>
              IsOverdue(t.(status := ToggleTarget(t.status)), now)
  {
  }

  datatype PriorityStyle = PriorityStyle(color: string, text: string, caption: string)

  /** `getPriorityConfig` (TaskCard.tsx:77-108). */
  function PriorityConfig(priority: string): (s: PriorityStyle)
    ensures priority == High ==> s.caption == "High Priority"
    ensures priority == Medium ==> s.caption == "Medium Priority"
    ensures priority == Low ==> s.caption == "Low Priority"
    ensures priority !in {High, Medium, Low} ==> s == PriorityStyle("bg-gray-50 border-gray-200", "text-gray-700", "Normal")
  {
    if priority == High then PriorityStyle("bg-red-50 border-red-200", "text-red-700", "High Priority")
    else if priority == Medium then PriorityStyle("bg-yellow-50 border-yellow-200", "text-yellow-700", "Medium Priority")
    else if priority == Low then PriorityStyle("bg-green-50 border-green-200", "text-green-700", "Low Priority")
    else PriorityStyle("bg-gray-50 border-gray-200", "text-gray-700", "Normal")
  }

  /** A card reads "Normal" exactly for the priorities the dashboard's priority sort ranks 0,
      the ones it puts last. */
  lemma NormalIffUnranked(priority: string)
    ensures PriorityConfig(priority).caption == "Normal" <==> Dashboard.PriorityRank(priority) == 0
  {
  }

  datatype StatusStyle = StatusStyle(color: string, icon: string)

  /** `getStatusConfig` (TaskCard.tsx:110-133). */
  function StatusConfig(status: string): (s: StatusStyle)
    ensures status != InProgress && status != Done ==> s == StatusStyle("bg-gray-100 text-gray-800", "○")
    ensures status == InProgress ==> s == StatusStyle("bg-blue-100 text-blue-800", "⟳")
    ensures status == Done ==> s == StatusStyle("bg-green-100 text-green-800", "✓")
  {
    if status == InProgress then StatusStyle("bg-blue-100 text-blue-800", "⟳")
    else if status == Done then StatusStyle("bg-green-100 text-green-800", "✓")
    else StatusStyle("bg-gray-100 text-gray-800", "○")
  }

  /** An unknown status looks like to-do, and the three known statuses look different. */
  lemma StatusStyles(status: string)
    ensures status !in {Todo, InProgress, Done} ==> StatusConfig(status) == StatusConfig(Todo)
    ensures StatusConfig(Todo) != StatusConfig(InProgress) && StatusConfig(InProgress) != StatusConfig(Done)
    ensures StatusConfig(Todo) != StatusConfig(Done)
  {
  }

  /** The "Show more" button (TaskCard.tsx:233-239): shown for a description longer than 100
      characters. */
  predicate ShowsMoreToggle(t: Task) {
    t.description.Some? && t.description.value != "" && |t.description.value| > 100
  }

  lemma ShowsMoreToggleIffLong(t: Task)
    ensures ShowsMoreToggle(t) <==> t.description.Some? && |t.description.value| > 100
  {
  }

  /** The body of a status change: `{ status: newStatus }` and nothing else. */
  function StatusBody(status: string): (b: RequestBody)
    ensures Keys(b) == {"status"}
  {
    RequestBody(NoChanges.(status := Some(status)), {})
  }

  /** Unlike the form's edits, a status change passes the update handler's allow-list and changes
      the status and nothing else. */
  lemma StatusChangeAccepted(t: Task, status: string)
    ensures TaskStore.IsValidOperation(StatusBody(status))
    ensures TaskStore.Apply(t, StatusBody(status).fields) == t.(status := status)
  {
    TaskStore.ApplyStatusOnly(t, status);
  }

  // ---------------------------------------------------------------------------------------------
  // The card's state

  /** A call the card makes through the task service. `restoreTask` is not a member of the task
      service, so in the running application that call always fails. */
  datatype CardCall = StatusUpdate(id: TaskId, body: RequestBody) | Restore(id: TaskId) | Delete(id: TaskId)

  class TaskCardView {
    const task: Task
    var isDeleting: bool
    var isDeleted: bool
    var showMenu: bool
    var isExpanded: bool
    var sent: seq<CardCall>
    /** The pending five-minute timers, oldest first, each with the value of `isDeleting` its
        callback closed over when it was scheduled. */
    var timers: seq<bool>

    /** The initial flags (TaskCard.tsx:27-30). */
    constructor (task: Task)
      ensures this.task == task && !isDeleting && !isDeleted && !showMenu && !isExpanded && sent == []
      ensures timers == [] && TimersInert()
    {
      timers := [];
      this.task := task;
      isDeleting := false;
      isDeleted := false;
      showMenu := false;
      isExpanded := false;
      sent := [];
    }

    /** Every pending timer saw `isDeleting` false, so none of them will confirm the deletion. */
    predicate TimersInert()
      reads this
    {
      forall i :: 0 <= i < |timers| ==> !timers[i]
    }

    /** `disabled={isDeleting || isDeleted}` on the status select (TaskCard.tsx:283). */
    predicate StatusSelectDisabled(): (r: bool)
      reads this
      ensures isDeleting ==> r
      ensures isDeleted ==> r
      ensures !isDeleting && !isDeleted ==> !r
    {
      isDeleting || isDeleted
    }

    /** `handleStatusChange` (TaskCard.tsx:32-39): asks for the new status only; `notified` says
        the parent was told to refresh. No flag changes. */
    method HandleStatusChange(newStatus: string, call: Service.Outcome<()>) returns (notified: bool)
      modifies this
      ensures sent == old(sent) + [StatusUpdate(task.id, StatusBody(newStatus))]
      ensures notified <==> call.Resolved?
      ensures isDeleting == old(isDeleting) && isDeleted == old(isDeleted)
      ensures showMenu == old(showMenu) && isExpanded == old(isExpanded) && timers == old(timers)
    {
      sent := sent + [StatusUpdate(task.id, StatusBody(newStatus))];
      notified := call.Resolved?;
    }

    /** `handleDelete` (TaskCard.tsx:41-64). The first click marks the card as deleting and starts
        a timer whose callback captured `isDeleting` as it was then, false; the cleanup function it
        returns is dropped by the click handler, so the timer is never cleared. A click while
        deleting is "Undo": it attempts a restore (recorded as a `Restore` call), clears the deleted
        mark if that resolves, and in every case ends the deleting state and closes the menu. */
    method HandleDelete(restore: Service.Outcome<()>) returns (notified: bool)
      modifies this
      ensures !old(isDeleting) ==>
                && isDeleting && !notified && sent == old(sent)
                && isDeleted == old(isDeleted) && showMenu == old(showMenu)
      ensures old(isDeleting) ==>
                && !isDeleting && !showMenu && sent == old(sent) + [Restore(task.id)]
                && (notified <==> restore.Resolved?)
                && isDeleted == (if restore.Resolved? then false else old(isDeleted))
      ensures isExpanded == old(isExpanded)
      ensures !old(isDeleting) ==> StatusSelectDisabled() && timers == old(timers) + [false]
      ensures old(isDeleting) ==> timers == old(timers)
      ensures old(TimersInert()) ==> TimersInert()
    {
      if isDeleting {
        sent := sent + [Restore(task.id)];
        if restore.Resolved? {
          isDeleted := false;
          notified := true;
        } else {
          notified := false;
        }
        isDeleting := false;
        showMenu := false;
        return;
      }
      timers := timers + [isDeleting];
      isDeleting := true;
      notified := false;
    }

    /** The oldest pending timer fires (TaskCard.tsx:57-61): it confirms the deletion only if the
        flag it captured was true. Every timer captures false, so in any state the card can reach
        the timer does nothing but expire. */
    method DeleteTimerFires(remove: Service.Outcome<()>) returns (notified: bool)
      requires |timers| > 0
      modifies this
      ensures timers == old(timers[1..])
      ensures !old(timers[0]) ==>
                && !notified && sent == old(sent) && isDeleting == old(isDeleting)
                && isDeleted == old(isDeleted) && showMenu == old(showMenu)
      ensures old(timers[0]) ==>
                && sent == old(sent) + [Delete(task.id)] && !isDeleting && (notified <==> remove.Resolved?)
                && isDeleted == (if remove.Resolved? then true else old(isDeleted)) && showMenu == old(showMenu)
      ensures isExpanded == old(isExpanded)
      ensures old(TimersInert()) ==> TimersInert()
    {
      var captured := timers[0];
      timers := timers[1..];
      if captured {
        notified := HandleConfirmDelete(remove);
      } else {
        notified := false;
      }
    }

    /** `handleConfirmDelete` (TaskCard.tsx:66-75): deletes, marks the card deleted if that works,
        and ends the scheduled state either way. */
    method HandleConfirmDelete(remove: Service.Outcome<()>) returns (notified: bool)
      modifies this
      ensures sent == old(sent) + [Delete(task.id)]
      ensures !isDeleting && (notified <==> remove.Resolved?)
      ensures isDeleted == (if remove.Resolved? then true else old(isDeleted))
      ensures showMenu == old(showMenu) && isExpanded == old(isExpanded)
      ensures remove.Resolved? ==> StatusSelectDisabled()
      ensures timers == old(timers)
    {
      sent := sent + [Delete(task.id)];
      if remove.Resolved? {
        isDeleted := true;
        notified := true;
      } else {
        notified := false;
      }
      isDeleting := false;
    }

    /** The banner's "Cancel" (TaskCard.tsx:339): ends the scheduled state and sends nothing. */
    method Cancel()
      modifies this
      ensures !isDeleting && isDeleted == old(isDeleted) && showMenu == old(showMenu)
      ensures isExpanded == old(isExpanded) && sent == old(sent)
      ensures timers == old(timers)
    {
      isDeleting := false;
    }

    /** The menu button flips the menu. */
    method ToggleMenu()
      modifies this
      ensures showMenu == !old(showMenu)
      ensures isDeleting == old(isDeleting) && isDeleted == old(isDeleted)
      ensures isExpanded == old(isExpanded) && sent == old(sent)
      ensures timers == old(timers)
    {
      showMenu := !showMenu;
    }

    /** "Show more" / "Show less" flips the expanded state. */
    method ToggleExpanded()
      modifies this
      ensures isExpanded == !old(isExpanded)
      ensures isDeleting == old(isDeleting) && isDeleted == old(isDeleted)
      ensures showMenu == old(showMenu) && sent == old(sent)
      ensures timers == old(timers)
    {
      isExpanded := !isExpanded;
    }
  }
}
