/** The notification bell (frontend/src/components/Task/Iconbell.tsx): the user's notification
    list, the unread counter shown on the badge, and the handlers that mark, clear and delete
    notifications. The counter is kept beside the list rather than computed from it; `UnreadIn`
    is the count the list itself gives, and the lemmas say which handlers keep the two in step. */
module Iconbell {
  import opened Wrappers
  import opened TaskTypes
  import Seqs
  import Text
  import Service

  // ---------------------------------------------------------------------------------------------
  // The list operations

  /** `notif._id === notificationId ? { ...notif, read: true } : notif`. */
  function Mark(n: Notification, id: string): Notification {
    if n.id == id then n.(read := true) else n
  }

  /** `markAsRead`'s update of the list (Iconbell.tsx:54-58): the notification with that id is
      read, every other one is as it was. */
  function MarkedRead(ns: seq<Notification>, id: string): (r: seq<Notification>)
    ensures |r| == |ns|
    ensures forall i :: 0 <= i < |ns| && ns[i].id == id ==> r[i] == ns[i].(read := true)
    ensures forall i :: 0 <= i < |ns| && ns[i].id != id ==> r[i] == ns[i]
    decreases |ns|
  {
    if ns == [] then [] else [Mark(ns[0], id)] + MarkedRead(ns[1..], id)
  }

  /** `markAllAsRead`'s update of the list (Iconbell.tsx:68-70). */
  function AllRead(ns: seq<Notification>): (r: seq<Notification>)
    ensures |r| == |ns|
    ensures forall i :: 0 <= i < |ns| ==> r[i] == ns[i].(read := true)
  {
    seq(|ns|, i requires 0 <= i < |ns| => ns[i].(read := true))
  }

  function NotId(id: string): Notification -> bool {
    (n: Notification) => n.id != id
  }

  function HasId(id: string): Notification -> bool {
    (n: Notification) => n.id == id
  }

  /** `deleteNotification`'s update of the list (Iconbell.tsx:80): every notification with that
      id goes, every other one stays, in order. */
  function Removed(ns: seq<Notification>, id: string): (r: seq<Notification>)
    ensures forall n :: n in r <==> n in ns && n.id != id
    ensures |r| <= |ns|
  {
    Seqs.Filter(ns, NotId(id))
  }

  /** `deletedNotif && !deletedNotif.read` (Iconbell.tsx:82-83): the first notification with that
      id exists and is unread. */
  predicate WasUnread(ns: seq<Notification>, id: string) {
    match Seqs.Find(ns, HasId(id))
    case Some(n) => !n.read
    case None => false
  }

  /** The number of unread notifications in a list. */
  function UnreadIn(ns: seq<Notification>): nat
    decreases |ns|
  {
    if ns == [] then 0 else (if ns[0].read then 0 else 1) + UnreadIn(ns[1..])
  }

  ghost predicate DistinctIds(ns: seq<Notification>) {
    forall i, j :: 0 <= i < |ns| && 0 <= j < |ns| && ns[i].id == ns[j].id ==> i == j
  }

  lemma {:induction false} NoneUnread(ns: seq<Notification>)
    requires forall i :: 0 <= i < |ns| ==> ns[i].read
    ensures UnreadIn(ns) == 0
    decreases |ns|
  {
    if ns != [] {
      NoneUnread(ns[1..]);
    }
  }

  /** After marking everything read the list has no unread notification, matching the counter's 0. */
  lemma AllReadHasNoUnread(ns: seq<Notification>)
    ensures UnreadIn(AllRead(ns)) == 0
  {
    NoneUnread(AllRead(ns));
  }

  lemma {:induction false} MarkAbsent(ns: seq<Notification>, id: string)
    requires forall i :: 0 <= i < |ns| ==> ns[i].id != id
    ensures MarkedRead(ns, id) == ns
    decreases |ns|
  {
    if ns != [] {
      MarkAbsent(ns[1..], id);
    }
  }

  /** With distinct ids, marking one notification read lowers the list's unread count by one
      exactly when that notification was unread. */
  lemma {:induction false} UnreadAfterMark(ns: seq<Notification>, id: string)
    requires DistinctIds(ns)
    ensures UnreadIn(MarkedRead(ns, id)) == UnreadIn(ns) - (if WasUnread(ns, id) then 1 else 0)
    decreases |ns|
  {
    if ns != [] {
      var rest := ns[1..];
      assert DistinctIds(rest) by {
        forall i, j | 0 <= i < |rest| && 0 <= j < |rest| && rest[i].id == rest[j].id ensures i == j {
          assert ns[i + 1].id == ns[j + 1].id;
        }
      }
      if ns[0].id == id {
        forall i | 0 <= i < |rest| ensures rest[i].id != id {
          assert ns[i + 1].id == rest[i].id;
        }
        MarkAbsent(rest, id);
      } else {
        UnreadAfterMark(rest, id);
      }
    }
  }

  /** With distinct ids, deleting a notification lowers the list's unread count by one exactly when
      the deleted notification was unread. */
  lemma {:induction false} UnreadAfterRemove(ns: seq<Notification>, id: string)
    requires DistinctIds(ns)
    ensures UnreadIn(Removed(ns, id)) == UnreadIn(ns) - (if WasUnread(ns, id) then 1 else 0)
    decreases |ns|
  {
    if ns != [] {
      var rest := ns[1..];
      assert DistinctIds(rest) by {
        forall i, j | 0 <= i < |rest| && 0 <= j < |rest| && rest[i].id == rest[j].id ensures i == j {
          assert ns[i + 1].id == ns[j + 1].id;
        }
      }
      if ns[0].id == id {
        forall i | 0 <= i < |rest| ensures NotId(id)(rest[i]) {
          assert ns[i + 1].id == rest[i].id;
        }
        Seqs.FilterAll(rest, NotId(id));
      } else {
        UnreadAfterRemove(rest, id);
      }
    }
  }

  // ---------------------------------------------------------------------------------------------
  // Badge and due-today message

  /** The badge (Iconbell.tsx:161-165): none for a count of 0 or less, `'9+'` above 9, otherwise
      the count itself. */
  function Badge(count: int): (b: Option<string>)
    ensures b.None? <==> count <= 0
    ensures count > 9 ==> b == Some("9+")
    ensures 0 < count <= 9 ==> b.Some? && |b.value| == 1 && '0' <= b.value[0] <= '9'
    ensures 0 < count <= 9 ==> b.Some? && Text.DecimalValue(b.value) == count
  {
    if count <= 0 then None
    else if count > 9 then Some("9+")
    else
      Text.NatToStringValue(count);
      Some(Text.NatToString(count))
  }

  /** `dueDate.toDateString() === today.toDateString()`: the same calendar day (taken as UTC). */
  predicate SameDay(a: Time, b: Time) {
    a / DayMs == b / DayMs
  }

  function DueTodayAndOpen(now: Time): Task -> bool {
    (t: Task) => t.dueDate.Some? && SameDay(t.dueDate.value, now) && t.status != Done
  }

  /** The tasks `checkDueDateNotifications` counts (Iconbell.tsx:130-134). */
  function DueToday(tasks: seq<Task>, now: Time): (r: seq<Task>)
    ensures forall t :: t in r <==> t in tasks && t.dueDate.Some? && SameDay(t.dueDate.value, now) && t.status != Done
  {
    Seqs.Filter(tasks, DueTodayAndOpen(now))
  }

  /** The message (Iconbell.tsx:136-140): none when nothing is due today, the task's title when one
      task is, otherwise the number of tasks. */
  function DueTodayMessage(tasks: seq<Task>, now: Time): (m: Option<string>)
    ensures m.None? <==> |DueToday(tasks, now)| == 0
    ensures |DueToday(tasks, now)| == 1 ==>
              m == Some("\"" + DueToday(tasks, now)[0].title + "\" is due today!")
    ensures |DueToday(tasks, now)| > 1 ==>
              exists k :: m == Some("You have " + k + " tasks due today!")
                          && (forall i :: 0 <= i < |k| ==> '0' <= k[i] <= '9')
                          && Text.DecimalValue(k) == |DueToday(tasks, now)|
  {
    var due := DueToday(tasks, now);
    if |due| == 0 then None
    else if |due| == 1 then Some("\"" + due[0].title + "\" is due today!")
    else
      Text.NatToStringValue(|due|);
      Some("You have " + Text.NatToString(|due|) + " tasks due today!")
  }

  // ---------------------------------------------------------------------------------------------
  // The component's state

  datatype NotificationsResponse = NotificationsResponse(notifications: seq<Notification>, unreadCount: int)

  /** A call the bell makes through the notification service. */
  datatype BellCall = ListFor(userId: string) | MarkRead(id: string) | MarkAllRead(userId: string) | Delete(id: string)

  class Bell {
    const userId: string
    var notifications: seq<Notification>
    var unreadCount: int
    var showDropdown: bool
    var loading: bool
    var sent: seq<BellCall>

    /** The counter agrees with the list and the list's ids are distinct. */
    ghost predicate CountInStep()
      reads this
    {
      unreadCount == UnreadIn(notifications) && DistinctIds(notifications)
    }

    /** The initial state (Iconbell.tsx:14-17): empty, count 0, closed, loading. */
    constructor (userId: string)
      ensures this.userId == userId && notifications == [] && unreadCount == 0
      ensures !showDropdown && loading && sent == []
      ensures CountInStep()
    {
      this.userId := userId;
      notifications := [];
      unreadCount := 0;
      showDropdown := false;
      loading := true;
      sent := [];
    }

    /** `fetchNotifications` (Iconbell.tsx:38-49): list and count come from the response, or stay
        as they were when the request fails; loading ends either way. */
    method FetchNotifications(response: Service.Outcome<NotificationsResponse>)
      modifies this
      ensures sent == old(sent) + [ListFor(userId)] && !loading && showDropdown == old(showDropdown)
      ensures response.Resolved? ==>
                notifications == response.value.notifications && unreadCount == response.value.unreadCount
      ensures response.Rejected? ==> notifications == old(notifications) && unreadCount == old(unreadCount)
    {
      loading := true;
      sent := sent + [ListFor(userId)];
      if response.Resolved? {
        notifications := response.value.notifications;
        unreadCount := response.value.unreadCount;
      }
      loading := false;
    }

    /** `markAsRead` (Iconbell.tsx:51-63): after the server agrees, that notification is read and
        the counter drops by one, never below 0. It drops even when the notification was read
        already, so the counter stays in step only for an unread one. */
    method MarkAsRead(id: string, call: Service.Outcome<()>)
      modifies this
      ensures sent == old(sent) + [MarkRead(id)] && loading == old(loading) && showDropdown == old(showDropdown)
      ensures call.Resolved? ==>
                notifications == MarkedRead(old(notifications), id)
                && unreadCount == (if old(unreadCount) - 1 > 0 then old(unreadCount) - 1 else 0)
      ensures call.Rejected? ==> notifications == old(notifications) && unreadCount == old(unreadCount)
      ensures old(CountInStep()) && old(WasUnread(notifications, id)) ==> CountInStep()
    {
      sent := sent + [MarkRead(id)];
      if call.Resolved? {
        if DistinctIds(notifications) {
          UnreadAfterMark(notifications, id);
          DistinctAfterMark(notifications, id);
        }
        notifications := MarkedRead(notifications, id);
        unreadCount := if unreadCount - 1 > 0 then unreadCount - 1 else 0;
      }
    }

    /** `markAllAsRead` (Iconbell.tsx:65-75): after the server agrees, every notification is read
        and the counter is 0. */
    method MarkAllAsRead(call: Service.Outcome<()>)
      modifies this
      ensures sent == old(sent) + [MarkAllRead(userId)] && loading == old(loading)
      ensures showDropdown == old(showDropdown)
      ensures call.Resolved? ==> notifications == AllRead(old(notifications)) && unreadCount == 0
      ensures call.Rejected? ==> notifications == old(notifications) && unreadCount == old(unreadCount)
      ensures old(CountInStep()) ==> CountInStep()
    {
      sent := sent + [MarkAllRead(userId)];
      if call.Resolved? {
        AllReadHasNoUnread(notifications);
        notifications := AllRead(notifications);
        unreadCount := 0;
      }
    }

    /** `deleteNotification` (Iconbell.tsx:77-89): after the server agrees, the notification is
        gone, and the counter drops by one, never below 0, only if it was unread. */
    method DeleteNotification(id: string, call: Service.Outcome<()>)
      modifies this
      ensures sent == old(sent) + [Delete(id)] && loading == old(loading) && showDropdown == old(showDropdown)
      ensures call.Resolved? ==> notifications == Removed(old(notifications), id)
      ensures call.Resolved? && old(WasUnread(notifications, id)) ==>
                unreadCount == (if old(unreadCount) - 1 > 0 then old(unreadCount) - 1 else 0)
      ensures call.Resolved? && !old(WasUnread(notifications, id)) ==> unreadCount == old(unreadCount)
      ensures call.Rejected? ==> notifications == old(notifications) && unreadCount == old(unreadCount)
      ensures old(CountInStep()) ==> CountInStep()
    {
      sent := sent + [Delete(id)];
      if call.Resolved? {
        var wasUnread := WasUnread(notifications, id);
        if DistinctIds(notifications) {
          UnreadAfterRemove(notifications, id);
          DistinctAfterRemove(notifications, id);
        }
        notifications := Removed(notifications, id);
        if wasUnread {
          unreadCount := if unreadCount - 1 > 0 then unreadCount - 1 else 0;
        }
      }
    }

    /** The bell button flips the dropdown (Iconbell.tsx:154). */
    method ToggleDropdown()
      modifies this
      ensures showDropdown == !old(showDropdown)
      ensures notifications == old(notifications) && unreadCount == old(unreadCount) && sent == old(sent)
      ensures loading == old(loading)
    {
      showDropdown := !showDropdown;
    }
  }

  lemma DistinctAfterMark(ns: seq<Notification>, id: string)
    requires DistinctIds(ns)
    ensures DistinctIds(MarkedRead(ns, id))
  {
    var r := MarkedRead(ns, id);
    assert forall i :: 0 <= i < |ns| ==> r[i].id == ns[i].id;
  }

  lemma {:induction false} DistinctAfterRemove(ns: seq<Notification>, id: string)
    requires DistinctIds(ns)
    ensures DistinctIds(Removed(ns, id))
    decreases |ns|
  {
    if ns != [] {
      var rest := ns[1..];
      assert DistinctIds(rest) by {
        forall i, j | 0 <= i < |rest| && 0 <= j < |rest| && rest[i].id == rest[j].id ensures i == j {
          assert ns[i + 1].id == ns[j + 1].id;
        }
      }
      DistinctAfterRemove(rest, id);
      if ns[0].id != id {
        var r := Removed(ns, id);
        var tail := Removed(rest, id);
        assert r == [ns[0]] + tail;
        forall k | 0 <= k < |tail| ensures tail[k].id != ns[0].id {
          assert tail[k] in rest;
          var j :| 0 <= j < |rest| && rest[j] == tail[k];
          assert ns[j + 1] == tail[k];
        }
        forall i, j | 0 <= i < |r| && 0 <= j < |r| && r[i].id == r[j].id ensures i == j {
          if i > 0 && j > 0 {
            assert r[i] == tail[i - 1] && r[j] == tail[j - 1];
          }
        }
      }
    }
  }

  /** Marking an already-read notification read breaks the counter. Here the list holds one
      unread notification and the counter, in step, is 1; marking the read one "a" leaves the list
      with one unread notification while `markAsRead` takes the counter down to 0. */
  lemma MarkingReadTwiceUndercounts()
    ensures var ns := [Notification("a", "u", "reminder", "t", "m", None, None, true, 0),
                       Notification("b", "u", "reminder", "t", "m", None, None, false, 0)];
      && UnreadIn(ns) == 1 && !WasUnread(ns, "a")
      && UnreadIn(MarkedRead(ns, "a")) == 1
  {
    var ns := [Notification("a", "u", "reminder", "t", "m", None, None, true, 0),
               Notification("b", "u", "reminder", "t", "m", None, None, false, 0)];
    assert ns[1..] == [ns[1]];
    assert MarkedRead(ns, "a") == ns;
  }
}
