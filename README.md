# TaskPRO task manager: a verified model of its core

TaskPRO is a MERN task manager. An Express/Mongoose backend keeps each user's tasks. A React
front end caches those tasks, shows them on a dashboard, and lets the user add, edit, tick off
and delete them. It also has a notification bell, a session context and a category bar. This
project models the parts of that code that carry logic, and proves what the code promises.

- **Backend handlers** (`TaskStore`, task_store.dfy). `TaskCollection` is a class over
  `tasks: seq<Task>`. Its methods are `AddTask`, `GetMyTasks`, `GetTask`, `UpdateTask` and
  `DeleteTask`. Every database call is an input: `DbOk` or `DbError(message)`. Every answer is a
  `Reply` with its status code, `success` flag and message. The requester's id comes from the
  authentication middleware and is a trusted input. Ids are positions in the sequence (the
  invariant `Valid()`).
- **Dashboard** (`Dashboard`, dashboard.dfy). The derived view is pure. It searches, filters by
  status, and sorts with the page's comparator. The module also has the sort label, the order
  toggle, the status counters and the completion rate.
- **Task service** (`TaskService`, task_service.dfy). `getTasksByStatus` is a client-side filter
  over the fetched listing.
- **Task cache** (`TaskContext`, task_context.dfy). `TaskProvider` has the fields `tasks`,
  `loading` and `error`. Its methods are fetch, add, update and delete, and `GetTask` is a lookup.
  `sent` records the requests the provider sends, in order.
- **Task form** (`TaskModal`, task_modal.dfy). It covers validation, the change handler, opening
  the form from a task, and the submit protocol through the cache.
- **Task card** (`TaskCard`, task_card.dfy). It covers the done toggle, the overdue flag, the
  style tables, and the two-step delete flags (`isDeleting`, `isDeleted`, `showMenu`).
- **Notification bell** (`Iconbell`, iconbell.dfy). The list and its unread counter are updated
  after each successful service call. The module also has the badge text and the due-today
  message.
- **Session** (`AuthContext`, auth_context.dfy). The provider has `user` and `loading`, and
  methods for the profile check, login, register and logout.
- **Category bar** (`Dashnav`, dashnav.dfy). It has `getActiveCategory` and the add-more
  dropdown flag.

Helper modules model the JavaScript built-ins the code relies on:

- `Wrappers`: `Option`, and the `Outcome` of an awaited HTTP call, which is `Resolved(value)` or
  `Rejected(serverMessage)`.
- `Seqs`: `filter`, `find`/`findIndex`, and a stable comparator sort. The sort is proved sorted
  and a permutation under any total preorder.
- `Text`: `toLowerCase`, `includes`, `trim`, `localeCompare`, `split`, and number-to-text.
- `TaskTypes`: the shared task, body, notification and user records.

Every awaited call into code the model cannot see is a parameter. That covers axios requests,
Mongoose queries and the auth and notification services. The clock is a `now: Time` parameter,
in milliseconds since the epoch.

Where the code departs from its evident intent, the model follows the code. Five places stand
out:

- **Form edits are refused.** The task form sends its whole state, `category` included. The update
  handler's allow-list has no `category`, so every edit made through the form is answered 400
  "Invalid updates" (`TaskModal.EditIsRefused`). Status changes from the card send `{status}`
  only and are accepted (`TaskCard.StatusChangeAccepted`).
- **The search term is not trimmed.** Search is switched on by the trimmed term, but the term
  matched is only lowercased.
- **The bell's handler alone can undercount.** `markAsRead` lowers the unread counter even for a
  notification that is already read, so on its own it can drop the counter below the list's unread
  count (`Iconbell.MarkingReadTwiceUndercounts`). The dropdown shows "Mark as read" only for unread
  notifications (Iconbell.tsx:228-232), so in the running interface the drift needs a double
  click, or a poll that lands while the call is pending. Both are interleavings this model leaves
  out. `deleteNotification` keeps the counter in step.
- **A card's Delete never deletes.** The first click sets `isDeleting` and starts a five-minute
  timer. The timer's callback tests the `isDeleting` it captured at the click, and that value is
  always false, because the click only reaches that line when `isDeleting` was false. So
  `handleConfirmDelete`, which has no other caller, never runs. The `clearTimeout` cleanup that
  the click handler returns is discarded. Only Undo and Cancel can follow a click on Delete
  (`TaskCard.TaskCardView.DeleteTimerFires`).
- **The category bar's dropdown never opens.** Nothing in the category bar ever sets
  `showAddMore` to true, so the dropdown stays closed.

## Model

| member | source | states |
|---|---|---|
| TaskStore.TaskCollection.AddTask | backend/controllers/task.controller.js:4-32 | A missing or empty title answers 400 "Title is required" and stores nothing; a blank but non-empty title is accepted. A failed create answers 500 "Failed to create task" and stores nothing. Otherwise exactly one record is appended: title, description, priority and due date from the body, owner the requester, schema defaults for the rest, and it is returned with 201. Other users' records are untouched. |
| TaskStore.NewTask | backend/controllers/task.controller.js:6-18 | The created record takes only the four body fields and the requester as owner; status is "todo", priority defaults to "medium", it is not deleted. |
| TaskStore.NewTaskIgnoresOtherKeys | backend/controllers/task.controller.js:6 | Two bodies that agree on title, description, priority and due date create the same record, whatever else they carry (including status). |
| TaskStore.TaskCollection.GetMyTasks | backend/controllers/task.controller.js:35-54 | A failed query answers 500 "Failed to fetch tasks"; otherwise the listing holds exactly the requester's non-deleted records, each as often as stored, newest first, and count equals its length. |
| TaskStore.MyTasks | backend/controllers/task.controller.js:37-40 | The listing is the requester's live records, none added or lost, sorted by creation time descending. |
| TaskStore.MyTasksSpec | backend/controllers/task.controller.js:37-40 | The listing's members are exactly the requester's live records, it is a permutation of the filtered store, and it is sorted by creation time descending. |
| TaskStore.Lookup | backend/controllers/task.controller.js:59-63 | Finds the first record (no earlier record matches) whose id, owner and deleted flag all match the query, or reports that none does. |
| TaskStore.LookupById | backend/controllers/task.controller.js:59-63 | With ids as positions the query finds record `id` exactly when it belongs to the requester and is not deleted. |
| TaskStore.TaskCollection.GetTask | backend/controllers/task.controller.js:137-163 | 500 on a failed query, 404 when no record matches id, owner and live flag, otherwise that record; a found record always matches all three. |
| TaskStore.TaskCollection.UpdateTask | backend/controllers/task.controller.js:57-102 | The lookup runs first (404 and no change), then the key check (400 "Invalid updates" and no change), then the save (500 and no change); a valid update replaces exactly the looked-up record by the body applied to it. Other users' records are untouched. |
| TaskStore.ValidOperationIffNoExtraKeys | backend/controllers/task.controller.js:73-78 | A body passes the allow-list exactly when it has no key outside the five task fields. |
| TaskStore.Apply | backend/controllers/task.controller.js:87 | Each supplied field is assigned; every other field, owner and deleted flag included, keeps its value. |
| TaskStore.ApplyNoChanges | backend/controllers/task.controller.js:74-88 | An empty body changes nothing. |
| TaskStore.ApplyStatusOnly | backend/controllers/task.controller.js:87 | A status-only body changes the status and nothing else. |
| TaskStore.TaskCollection.DeleteTask | backend/controllers/task.controller.js:105-134 | 500 on a failed query or save and 404 when nothing matches, in both cases with no change; otherwise only the deleted flag of the looked-up record is set and the answer carries no task. |
| TaskStore.SoftDeleted | backend/controllers/task.controller.js:120 | Only the deleted flag of that one record changes. |
| TaskStore.CreatedTaskIsFound | backend/controllers/task.controller.js:12-18 | A created record is found by its creator's lookup and by no other user's. |
| TaskStore.SoftDeletedIsGone | backend/controllers/task.controller.js:107-120 | After a delete the record is neither found by id nor listed, so a second delete answers 404. |
| TaskStore.OthersListUnchanged | backend/controllers/task.controller.js:37-40 | Changing one user's record leaves every other user's listing exactly as it was. |
| Dashboard.FilteredTasks | frontend/src/pages/Dashboard.tsx:58-102 | The view is never longer than the cache and is sorted by the selected comparator. |
| Dashboard.FilteredTasksSpec | frontend/src/pages/Dashboard.tsx:58-102 | The view holds exactly the tasks that pass search and status filter, each as often as in the cache, and is sorted by the selected comparator. |
| Dashboard.FilteredTasksCounts | frontend/src/pages/Dashboard.tsx:58-102 | Each task occurs in the view as often as in the cache if it passes both filters, and not at all otherwise, so the view is a reordered subset of the cache. |
| Dashboard.BySearchCounts | frontend/src/pages/Dashboard.tsx:62-69 | With a non-blank term a task is kept exactly when the lowered term occurs in its lowered title, description or a tag; a blank term keeps everything. |
| Dashboard.BlankSearchKeepsAll | frontend/src/pages/Dashboard.tsx:62 | A term of white space only does not filter. |
| Dashboard.ByStatusCounts | frontend/src/pages/Dashboard.tsx:72-74 | 'all' keeps every task; any other filter keeps exactly the tasks with that status. |
| Dashboard.PriorityRank | frontend/src/pages/Dashboard.tsx:89-91 | high 3, medium 2, low 1, any other priority 0 (see "## Left out" for `Object.prototype` keys). |
| Dashboard.InOrderIsTotalPreorder | frontend/src/pages/Dashboard.tsx:77-99 | For every key and order the comparator is total and transitive, so the sort is well defined. |
| Dashboard.ComparatorAntisymmetric | frontend/src/pages/Dashboard.tsx:78-98 | Swapping the two tasks negates the comparison. |
| Dashboard.ComparatorTransitive | frontend/src/pages/Dashboard.tsx:78-98 | "Not after" is transitive for every key and order. |
| Dashboard.PrioritySortDesc | frontend/src/pages/Dashboard.tsx:88-91 | Sorted by priority in 'desc': high, then medium, then low, unknown priorities last. |
| Dashboard.CreatedSortDesc | frontend/src/pages/Dashboard.tsx:93-95 | The default key in 'desc' is newest first. |
| Dashboard.TitleSortDesc | frontend/src/pages/Dashboard.tsx:80-81 | Title in 'desc' is A to Z. |
| Dashboard.DueDateSortDesc | frontend/src/pages/Dashboard.tsx:83-86 | Due date in 'desc' is earliest first, a missing date counting as 0. |
| Dashboard.CreatedSortAsc | frontend/src/pages/Dashboard.tsx:95-98 | 'asc' on the default key is oldest first. |
| Dashboard.AscNegatesDesc | frontend/src/pages/Dashboard.tsx:98 | 'asc' negates every pairwise comparison of 'desc'. |
| Dashboard.ToggleSortOrder | frontend/src/pages/Dashboard.tsx:53-55 | The toggle always yields the other of 'asc'/'desc'. |
| Dashboard.ToggleTwice | frontend/src/pages/Dashboard.tsx:53-55 | Toggling twice is the identity on 'asc' and 'desc'. |
| Dashboard.CurrentSortLabel | frontend/src/pages/Dashboard.tsx:41-44 | The matching option's label, or 'Sort By' when no option has that id. |
| Dashboard.StatusCountExact | frontend/src/pages/Dashboard.tsx:105-108 | Each counter counts exactly the tasks with that status. |
| Dashboard.StatusCountsBounded | frontend/src/pages/Dashboard.tsx:105-108 | The three counters together never exceed the number of tasks. |
| Dashboard.Percent | frontend/src/pages/Dashboard.tsx:109 | `Math.round(d / n * 100)` for `0 <= d <= n`, `n > 0`: the nearest integer to the percentage, within 0..100. |
| Dashboard.CompletionRate | frontend/src/pages/Dashboard.tsx:109 | 0 with no tasks, otherwise the done share in percent rounded to the nearest integer, within 0..100. |
| Seqs.SortByStable | frontend/src/pages/Dashboard.tsx:77 | The sort is stable: the elements tied with any given element keep their relative order. |
| Dashboard.FilteredTasksStable | frontend/src/pages/Dashboard.tsx:77-99 | Tasks level on the chosen key (same priority, title, due date or creation time) appear in the view in the order the filtered cache lists them. |
| Seqs.SortBySorted | frontend/src/pages/Dashboard.tsx:77 | The comparator sort returns its input sorted, with nothing added or lost, for any total preorder. |
| Text.IncludesAt | frontend/src/pages/Dashboard.tsx:65-67 | `includes` holds exactly when the term occurs at some position. |
| Text.LocaleCompareTransitive | frontend/src/pages/Dashboard.tsx:81 | The title comparison is transitive. |
| Text.LocaleCompareAntisymmetric | frontend/src/pages/Dashboard.tsx:81 | Swapping titles negates the title comparison. |
| Text.TrimEmptyIffBlank | frontend/src/components/Task/TaskModal.tsx:72 | A trimmed string is empty exactly when the string is all white space. |
| TaskService.GetTasksByStatus | frontend/src/services/task.service.ts:52-60 | A rejected fetch stays rejected; a resolved one keeps every other field of the response, holds exactly the tasks with that status, and its count is the filtered length. |
| TaskService.ByStatus | frontend/src/services/task.service.ts:54-58 | The filtered response passes `success` through, has exactly the tasks of that status, and a count equal to their number. |
| TaskService.ByStatusKeepsOrder | frontend/src/services/task.service.ts:54 | The filtered tasks keep the fetched order, each matching task as often as it came. |
| TaskService.ByStatusOfListing | frontend/src/services/task.service.ts:52-60 | Over what the server lists, the result is exactly the requester's live tasks with that status, still newest first. |
| TaskContext.TaskProvider.constructor | frontend/src/contexts/TaskContext.tsx:31-33 | Starts with an empty list, not loading, no error. |
| TaskContext.Mount | frontend/src/contexts/TaskContext.tsx:95-97 | After mounting exactly one fetch has been sent and the state is what that fetch left. |
| TaskContext.TaskProvider.FetchTasks | frontend/src/contexts/TaskContext.tsx:35-47 | Success replaces the list wholesale and clears the error; failure keeps the list and sets the server message or 'Failed to fetch tasks'; loading ends false; it never rejects. |
| TaskContext.TaskProvider.AddTask | frontend/src/contexts/TaskContext.tsx:49-61 | The list is refetched only after the create resolves; a failed create keeps the list, sets the server message or 'Failed to create task' and rejects; a failed refetch still resolves with the fetch message; loading ends false. |
| TaskContext.TaskProvider.UpdateTask | frontend/src/contexts/TaskContext.tsx:63-75 | The same protocol with 'Failed to update task'. |
| TaskContext.TaskProvider.DeleteTask | frontend/src/contexts/TaskContext.tsx:77-89 | The same protocol with 'Failed to delete task'. |
| TaskContext.TaskProvider.GetTask | frontend/src/contexts/TaskContext.tsx:91-93 | Returns the first cached task with that id (no earlier cached task has it), or none exactly when no cached task has it; it reads state and changes none. |
| TaskContext.GetTaskAgreesWithServer | frontend/src/contexts/TaskContext.tsx:91-93 | When the cache holds the server's listing, a cache lookup returns exactly what `GET /tasks/:id` would return. |
| TaskModal.ValidateForm | frontend/src/components/Task/TaskModal.tsx:69-81 | A title error exactly when the title is blank, a due-date error exactly when a due date is set and lies before now, with the source's messages, and no other key. |
| TaskModal.TaskModalForm.Open | frontend/src/components/Task/TaskModal.tsx:23-42 | Opening fills the form from the task with the ''/'medium'/'general' fallbacks (or the blank form) and clears the errors. |
| TaskModal.DayStart | frontend/src/components/Task/TaskModal.tsx:29 | The date shown for a task is the midnight at or before its due time, within one day of it. |
| TaskModal.TaskModalForm.HandleChange | frontend/src/components/Task/TaskModal.tsx:113-123 | Only the named field takes the new value, and only that field's error is blanked, and only if it was shown. |
| TaskModal.TaskModalForm.HandleSubmit | frontend/src/components/Task/TaskModal.tsx:83-111 | With errors: they are shown, nothing is sent and the cache is untouched. Otherwise an update is sent when a task is being edited and a create when not. On success the form resets and errors clear; on failure the form and errors are kept. Afterwards the cache is not loading. It holds the refetched list with no error, or keeps its list with the fetch error when the refetch fails, or keeps its list with the create or update failure message. |
| TaskModal.EditIsRefused | frontend/src/components/Task/TaskModal.tsx:94 | The form's update body has exactly one key outside the allow-list, `category`, so the update handler refuses it. |
| TaskModal.CreatedFromForm | frontend/src/components/Task/TaskModal.tsx:96 | A form that passes validation has a title the server accepts, and the created task has the form's title, description, priority and due day, status "todo". |
| TaskModal.ReopenedForm | frontend/src/components/Task/TaskModal.tsx:26-29 | Saving a reopened form unchanged would keep the title and status, turn a missing description into '', and move the due time back to midnight of its day. |
| TaskCard.ToggleTarget | frontend/src/components/Task/TaskCard.tsx:154-156 | done goes to todo, every other status to done. |
| TaskCard.ToggleTargetFlips | frontend/src/components/Task/TaskCard.tsx:154-156 | The button flips between todo and done; from any other status two clicks end at todo. |
| TaskCard.IsOverdue | frontend/src/components/Task/TaskCard.tsx:139 | A done task or one without a due date is never overdue; an open task is overdue exactly when its due time lies before now. |
| TaskCard.ToggleAndOverdue | frontend/src/components/Task/TaskCard.tsx:139 | Ticking an overdue task off ends the overdue state; unticking a past-due done task restores it. |
| TaskCard.PriorityConfig | frontend/src/components/Task/TaskCard.tsx:77-108 | The three known priorities get their labels; any other gets the grey 'Normal' style. |
| TaskCard.NormalIffUnranked | frontend/src/components/Task/TaskCard.tsx:100-106 | A card reads 'Normal' exactly for the priorities the dashboard sort ranks 0. |
| TaskCard.StatusConfig | frontend/src/components/Task/TaskCard.tsx:110-133 | in-progress and done get their styles; every other status gets the todo style. |
| TaskCard.StatusStyles | frontend/src/components/Task/TaskCard.tsx:127-131 | An unknown status looks like todo; the three known statuses look different. |
| TaskCard.ShowsMoreToggleIffLong | frontend/src/components/Task/TaskCard.tsx:233-239 | The "Show more" toggle appears exactly for a description longer than 100 characters. |
| TaskCard.StatusChangeAccepted | frontend/src/components/Task/TaskCard.tsx:34 | The status-change body passes the allow-list and changes exactly the status. |
| TaskCard.TaskCardView.StatusSelectDisabled | frontend/src/components/Task/TaskCard.tsx:283 | The status select is disabled while a deletion is scheduled and once the card is deleted, and enabled otherwise. |
| TaskCard.TaskCardView.HandleStatusChange | frontend/src/components/Task/TaskCard.tsx:32-39 | Sends the status-only body; the parent is notified exactly when it resolves; no flag changes. |
| TaskCard.TaskCardView.HandleDelete | frontend/src/components/Task/TaskCard.tsx:41-64 | The first click only sets isDeleting, which disables the status select, sends nothing, and queues a timer that captured isDeleting as false. Undo attempts a restore (recorded as a Restore call), clears isDeleted only if it resolves, and always ends with isDeleting false and the menu closed. In every state, all pending timers have captured false. |
| TaskCard.TaskCardView.DeleteTimerFires | frontend/src/components/Task/TaskCard.tsx:57-62 | The oldest timer is consumed. It confirms the deletion only if its captured flag was true; with a false flag nothing is sent and no flag changes. Since every reachable state has only false flags, the timer never deletes. |
| TaskCard.TaskCardView.HandleConfirmDelete | frontend/src/components/Task/TaskCard.tsx:66-75 | Sends the delete; isDeleted is set only if it resolves; isDeleting ends false either way. Its only caller is the timer, whose test never holds. |
| TaskCard.TaskCardView.Cancel | frontend/src/components/Task/TaskCard.tsx:339 | Clears isDeleting and sends nothing. |
| TaskCard.TaskCardView.ToggleMenu | frontend/src/components/Task/TaskCard.tsx:196 | Flips the menu and nothing else. |
| TaskCard.TaskCardView.ToggleExpanded | frontend/src/components/Task/TaskCard.tsx:241 | Flips the expanded description and nothing else. |
| Iconbell.Bell.ToggleDropdown | frontend/src/components/Task/Iconbell.tsx:154 | The bell button flips the dropdown and changes nothing else. |
| Iconbell.Bell.FetchNotifications | frontend/src/components/Task/Iconbell.tsx:38-49 | List and counter come from the response, or stay on failure; loading ends false. |
| Iconbell.Bell.MarkAsRead | frontend/src/components/Task/Iconbell.tsx:51-63 | After success only the matching notification becomes read and the counter drops by one but not below 0; on failure nothing changes; the counter stays in step when the notification was unread. |
| Iconbell.MarkedRead | frontend/src/components/Task/Iconbell.tsx:54-58 | The notification with that id is read; every other one is unchanged. |
| Iconbell.UnreadAfterMark | frontend/src/components/Task/Iconbell.tsx:54-59 | With distinct ids, marking read lowers the list's unread count by one exactly when that notification was unread. |
| Iconbell.MarkingReadTwiceUndercounts | frontend/src/components/Task/Iconbell.tsx:59 | Marking an already-read notification leaves the list's unread count at 1 while the counter, in step before, drops to 0. |
| Iconbell.Bell.MarkAllAsRead | frontend/src/components/Task/Iconbell.tsx:65-75 | After success every notification is read and the counter is 0; on failure nothing changes. |
| Iconbell.AllReadHasNoUnread | frontend/src/components/Task/Iconbell.tsx:68-71 | After marking all read the list has no unread notification, matching the counter. |
| Iconbell.Bell.DeleteNotification | frontend/src/components/Task/Iconbell.tsx:77-89 | After success exactly the matching notification is gone and the counter drops, never below 0, only if it was unread; on failure nothing changes; the counter stays in step. |
| Iconbell.Removed | frontend/src/components/Task/Iconbell.tsx:80 | Exactly the notifications with that id are removed. |
| Iconbell.UnreadAfterRemove | frontend/src/components/Task/Iconbell.tsx:80-85 | With distinct ids, deleting lowers the list's unread count by one exactly when the deleted notification was unread. |
| Iconbell.Badge | frontend/src/components/Task/Iconbell.tsx:161-165 | No badge for a count of 0 or less, '9+' above 9, otherwise the one digit that reads back as the count. |
| Iconbell.DueToday | frontend/src/components/Task/Iconbell.tsx:130-134 | Exactly the tasks with a due date on today's date that are not done. |
| Iconbell.DueTodayMessage | frontend/src/components/Task/Iconbell.tsx:136-140 | No message when nothing is due today, the task's title when one is, otherwise a count that reads back as the number of tasks due. |
| AuthContext.AuthProvider.constructor | frontend/src/contexts/AuthContext.tsx:17-18 | Starts with no user and loading true. |
| AuthContext.AuthProvider.CheckAuth | frontend/src/contexts/AuthContext.tsx:20-30 | The user comes from the profile on success and is cleared on failure; loading ends false either way. |
| AuthContext.Mount | frontend/src/contexts/AuthContext.tsx:32-34 | After mounting exactly one profile check has run and loading is over. |
| AuthContext.AuthProvider.SignIn | frontend/src/contexts/AuthContext.tsx:36-44 | The profile is checked only after the login resolves; a refused login rejects and leaves the session alone; an accepted login whose profile check fails resolves with no user. |
| AuthContext.AuthProvider.SignUp | frontend/src/contexts/AuthContext.tsx:46-54 | The same protocol for registration. |
| AuthContext.AuthProvider.SignOut | frontend/src/contexts/AuthContext.tsx:56-64 | The user is cleared only when the logout resolves; otherwise it rejects and the user stays. |
| Dashnav.ActiveCategory | frontend/src/components/Layout/Dashnav.tsx:13-16 | Never empty, and either 'general' or a single path segment. |
| Dashnav.FirstSegmentSelects | frontend/src/components/Layout/Dashnav.tsx:14 | Only the first segment matters: '/dashboard/x' selects 'dashboard'. |
| Dashnav.EmptySegmentSelectsGeneral | frontend/src/components/Layout/Dashnav.tsx:14-15 | A path whose first segment is empty, such as '//x' or '/', selects 'general'. |
| Dashnav.RootSelectsGeneral | frontend/src/components/Layout/Dashnav.tsx:14-15 | '/', '' and a path with no '/' select 'general'. |
| Dashnav.EveryPathSelectsItsCategory | frontend/src/components/Layout/Dashnav.tsx:18-67 | Every category's path selects that category's id. |
| Dashnav.CategoryBar.HandleCategoryClick | frontend/src/components/Layout/Dashnav.tsx:78-81 | Goes to the path and closes the dropdown. |
| Dashnav.CategoryBar.HandleAddCategory | frontend/src/components/Layout/Dashnav.tsx:83-86 | Closes the dropdown and changes nothing else. |
| Dashnav.CategoryBar.CloseAddMore | frontend/src/components/Layout/Dashnav.tsx:133 | Closes the dropdown and changes nothing else. |

## Left out

- Three.js scenes, animation and random particle positions: floating point and rendering.
- Presentational components without logic, routing in App.tsx, and the route table and constants
  files: these only wire paths to handlers.
- axios clients and interceptors, localStorage, `window.location` redirects, `window.confirm`
  and `alert`: browser and network I/O. Each awaited call is an `Outcome` parameter.
- The 30-second notification polling and the outside-click listeners: timers and concurrency.
  The five-minute delete timer is modelled only as the queue of pending timers with the flag each
  captured (`DeleteTimerFires`). When it fires relative to other events is not modelled.
- The intermediate `loading: true` renders during an awaited call: the model shows state only
  once a call has settled.
- Dashboard `handleDeleteTask`: it calls a service that file never imports.
- Mongoose internals: casting, validation, the `CastError` on a malformed id, and the
  timestamps plugin. `updatedAt` is not advanced by update and delete. models/task.js is not part
  of this model; its defaults (status "todo", priority "medium", not deleted) are assumed.
- JSON `null` and `''` field values in request bodies: an empty due date in the form is an
  absent one, and a body field is either present with a value or absent.
- Real dates and locales: `new Date`, `toISOString`, `toDateString`, `toLocaleDateString`,
  date-fns. Times are integers in milliseconds and days are UTC days.
- Text.LocaleCompare: a total order by code point, not the locale's collation.
- Text.Lower: maps ASCII letters only.
- TaskCard.ShowsMoreToggle: length counted in code points, not UTF-16 units; a description of
  51 to 100 characters outside the Basic Multilingual Plane shows "Show more" in the application
  but not in the model, since Dafny strings have no surrogate pairs.
- Dashboard.PriorityRank: ranks every string other than high/medium/low 0. In the source,
  `priorityOrder[p] || 0` on an object literal finds an inherited member for keys such as
  `toString`, the subtraction gives NaN and the sort treats that pair as equal; the server's
  priority enum keeps such strings out, and the model does not represent prototype lookups.
- Dashboard.Percent: exact integer rounding of d·100/n with halves rounded up. It does not model
  the floating-point quotient `Math.round` sees.
- Iconbell `checkDueDateNotifications`: it calls a task-service method that does not exist,
  and it only logs. Its filter and message are `Iconbell.DueToday` and
  `Iconbell.DueTodayMessage`.
- Iconbell.DueTodayMessage: the count is stated as some digit string whose decimal value is the
  number of tasks due; that the digits have no leading zero is not stated.
- The icon and colour tables of the bell (`getNotificationIcon`, `getNotificationColor`):
  constant lookups with no logic.
- TaskCard `restoreTask`: it is not a member of the task service. Calling it throws before any
  request is made, so Undo always takes the failure path. The model records the attempt as a
  `Restore` call and keeps its result as an `Outcome` that may resolve.
- The shape of the auth and notification responses: auth.service.ts and notification.types.ts
  are not part of this model. The profile is an optional `User`, and notifications carry the
  fields the bell reads.
