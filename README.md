# Task list view state, modelled in Dafny

This project models the view state of the task page of a small task-manager
front end: the composable `useTaskLogic` that holds the fetched tasks, the
status filter, the current page, the task form with its error map and the
logged-in user, together with the views derived from them and the
operations that change them.

- `Text` (`text.dfy`): JavaScript's `String.prototype.trim`. It defines the
  white-space characters `trim` strips and the trimming of each end. Its
  contract and lemmas show that the result is the input with blank ends cut
  off, and that it is empty exactly when the input is all white space.
- `Lists` (`lists.dfy`): `Array.prototype.filter` and
  `Array.prototype.slice` on sequences. Slice follows the ECMAScript rules
  for relative indices: a negative index counts from the end, and indices
  are clamped to the length.
- `TaskLogic` (`task_logic.dfy`): the pure parts. These are the computed
  properties `filteredTasks`, `totalPages` and `paginatedTasks`; the list
  after a fetch or a delete; the form check; and the error notice. The
  lemmas show that the pages 1 to `totalPages` partition the filtered list.
- `TaskView` (`task_view.dfy`): the class `TaskState`. It has one field for
  each piece of reactive state, and methods for `fetchUserData`,
  `fetchTasks`, `validateForm`, `addTask`, `resetTaskForm`, `completeTask`
  and `removeTask`. Each method's `ensures` gives the whole new state in
  terms of the old state and the functions of `TaskLogic`.

Remote calls are inputs of the method that makes them. The profile is an
`Option<User>`. The task-list response is `Failed`, or `Delivered` with a
`tasks` field that may be absent. Add, complete and delete are each a
`bool` for success. The delete confirmation dialog is a `bool`. The clock
is a parameter: `today` is the integer instant of the start of the current
day, and a due date is an optional integer instant.

In these places the model follows the code, which a reader might expect
to behave otherwise:
- `addTask` does not run `validateForm`. It sends whatever the form holds,
  with title and description trimmed.
- `removeTask` drops the task locally only after the delete request has
  succeeded. The local update is not optimistic.
- A failed task fetch keeps the previous list. It does not empty it. The
  list starts out empty.
- A token that is the empty string counts as no token (`!token`).
- A server message that is the empty string falls back to the default
  notice text (`message || defaultMessage`).

## Model

| member | source | states |
|---|---|---|
| Text.IsWhitespace | src/components/Task/useTaskLogic.js:83 | the characters `trim()` strips are the ECMAScript white-space and line-terminator characters; tab through carriage return are among them; U+0085, U+180E and U+200B are not |
| Text.Trim | src/components/Task/useTaskLogic.js:83-91 | `trim()` gives the empty string exactly when every character is white space, which is the test `!s.trim()`; a non-empty result starts and ends with a character that is not white space |
| Text.TrimStartSpec | src/components/Task/useTaskLogic.js:112 | stripping the leading white space leaves the longest suffix of the input that does not start with white space; the cut-off prefix is blank |
| Text.TrimEndSpec | src/components/Task/useTaskLogic.js:112 | stripping the trailing white space leaves the longest prefix of the input that does not end with white space; the cut-off suffix is blank |
| Text.TrimIsInfix | src/components/Task/useTaskLogic.js:112-113 | `trim()` returns a contiguous piece of the input with only blank text cut from each end |
| Lists.Filter | src/components/Task/useTaskLogic.js:44 | `filter` keeps at most as many elements as it is given, and every kept element passes the test and comes from the input |
| Lists.FilterMember | src/components/Task/useTaskLogic.js:44 | an element is in the filtered array exactly when it is in the input and passes the test |
| Lists.FilterCount | src/components/Task/useTaskLogic.js:44 | every element that passes the test is kept as often as it occurs; no other element is kept |
| Lists.FilterIsSubsequence | src/components/Task/useTaskLogic.js:44 | the kept elements keep their original relative order |
| Lists.FilterKeepsAll | src/components/Task/useTaskLogic.js:44 | an array whose elements all pass the test comes back unchanged |
| Lists.Slice | src/components/Task/useTaskLogic.js:54 | for a non-negative start, the slice is the run of elements from `start` up to `end` or the end of the array, with its length fixed by those bounds, and it is empty when the start is past the end; negative bounds count back from the end; an end of 0 gives the empty slice |
| TaskLogic.FilteredTasks | src/components/Task/useTaskLogic.js:41-45 | with the filter `""` the view is the whole list; otherwise every task shown has the filter as its status, and the view is never longer than the list |
| TaskLogic.FilteredTasksExact | src/components/Task/useTaskLogic.js:41-45 | with a filter set, the view holds exactly the tasks with that status, each as often as in the list, in their original order |
| TaskLogic.TotalPages | src/components/Task/useTaskLogic.js:47-49 | the page count is at least 1; it is 1 for no tasks; otherwise it is the ceiling of count / 5, meaning (pages - 1) * 5 < count <= pages * 5 |
| TaskLogic.PaginatedTasks | src/components/Task/useTaskLogic.js:51-55 | for a page p >= 1 the page holds at most 5 tasks, namely `filtered[(p-1)*5 .. min(p*5, n)]`, and is empty when that start is past the end; page 0 is empty; a negative page p with (p-1)*5 >= -n is `filtered[n+(p-1)*5 .. n+p*5]`, counted from the end as JavaScript slices |
| TaskLogic.PagesThroughIsPrefix | src/components/Task/useTaskLogic.js:51-55 | pages 1 to k put together are the first min(5k, n) filtered tasks |
| TaskLogic.PagesPartitionFiltered | src/components/Task/useTaskLogic.js:47-55 | pages 1 to `totalPages` put together are exactly the filtered list, so no task is on two pages and every task is on one |
| TaskLogic.PageOfIndex | src/components/Task/useTaskLogic.js:47-55 | filtered task i is entry i mod 5 of page i / 5 + 1, and that page is within `totalPages` |
| TaskLogic.PagesInRange | src/components/Task/useTaskLogic.js:47-55 | every page after `totalPages` is empty; for a non-empty list, every page from 1 to `totalPages` is non-empty |
| TaskLogic.DeleteCanEmptyCurrentPage | src/components/Task/useTaskLogic.js:47-55 | with six tasks page 2 shows the sixth; after that task is deleted there is one page, and page 2 shows nothing |
| TaskLogic.AfterFetch | src/components/Task/useTaskLogic.js:71-77 | a failed task fetch keeps the current list; a response with no `tasks` field gives the empty list (the empty-list fallback of `getTasks`); otherwise the fetched list replaces the current one |
| TaskLogic.WithoutTask | src/components/Task/useTaskLogic.js:160 | after the removal no task has the deleted id, and the list is no longer than before |
| TaskLogic.WithoutTaskExact | src/components/Task/useTaskLogic.js:160 | the removal keeps exactly the tasks with another id, each as often as before, in their original order |
| TaskLogic.WithoutAbsentTask | src/components/Task/useTaskLogic.js:160 | removing an id that no task has leaves the list unchanged |
| TaskLogic.DueDateError | src/components/Task/useTaskLogic.js:93-104 | the message is "Due date is required" exactly when no date is given, and "Due date cannot be in the past" exactly when a date is given and is before the start of today; otherwise it is empty |
| TaskLogic.FormErrors | src/components/Task/useTaskLogic.js:79-107 | each field's message is non-empty exactly when that field's own check fails: a blank title, a blank description, a missing or past due date; the title and description messages are the fixed texts, and the due-date message is the one `DueDateError` chooses |
| TaskLogic.AcceptableIffNoErrors | src/components/Task/useTaskLogic.js:79-107 | the error map is all `""` exactly when title and description are not blank and the due date is given and not before today |
| TaskLogic.AcceptablePayloadIsTrimmed | src/components/Task/useTaskLogic.js:111-116 | for a form that passes the check, the title and description sent are non-empty and neither starts nor ends with white space |
| TaskLogic.ErrorNotice | src/components/Task/useTaskLogic.js:181-187 | the notice shows the server's message when the server rejected the call with a non-empty message, and otherwise the caller's default text |
| TaskView.TaskState.constructor | src/components/Task/useTaskLogic.js:11-33 | the initial state: no tasks, filter `""`, page 1, the placeholder user "Loading...", an empty form with priority "Low", the form closed and no errors |
| TaskView.TaskState.HasToken | src/components/Task/useTaskLogic.js:60 | the token test `!token` fails exactly for a missing token and for the empty string |
| TaskView.TaskState.CurrentPageView | src/components/Task/useTaskLogic.js:47-55 | the current page shows at most 5 tasks and there is at least one page; a current page after the last shows nothing; every page up to the last shows something when a task passes the filter |
| TaskView.TaskState.FetchUserData | src/components/Task/useTaskLogic.js:58-69 | redirects to login exactly when there is no non-empty token or the profile request fails, and then keeps `user`; otherwise `user` becomes the fetched profile |
| TaskView.TaskState.FetchTasks | src/components/Task/useTaskLogic.js:71-77 | the list becomes `AfterFetch` of the old list and the response; on a failed request it is unchanged; filter and page stay, and nothing else changes |
| TaskView.TaskState.ValidateForm | src/components/Task/useTaskLogic.js:79-107 | the error map becomes `FormErrors` of the form; the result is true exactly when the form is acceptable, which is exactly when every error is `""`; only the error map changes |
| TaskView.TaskState.ResetTaskForm | src/components/Task/useTaskLogic.js:126-133 | title, description and due date are cleared, priority is "Low", the form is closed and all errors are `""`; tasks, filter and page are unchanged |
| TaskView.TaskState.AddTask | src/components/Task/useTaskLogic.js:109-124 | the payload holds the trimmed title and description, the due date and the priority; if the server accepts it, the form is reset and the list refetched; if not, nothing changes |
| TaskView.TaskState.CompleteTask | src/components/Task/useTaskLogic.js:135-143 | on success the list is refetched; on failure the local list is unchanged |
| TaskView.TaskState.RemoveTask | src/components/Task/useTaskLogic.js:145-166 | a declined confirmation sends no delete and leaves the list unchanged; a successful delete leaves exactly the old tasks without that id, in order; a failed delete leaves the local list alone and then applies the refetch; filter and page stay, so the current page may end up past the last |

## Left out

- Vue reactivity: each computed property is a function of the current state (`TaskState.Filtered`, `PageCount`, `CurrentPageTasks`). It is evaluated when read rather than cached.
- The `Array.isArray` guard of `filteredTasks` (useTaskLogic.js:42): in the model the list is always a sequence, so the branch that returns `[]` for a non-array cannot arise.
- `pageSize` is the constant 5, because the composable never reassigns it. `currentPage` is an integer: the view sets it, and no operation of the composable changes it. Non-integer page values are not modelled.
- `userAvatar` (useTaskLogic.js:36-39): URL building with `encodeURIComponent`, a library call.
- `logout` (useTaskLogic.js:168-179): it only touches local storage, the router and a notification. None of the modelled state changes.
- `onMounted` (useTaskLogic.js:190-193): it starts the profile fetch and the task fetch without ordering them. Each is modelled as its own method; their interleaving is not.
- Notifications (SweetAlert), console logging and `router.push`. The redirect to login is the result of `FetchUserData`; the dialog's answer is the `confirmed` input of `RemoveTask`.
- JavaScript `Date` parsing and time zones (useTaskLogic.js:97-100). Dates are abstract integer instants, and the start of today is a parameter.
- Strings are sequences of Unicode scalar values, not UTF-16 code units. Unpaired surrogates are not modelled.
- The HTTP services (src/API/task/task.service.js, src/API/user/user.service.js, src/API/auth/auth.service.js) are represented only by the outcomes they deliver. Headers, URLs and the bearer token are not modelled.
- `formatDate` (src/utils/formatDate.js) delegates to the locale-dependent `toLocaleDateString`. The route table (src/router/index.js) is static configuration.
- Two overlapping submissions (the unguarded double-submit race) are not modelled. Each method runs to completion, and each remote outcome is given to it at once.
