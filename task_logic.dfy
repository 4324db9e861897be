/** The values of the task-list view and the pure computations over them:
    the status filter, the page count, the page slice, the removal of a
    deleted task, the task-form validation and the error notice. */
module TaskLogic {
  import opened Text
  import opened Lists

  datatype Option<T> = None | Some(value: T)

  /** A task as the server returns it. Status and priority are the strings
      the server sends ("Pending"/"Completed", "Low"/"Medium"/"High"); the
      status filter is compared with the status as a string. */
  datatype Task = Task(id: string, title: string, description: string,
                       dueDate: string, priority: string, status: string)

  /** The profile of the logged-in user. */
  datatype User = User(id: string, name: string, email: string, createdAt: string)

  /** What the task form sends to the server when a task is added. */
  datatype NewTask = NewTask(title: string, description: string,
                             dueDate: Option<int>, priority: string)

  /** The outcome of the task-list request: a failure, or a response whose
      `tasks` field may be absent or null. */
  datatype TaskListResponse = Failed | Delivered(tasksField: Option<seq<Task>>)

  /** A failed remote call: no response at all, or a server rejection whose
      body may carry a message. */
  datatype RemoteError = NoResponse | Rejected(message: Option<string>)

  /** The per-field messages of the task form; "" means no error. */
  datatype Errors = Errors(title: string, description: string, dueDate: string)

  const NoErrors := Errors("", "", "")
  const TitleRequired := "Task title is required"
  const DescriptionRequired := "Task description is required"
  const DueDateRequired := "Due date is required"
  const DueDateInPast := "Due date cannot be in the past"

  /** The fixed number of tasks on a page. */
  const PageSize: nat := 5

  // ---------------------------------------------------------------------
  // Derived list views

  function HasStatus(status: string): Task -> bool
  {
    (t: Task) => t.status == status
  }

  /** `filteredTasks`: every task when the filter is "", otherwise the tasks
      whose status is the filter. */
  function FilteredTasks(tasks: seq<Task>, filter: string): (r: seq<Task>)
    ensures filter == "" ==> r == tasks
    ensures |r| <= |tasks|
    ensures forall i :: 0 <= i < |r| ==> filter == "" || r[i].status == filter
  {
    if filter == "" then tasks else Filter(HasStatus(filter), tasks)
  }

  /** With a filter set, `filteredTasks` holds exactly the tasks with that
      status, each as often as in `tasks`, in their original order. */
  lemma FilteredTasksExact(tasks: seq<Task>, filter: string)
    requires filter != ""
    ensures forall t :: t in FilteredTasks(tasks, filter) <==> t in tasks && t.status == filter
    ensures forall t :: multiset(FilteredTasks(tasks, filter))[t]
                        == if t.status == filter then multiset(tasks)[t] else 0
    ensures IsSubsequence(FilteredTasks(tasks, filter), tasks)
  {
    forall t ensures t in FilteredTasks(tasks, filter) <==> t in tasks && t.status == filter {
      FilterMember(HasStatus(filter), tasks, t);
    }
    FilterCount(HasStatus(filter), tasks);
    FilterIsSubsequence(HasStatus(filter), tasks);
  }

  /** Math.ceil(count / size) for a positive size. */
  function CeilDiv(count: nat, size: nat): nat
    requires size > 0
  {
    (count + size - 1) / size
  }

  /** `totalPages`: the number of pages of `count` tasks, `Math.ceil(count / 5) || 1`. */
  function TotalPages(count: nat): (r: nat)
    ensures r >= 1
    ensures count == 0 ==> r == 1
    ensures count > 0 ==> (r - 1) * PageSize < count <= r * PageSize
  {
    var pages := CeilDiv(count, PageSize);
    if pages == 0 then 1 else pages
  }

  /** `paginatedTasks`: `filtered.slice(start, start + 5)` with the 0-based
      offset `start = (page - 1) * 5`. Page 0 is empty; a negative page, as
      JavaScript's slice does with negative bounds, counts back from the end. */
  function PaginatedTasks(filtered: seq<Task>, page: int): (r: seq<Task>)
    ensures page >= 1 ==> |r| <= PageSize
    ensures page >= 1 ==>
              r == if (page - 1) * PageSize <= |filtered|
                   then filtered[(page - 1) * PageSize .. Min(page * PageSize, |filtered|)]
                   else []
    ensures page == 0 ==> r == []
    ensures page < 0 && -|filtered| <= (page - 1) * PageSize ==>
              r == filtered[|filtered| + (page - 1) * PageSize .. |filtered| + page * PageSize]
  {
    var start := (page - 1) * PageSize;
    var s := Slice(filtered, start, start + PageSize);
    assert page >= 1 && start <= |filtered| ==>
             s == filtered[start .. Min(page * PageSize, |filtered|)];
    s
  }

  /** Pages 1 to `k`, one after the other. */
  function PagesThrough(filtered: seq<Task>, k: nat): seq<Task>
  {
    if k == 0 then [] else PagesThrough(filtered, k - 1) + PaginatedTasks(filtered, k)
  }

  /** Pages 1 to `k` are the first `k * 5` tasks (or all of them). */
  lemma {:induction false} PagesThroughIsPrefix(filtered: seq<Task>, k: nat)
    ensures PagesThrough(filtered, k) == filtered[..Min(k * PageSize, |filtered|)]
  {
    if k > 0 {
      PagesThroughIsPrefix(filtered, k - 1);
      var a := Min((k - 1) * PageSize, |filtered|);
      var b := Min(k * PageSize, |filtered|);
      assert filtered[..b] == filtered[..a] + filtered[a..b];
    }
  }

  /** The pages 1 to `totalPages` put together are exactly the filtered list:
      no task is on two pages and none is on no page. */
  lemma PagesPartitionFiltered(filtered: seq<Task>)
    ensures PagesThrough(filtered, TotalPages(|filtered|)) == filtered
  {
    PagesThroughIsPrefix(filtered, TotalPages(|filtered|));
    assert filtered[..|filtered|] == filtered;
  }

  /** Task `i` of the filtered list is task `i % 5` of page `i / 5 + 1`, a
      page within `totalPages`. */
  lemma PageOfIndex(filtered: seq<Task>, i: nat)
    requires i < |filtered|
    ensures i / PageSize + 1 <= TotalPages(|filtered|)
    ensures i % PageSize < |PaginatedTasks(filtered, i / PageSize + 1)|
    ensures PaginatedTasks(filtered, i / PageSize + 1)[i % PageSize] == filtered[i]
  {
  }

  /** A page after `totalPages` is empty; a page from 1 to `totalPages` of a
      non-empty list is not. */
  lemma PagesInRange(filtered: seq<Task>, page: int)
    requires page >= 1
    ensures page > TotalPages(|filtered|) ==> PaginatedTasks(filtered, page) == []
    ensures page <= TotalPages(|filtered|) && filtered != [] ==> PaginatedTasks(filtered, page) != []
  {
  }

  function PendingTask(id: string): Task
  {
    Task(id, "t", "d", "", "Low", "Pending")
  }

  /** Five pending tasks, "a" to "e". */
  function FiveTasks(): seq<Task>
  {
    [PendingTask("a"), PendingTask("b"), PendingTask("c"), PendingTask("d"), PendingTask("e")]
  }

  /** Nothing moves the current page when tasks go away: with six tasks,
      page 2 shows the sixth; once it is deleted there is one page, and
      page 2, still the current page, is empty. */
  lemma DeleteCanEmptyCurrentPage()
    ensures var tasks := FiveTasks() + [PendingTask("f")];
            var after := WithoutTask(tasks, "f");
            && PaginatedTasks(FilteredTasks(tasks, ""), 2) == [PendingTask("f")]
            && TotalPages(|FilteredTasks(after, "")|) == 1
            && PaginatedTasks(FilteredTasks(after, ""), 2) == []
  {
    var first := FiveTasks();
    var tasks := first + [PendingTask("f")];
    assert forall i :: 0 <= i < |first| ==> first[i].id != "f";
    FilterKeepsAll(IdIsNot("f"), first);
    FilterConcat(IdIsNot("f"), first, [PendingTask("f")]);
    assert WithoutTask(tasks, "f") == first;
    assert PaginatedTasks(tasks, 2) == tasks[5..6];
  }

  /** The list after a response of the task-list request: a failure keeps
      the current list, an absent `tasks` field gives the empty list. */
  function AfterFetch(current: seq<Task>, response: TaskListResponse): (r: seq<Task>)
    ensures response.Failed? ==> r == current
    ensures response.Delivered? && response.tasksField.None? ==> r == []
    ensures response.Delivered? && response.tasksField.Some? ==> r == response.tasksField.value
  {
    match response
    case Failed => current
    case Delivered(None) => []
    case Delivered(Some(fetched)) => fetched
  }

  function IdIsNot(taskId: string): Task -> bool
  {
    (t: Task) => t.id != taskId
  }

  /** The local list after a confirmed delete of `taskId` succeeded. */
  function WithoutTask(tasks: seq<Task>, taskId: string): (r: seq<Task>)
    ensures |r| <= |tasks|
    ensures forall i :: 0 <= i < |r| ==> r[i].id != taskId
  {
    Filter(IdIsNot(taskId), tasks)
  }

  /** Removal keeps every other task, as often as it occurs and in order. */
  lemma WithoutTaskExact(tasks: seq<Task>, taskId: string)
    ensures forall t :: t in WithoutTask(tasks, taskId) <==> t in tasks && t.id != taskId
    ensures forall t :: multiset(WithoutTask(tasks, taskId))[t]
                        == if t.id != taskId then multiset(tasks)[t] else 0
    ensures IsSubsequence(WithoutTask(tasks, taskId), tasks)
  {
    forall t ensures t in WithoutTask(tasks, taskId) <==> t in tasks && t.id != taskId {
      FilterMember(IdIsNot(taskId), tasks, t);
    }
    FilterCount(IdIsNot(taskId), tasks);
    FilterIsSubsequence(IdIsNot(taskId), tasks);
  }

  /** Removing an id no task has changes nothing. */
  lemma WithoutAbsentTask(tasks: seq<Task>, taskId: string)
    requires forall i :: 0 <= i < |tasks| ==> tasks[i].id != taskId
    ensures WithoutTask(tasks, taskId) == tasks
  {
    FilterKeepsAll(IdIsNot(taskId), tasks);
  }

  // ---------------------------------------------------------------------
  // Task form

  /** The due-date check: a date is required and may not lie before the
      start of today. */
  function DueDateError(dueDate: Option<int>, today: int): (m: string)
    ensures m == DueDateRequired <==> dueDate.None?
    ensures m == DueDateInPast <==> dueDate.Some? && dueDate.value < today
    ensures m == "" <==> dueDate.Some? && today <= dueDate.value
  {
    if dueDate.None? then DueDateRequired
    else if dueDate.value < today then DueDateInPast
    else ""
  }

  /** The error map `validateForm` leaves: each field's message is set
      exactly when that field's own check fails. */
  function FormErrors(title: string, description: string, dueDate: Option<int>, today: int): (e: Errors)
    ensures e.title != "" <==> IsBlank(title)
    ensures e.description != "" <==> IsBlank(description)
    ensures e.dueDate != "" <==> dueDate.None? || dueDate.value < today
    ensures e.dueDate == DueDateError(dueDate, today)
    ensures e.title != "" ==> e.title == TitleRequired
    ensures e.description != "" ==> e.description == DescriptionRequired
  {
    Errors(if Trim(title) == "" then TitleRequired else "",
           if Trim(description) == "" then DescriptionRequired else "",
           DueDateError(dueDate, today))
  }

  /** The form is acceptable: title and description each hold a character
      that is not white space, and the due date is given and not in the past. */
  predicate FormAcceptable(title: string, description: string, dueDate: Option<int>, today: int)
  {
    !IsBlank(title) && !IsBlank(description) && dueDate.Some? && today <= dueDate.value
  }

  /** The form is acceptable exactly when the error map is all "". */
  lemma AcceptableIffNoErrors(title: string, description: string, dueDate: Option<int>, today: int)
    ensures FormAcceptable(title, description, dueDate, today)
            <==> FormErrors(title, description, dueDate, today) == NoErrors
  {
  }

  /** The payload `addTask` sends for an acceptable form has a non-empty title
      and description, neither starting nor ending with white space. */
  lemma AcceptablePayloadIsTrimmed(title: string, description: string, dueDate: Option<int>, today: int)
    requires FormAcceptable(title, description, dueDate, today)
    ensures Trim(title) != [] && !IsWhitespace(Trim(title)[0])
            && !IsWhitespace(Trim(title)[|Trim(title)| - 1])
    ensures Trim(description) != [] && !IsWhitespace(Trim(description)[0])
            && !IsWhitespace(Trim(description)[|Trim(description)| - 1])
  {
  }

  // ---------------------------------------------------------------------
  // Error notice

  /** `handleError`: the text of the error notice, the server's message when
      the server rejected the call with a non-empty message, otherwise the
      caller's default. */
  function ErrorNotice(error: RemoteError, default: string): (m: string)
    ensures m == default || (error.Rejected? && error.message == Some(m) && m != "")
    ensures error.Rejected? && error.message.Some? && error.message.value != ""
            ==> m == error.message.value
    ensures error.NoResponse? ==> m == default
  {
    match error
    case NoResponse => default
    case Rejected(message) =>
      if message.Some? && message.value != "" then message.value else default
  }
}
