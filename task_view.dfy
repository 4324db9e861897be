/** The state of the task page and the operations that change it. Every
    remote call (profile, task list, add, complete, delete) and the delete
    confirmation dialog is an input of the operation that makes it: its
    outcome is given, not computed. */
module TaskView {
  import opened Text
  import opened TaskLogic

  /** The user shown until the profile has been fetched. */
  const LoadingUser := User("", "Loading...", "", "")

  class TaskState {
    /** The session token, read once when the page state is created. */
    const token: Option<string>

    var tasks: seq<Task>
    var statusFilter: string
    var currentPage: int
    var showTaskForm: bool
    var user: User
    var newTitle: string
    var newDescription: string
    var newPriority: string
    var newDueDate: Option<int>
    var errors: Errors

    /** The form fields, the form flag and the error map hold their defaults. */
    ghost predicate FormIsReset()
      reads this
    {
      && newTitle == "" && newDescription == "" && newPriority == "Low"
      && newDueDate == None && !showTaskForm && errors == NoErrors
    }

    constructor (token: Option<string>)
      ensures this.token == token
      ensures tasks == [] && statusFilter == "" && currentPage == 1
      ensures user == LoadingUser
      ensures FormIsReset()
    {
      this.token := token;
      tasks := [];
      statusFilter := "";
      currentPage := 1;
      showTaskForm := false;
      user := LoadingUser;
      newTitle := "";
      newDescription := "";
      newPriority := "Low";
      newDueDate := None;
      errors := NoErrors;
    }

    /** The token is truthy: present and not the empty string, so both a
        missing token and "" send the user to the login page. */
    predicate HasToken()
      reads this
      ensures !HasToken() <==> token == None || token == Some("")
    {
      token.Some? && token.value != ""
    }

    /** The tasks the status filter lets through. */
    function Filtered(): seq<Task>
      reads this
    {
      FilteredTasks(tasks, statusFilter)
    }

    /** The number of pages of the filtered tasks. */
    function PageCount(): nat
      reads this
    {
      TotalPages(|Filtered()|)
    }

    /** The filtered tasks on the current page. */
    function CurrentPageTasks(): seq<Task>
      reads this
    {
      PaginatedTasks(Filtered(), currentPage)
    }

    /** What the page shows: at most five tasks, none on a page after the
        last (which nothing prevents, since no operation moves the current
        page), and some on every page up to the last when a task passes the
        filter. */
    lemma CurrentPageView()
      requires currentPage >= 1
      ensures PageCount() >= 1 && |CurrentPageTasks()| <= PageSize
      ensures currentPage > PageCount() ==> CurrentPageTasks() == []
      ensures currentPage <= PageCount() && Filtered() != [] ==> CurrentPageTasks() != []
    {
      PagesInRange(Filtered(), currentPage);
    }

    /** Loads the profile. Without a token, or when the profile request
        fails, the user is sent to the login page and `user` is kept. */
    method FetchUserData(profile: Option<User>) returns (redirectToLogin: bool)
      modifies this`user
      ensures redirectToLogin <==> !HasToken() || profile.None?
      ensures user == if redirectToLogin then old(user) else profile.value
    {
      if !HasToken() {
        return true;
      }
      if profile.None? {
        return true;
      }
      user := profile.value;
      redirectToLogin := false;
    }

    /** Replaces the list with the fetched one; a failed request keeps it. */
    method FetchTasks(response: TaskListResponse)
      modifies this`tasks
      ensures tasks == AfterFetch(old(tasks), response)
      ensures response.Failed? ==> tasks == old(tasks)
      ensures statusFilter == old(statusFilter) && currentPage == old(currentPage)
    {
      match response
      case Failed =>
      case Delivered(fetched) =>
        tasks := if fetched.Some? then fetched.value else [];
    }

    /** Clears the error map, then checks title, description and due date
        one after the other, setting each failing field's message.
        `today` is the start of the current day. */
    method ValidateForm(today: int) returns (isValid: bool)
      modifies this`errors
      ensures errors == FormErrors(newTitle, newDescription, newDueDate, today)
      ensures isValid <==> FormAcceptable(newTitle, newDescription, newDueDate, today)
      ensures isValid <==> errors == NoErrors
    {
      ghost var expected := FormErrors(newTitle, newDescription, newDueDate, today);
      AcceptableIffNoErrors(newTitle, newDescription, newDueDate, today);
      isValid := true;
      errors := NoErrors;

      if Trim(newTitle) == "" {
        errors := errors.(title := TitleRequired);
        isValid := false;
      }
      assert errors.title == expected.title;

      if Trim(newDescription) == "" {
        errors := errors.(description := DescriptionRequired);
        isValid := false;
      }
      assert errors.description == expected.description;

      if newDueDate.None? {
        errors := errors.(dueDate := DueDateRequired);
        isValid := false;
      } else {
        if newDueDate.value < today {
          errors := errors.(dueDate := DueDateInPast);
          isValid := false;
        }
      }
      assert errors.dueDate == expected.dueDate;
    }

    /** Puts the form back to its defaults; the list, filter and page stay. */
    method ResetTaskForm()
      modifies this`newTitle, this`newDescription, this`newPriority, this`newDueDate,
               this`showTaskForm, this`errors
      ensures FormIsReset()
      ensures tasks == old(tasks) && statusFilter == old(statusFilter)
      ensures currentPage == old(currentPage)
    {
      newTitle := "";
      newDescription := "";
      newPriority := "Low";
      newDueDate := None;
      showTaskForm := false;
      errors := NoErrors;
    }

    /** Sends the form with title and description trimmed. The form is not
        validated here. When the server accepts the task, the form is reset
        and the list refetched; when it refuses, nothing changes. */
    method AddTask(created: bool, refetch: TaskListResponse) returns (payload: NewTask)
      modifies this`newTitle, this`newDescription, this`newPriority, this`newDueDate,
               this`showTaskForm, this`errors, this`tasks
      ensures payload.title == Trim(old(newTitle))
      ensures payload.description == Trim(old(newDescription))
      ensures payload.dueDate == old(newDueDate) && payload.priority == old(newPriority)
      ensures created ==> FormIsReset() && tasks == AfterFetch(old(tasks), refetch)
      ensures !created ==> tasks == old(tasks) && newTitle == old(newTitle)
                           && newDescription == old(newDescription)
                           && newPriority == old(newPriority) && newDueDate == old(newDueDate)
                           && showTaskForm == old(showTaskForm) && errors == old(errors)
      ensures user == old(user) && statusFilter == old(statusFilter)
      ensures currentPage == old(currentPage)
    {
      payload := NewTask(Trim(newTitle), Trim(newDescription), newDueDate, newPriority);
      if created {
        ResetTaskForm();
        FetchTasks(refetch);
      }
    }

    /** Marks a task completed on the server; on success the list is
        refetched, on failure the local list is kept. */
    method CompleteTask(taskId: string, completed: bool, refetch: TaskListResponse)
      modifies this`tasks
      ensures tasks == if completed then AfterFetch(old(tasks), refetch) else old(tasks)
    {
      if completed {
        FetchTasks(refetch);
      }
    }

    /** Deletes a task after the user confirms. Declined: no request, no
        change. Deleted: the task is dropped from the local list. Refused by
        the server: the local list is left alone and then refetched. */
    method RemoveTask(taskId: string, confirmed: bool, deleteSucceeded: bool,
                      refetch: TaskListResponse) returns (deleteRequested: bool)
      modifies this`tasks
      ensures deleteRequested == confirmed
      ensures !confirmed ==> tasks == old(tasks)
      ensures confirmed && deleteSucceeded ==> tasks == WithoutTask(old(tasks), taskId)
      ensures confirmed && !deleteSucceeded ==> tasks == AfterFetch(old(tasks), refetch)
      ensures statusFilter == old(statusFilter) && currentPage == old(currentPage)
    {
      if !confirmed {
        return false;
      }
      deleteRequested := true;
      if deleteSucceeded {
        tasks := WithoutTask(tasks, taskId);
      } else {
        FetchTasks(refetch);
      }
    }
  }
}
