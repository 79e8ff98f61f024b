/** The tasks panel (src/components/dashboard/TasksSection.tsx): the component state and
    the handlers that change it. Each asynchronous handler is one atomic step whose remote
    call is replaced by the outcome it receives; the method returns the request it sends
    and whether it dispatches the statistics refresh event. */
module Tasks {
  import opened Common
  import opened Text
  import opened TaskList

  /** The row `addTask` inserts. */
  datatype TaskInsert = TaskInsert(title: string, description: Option<string>, userId: string)

  /** The fields `updateTask` writes to the row with id `id`. */
  datatype TaskUpdate = TaskUpdate(id: string, title: string, description: Option<string>, updatedAt: string)

  /** The fields `toggleTaskComplete` writes to the row with id `id`. */
  datatype CompletionUpdate = CompletionUpdate(id: string, completed: bool, updatedAt: string)

  /** The insert built from the add form: the title as typed (not trimmed), an empty
      description sent as null. */
  function InsertRequestFor(draft: TaskDraft, userId: string): (r: TaskInsert)
    ensures r.title == draft.title && r.userId == userId
    ensures OrEmpty(r.description) == draft.description && r.description != Some("")
  {
    TaskInsert(draft.title, NullIfEmpty(draft.description), userId)
  }

  /** The update built from the edit form, the same way. */
  function UpdateRequestFor(id: string, draft: TaskDraft, now: string): (r: TaskUpdate)
    ensures r.id == id && r.title == draft.title && r.updatedAt == now
    ensures OrEmpty(r.description) == draft.description && r.description != Some("")
  {
    TaskUpdate(id, draft.title, NullIfEmpty(draft.description), now)
  }

  /** `data || []`. */
  function RowsOrEmpty(data: Option<seq<Task>>): seq<Task> {
    match data
    case None => []
    case Some(rows) => rows
  }

  /** Opening the edit form on a task and saving it untouched sends the task's own title
      and description back, except that an empty description is sent as null. */
  lemma SaveUnchangedEdit(t: Task, now: string)
    ensures UpdateRequestFor(t.id, EditDraftOf(t), now).title == t.title
    ensures UpdateRequestFor(t.id, EditDraftOf(t), now).description
            == (if t.description == Some("") then None else t.description)
  {
  }

  class TasksSection {
    const userId: string
    var tasks: seq<Task>
    var loading: bool
    var adding: bool
    var submitting: bool
    /** The id of the task whose edit form is open, if any. */
    var editing: Option<string>
    var newTask: TaskDraft
    var editTask: TaskDraft
    var error: string

    /** The guard at the top of `addTask`: a blank title, or an insert already in flight. */
    predicate AddBlocked()
      reads this
    {
      Trim(newTask.title) == [] || submitting
    }

    /** The initial state of the component's `useState` hooks for a signed-in user. */
    constructor (userId: string)
      ensures this.userId == userId
      ensures tasks == [] && loading && !adding && !submitting && editing == None
      ensures newTask == EmptyDraft && editTask == EmptyDraft && error == ""
    {
      this.userId := userId;
      tasks, loading, adding, submitting, editing := [], true, false, false, None;
      newTask, editTask, error := EmptyDraft, EmptyDraft, "";
    }

    /** `fetchTasks`: a successful query replaces the list (a null result counting as no
        rows); a failed one keeps it and records the message. Loading ends either way. */
    method FetchTasks(outcome: Result<Option<seq<Task>>>)
      modifies this`tasks, this`loading, this`error
      ensures !loading
      ensures outcome.Ok? ==> tasks == RowsOrEmpty(outcome.value) && error == old(error)
      ensures outcome.Err? ==> tasks == old(tasks) && error == outcome.msg
    {
      match outcome {
        case Ok(data) => tasks := RowsOrEmpty(data);
        case Err(msg) => error := msg;
      }
      loading := false;
    }

    /** The realtime channel's callback. */
    method OnRealtimeEvent(ev: RealtimeEvent)
      modifies this`tasks
      ensures tasks == ApplyEvent(old(tasks), ev)
    {
      match ev
      case Insert(row) => tasks := Prepend(row, tasks);
      case Update(row) => tasks := ReplaceById(tasks, row);
      case Delete(id) => tasks := RemoveById(tasks, id);
    }

    /** `addTask`. Blocked: nothing is sent and nothing changes. Otherwise the form is
        sent as typed; on success the stored row is prepended, the form is cleared and
        closed and the statistics are told to refresh; on failure only the message is
        recorded. `submitting` is false afterwards. */
    method AddTask(outcome: Result<Task>) returns (sent: Option<TaskInsert>, refresh: bool)
      modifies this`tasks, this`newTask, this`adding, this`submitting, this`error
      ensures old(AddBlocked()) ==> sent == None && !refresh && unchanged(this)
      ensures !old(AddBlocked()) ==> sent == Some(InsertRequestFor(old(newTask), userId)) && !submitting
      ensures !old(AddBlocked()) && outcome.Ok? ==>
                && tasks == Prepend(outcome.value, old(tasks))
                && newTask == EmptyDraft && !adding && error == old(error) && refresh
      ensures !old(AddBlocked()) && outcome.Err? ==>
                && tasks == old(tasks) && newTask == old(newTask) && adding == old(adding)
                && error == outcome.msg && !refresh
    {
      if Trim(newTask.title) == [] || submitting {
        return None, false;
      }
      submitting := true;
      sent := Some(InsertRequestFor(newTask, userId));
      match outcome {
        case Ok(row) =>
          tasks := Prepend(row, tasks);
          newTask := EmptyDraft;
          adding := false;
          refresh := true;
        case Err(msg) =>
          error := msg;
          refresh := false;
      }
      submitting := false;
    }

    /** `updateTask`: sends the edit buffer for `taskId`. It never touches the list: on
        success the edit form closes, on failure it stays open and the message is kept. */
    method UpdateTask(taskId: string, now: string, outcome: Status) returns (sent: TaskUpdate, refresh: bool)
      modifies this`editing, this`error
      ensures sent == UpdateRequestFor(taskId, editTask, now)
      ensures tasks == old(tasks)
      ensures outcome.Success? ==> editing == None && error == old(error) && refresh
      ensures outcome.Failure? ==> editing == old(editing) && error == outcome.msg && !refresh
    {
      sent := UpdateRequestFor(taskId, editTask, now);
      match outcome
      case Success =>
        editing := None;
        refresh := true;
      case Failure(msg) =>
        error := msg;
        refresh := false;
    }

    /** `toggleTaskComplete(taskId, completed)`: writes `!completed`, and only once the
        store accepted it sets that flag on the matching tasks. */
    method ToggleTaskComplete(taskId: string, completed: bool, now: string, outcome: Status)
      returns (sent: CompletionUpdate, refresh: bool)
      modifies this`tasks, this`error
      ensures sent == CompletionUpdate(taskId, !completed, now)
      ensures outcome.Success? ==>
                tasks == SetCompleted(old(tasks), taskId, !completed) && error == old(error) && refresh
      ensures outcome.Failure? ==> tasks == old(tasks) && error == outcome.msg && !refresh
    {
      sent := CompletionUpdate(taskId, !completed, now);
      match outcome
      case Success =>
        tasks := SetCompleted(tasks, taskId, !completed);
        refresh := true;
      case Failure(msg) =>
        error := msg;
        refresh := false;
    }

    /** `deleteTask(taskId)`: only once the store accepted the delete are the tasks with
        that id dropped from the list. */
    method DeleteTask(taskId: string, outcome: Status) returns (refresh: bool)
      modifies this`tasks, this`error
      ensures outcome.Success? ==> tasks == RemoveById(old(tasks), taskId) && error == old(error) && refresh
      ensures outcome.Failure? ==> tasks == old(tasks) && error == outcome.msg && !refresh
    {
      match outcome
      case Success =>
        tasks := RemoveById(tasks, taskId);
        refresh := true;
      case Failure(msg) =>
        error := msg;
        refresh := false;
    }

    /** `startEditing(task)`: opens the edit form on the task with its title and
        description (null read as empty). */
    method StartEditing(task: Task)
      modifies this`editing, this`editTask
      ensures editing == Some(task.id) && editTask == EditDraftOf(task)
    {
      editing := Some(task.id);
      editTask := EditDraftOf(task);
    }

    /** The "Add Task" button. */
    method OpenAddForm()
      modifies this`adding
      ensures adding
    {
      adding := true;
    }

    /** The add form's Cancel button: closes the form and clears it. */
    method CancelAdd()
      modifies this`adding, this`newTask
      ensures !adding && newTask == EmptyDraft
    {
      adding := false;
      newTask := EmptyDraft;
    }

    /** Typing in the add form's title field. */
    method SetNewTitle(title: string)
      modifies this`newTask
      ensures newTask == old(newTask).(title := title)
    {
      newTask := newTask.(title := title);
    }

    /** Typing in the add form's description field. */
    method SetNewDescription(description: string)
      modifies this`newTask
      ensures newTask == old(newTask).(description := description)
    {
      newTask := newTask.(description := description);
    }

    /** Typing in the edit form's title field. */
    method SetEditTitle(title: string)
      modifies this`editTask
      ensures editTask == old(editTask).(title := title)
    {
      editTask := editTask.(title := title);
    }

    /** Typing in the edit form's description field. */
    method SetEditDescription(description: string)
      modifies this`editTask
      ensures editTask == old(editTask).(description := description)
    {
      editTask := editTask.(description := description);
    }

    /** The edit form's Cancel button: closes the form, keeping the buffer. */
    method CancelEditing()
      modifies this`editing
      ensures editing == None
    {
      editing := None;
    }
  }

  /** A signed-in user with no tasks adds one; the store's INSERT notification for that
      same row then arrives, and the list shows the task twice. */
  method AddThenEchoScenario(userId: string, title: string, row: Task)
    returns (sent: Option<TaskInsert>, mirror: seq<Task>)
    requires Trim(title) != []
    ensures sent == Some(TaskInsert(title, None, userId))
    ensures mirror == [row, row] && !UniqueIds(mirror)
  {
    var section := new TasksSection(userId);
    section.FetchTasks(Ok(Some([])));
    assert section.tasks == [] && !section.submitting;
    section.OpenAddForm();
    section.SetNewTitle(title);
    assert section.newTask == TaskDraft(title, "") && !section.submitting;
    assert Trim(section.newTask.title) == Trim(title);
    assert NullIfEmpty("") == None;
    var refresh;
    sent, refresh := section.AddTask(Ok(row));
    assert section.tasks == [row];
    section.OnRealtimeEvent(Insert(row));
    mirror := section.tasks;
    assert mirror == [row, row];
    assert mirror[0].id == mirror[1].id;
  }

  /** A title of spaces only is refused before anything is sent, and the list is kept. */
  method BlankTitleScenario(userId: string, rows: seq<Task>, row: Task)
    returns (sent: Option<TaskInsert>, mirror: seq<Task>)
    ensures sent == None && mirror == rows
  {
    var section := new TasksSection(userId);
    section.FetchTasks(Ok(Some(rows)));
    assert section.tasks == rows;
    section.OpenAddForm();
    section.SetNewTitle("   ");
    assert section.tasks == rows && section.newTask.title == "   ";
    assert TrimStart("   ") == [] by { TrimEmptyIffBlank("   "); }
    assert section.AddBlocked();
    var refresh;
    sent, refresh := section.AddTask(Ok(row));
    mirror := section.tasks;
  }
}
