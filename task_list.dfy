/** A trip's task list: the status filter, the tab counts, and the payloads of toggle, save and edit. */
module TaskList {
  import opened Common
  import opened Dates
  import opened Records
  import opened Seqs

  predicate IsCompletedTask(t: Task) {
    t.completed
  }

  predicate IsPendingTask(t: Task) {
    !t.completed
  }

  /** `filteredTasks`: 'completed' keeps the done tasks, 'pending' the open ones, any other value all. */
  function FilteredTasks(tasks: seq<Task>, filter: string): (r: seq<Task>)
    ensures IsSubseq(r, tasks)
    ensures filter == "completed" ==> r == Filter(IsCompletedTask, tasks)
    ensures filter == "pending" ==> r == Filter(IsPendingTask, tasks)
    ensures filter == "completed" ==> forall t :: t in r <==> t in tasks && t.completed
    ensures filter == "pending" ==> forall t :: t in r <==> t in tasks && !t.completed
    ensures filter != "completed" && filter != "pending" ==> r == tasks
  {
    var keep := (t: Task) => if filter == "completed" then t.completed else if filter == "pending" then !t.completed else true;
    if filter == "completed" then
      FilterExt(keep, IsCompletedTask, tasks);
      Filter(keep, tasks)
    else if filter == "pending" then
      FilterExt(keep, IsPendingTask, tasks);
      Filter(keep, tasks)
    else
      FilterAll(keep, tasks);
      Filter(keep, tasks)
  }

  /** The three tab counts. */
  datatype TabCounts = TabCounts(all: nat, pending: nat, completed: nat)

  function Counts(tasks: seq<Task>): (c: TabCounts)
    ensures c.pending + c.completed == c.all
    ensures c.all == |tasks|
    ensures c.pending == |FilteredTasks(tasks, "pending")| && c.completed == |FilteredTasks(tasks, "completed")|
  {
    var pending := Filter(IsPendingTask, tasks);
    var done := Filter(IsCompletedTask, tasks);
    FilterSplit(IsPendingTask, IsCompletedTask, tasks);
    TabCounts(|tasks|, |pending|, |done|)
  }

  /** `handleToggleComplete`: the update body flips the flag. */
  function ToggleBody(t: Task): (completed: bool)
    ensures completed != t.completed
  {
    !t.completed
  }

  /** The form's fields: `due_date` holds the date input's text. */
  datatype TaskForm = TaskForm(title: string, description: string, dueDateText: string)

  datatype SaveMethod = Post | Put(taskId: string)

  /** The body `{...formData, tripId, completed: false}` and how it is sent. */
  datatype TaskSave = TaskSave(verb: SaveMethod, form: TaskForm, tripId: string, completed: bool)

  /** `handleSubmit`: a new task is posted, an edited one put; both as not completed, for this trip. */
  function SaveTask(form: TaskForm, tripId: string, editing: Option<Task>): (r: TaskSave)
    ensures r.completed == false && r.tripId == tripId && r.form == form
    ensures r.verb.Put? <==> editing.Some?
    ensures editing.Some? ==> r.verb == Put(editing.value.id)
  {
    TaskSave(if editing.Some? then Put(editing.value.id) else Post, form, tripId, false)
  }

  /** Saving an edit of a completed task reopens it. */
  lemma SaveReopensTask(form: TaskForm, tripId: string, t: Task)
    requires t.completed
    ensures SaveTask(form, tripId, Some(t)).completed != t.completed
  {
  }

  /**
   * `handleEdit` as written reads `task.due_date`, which a stored task does not have (its
   * field is `dueDate`), so the form always opens with an empty due date.
   */
  function EditFormAsWritten(t: Task): (f: TaskForm)
    ensures f.title == t.title && f.description == t.description
  {
    TaskForm(t.title, t.description, "")
  }

  /** A task due on 14 June 2024 opens for editing with no due date. */
  lemma EditFormAsWrittenDropsDueDate(t: Task)
    requires t.dueDate == Some(Date(2024, 6, 14))
    ensures EditFormAsWritten(t).dueDateText == ""
    ensures Parse(EditFormAsWritten(t).dueDateText) != t.dueDate
  {
  }

  /** `handleEdit` reading the stored due date: title and description copied, the due day as text. */
  function EditForm(t: Task): (f: TaskForm)
    ensures f.title == t.title && f.description == t.description
    ensures t.dueDate.None? ==> f.dueDateText == ""
    ensures t.dueDate.Some? ==> Parse(f.dueDateText) == t.dueDate
  {
    match t.dueDate
    case None => TaskForm(t.title, t.description, "")
    case Some(d) =>
      ParseFormat(d);
      TaskForm(t.title, t.description, Format(d))
  }
}
