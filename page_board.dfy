/**
 * The kanban board of `frontend/src/pages/PageBoard.jsx`: the task form's
 * timestamp encoding, the tag toggle, the four columns and the move
 * buttons.
 */
module PageBoard {
  import opened Wrappers
  import opened Strings
  import opened Seqs
  import opened Sorting
  import opened Entities
  import TaskDates

  // ---------------------------------------------------------------------
  // The task form

  /** The add/edit modal's fields. */
  datatype TaskForm = TaskForm(title: string, description: string, tags: seq<string>, timestamp: string, endDate: string)

  /** The body sent to the backend; an edit sends no status. */
  datatype TaskPayload = TaskPayload(title: string, description: string, tags: seq<string>, timestamp: string, status: Option<string>)

  /** The stored timestamp: the start alone, or "start:end" when an end other than the start is given. */
  function FormatTimestamp(start: string, end: string): string {
    if end != "" && end != start then start + ":" + end else start
  }

  /** `openEditTaskModal`: the form's (start, end) read back from a stored timestamp. */
  function ParseTimestamp(ts: string): (string, string) {
    if ts != "" && ':' in ts then (TaskDates.StartDate(ts), TaskDates.EndDate(ts))
    else if ts != "" && TaskDates.IsDashRange(ts) then (TaskDates.StartDate(ts), TaskDates.EndDate(ts))
    else (ts, "")
  }

  /** `handleAddTask`: nothing for a blank title, else the form with the column as status. */
  function AddPayload(form: TaskForm, column: string): (r: Option<TaskPayload>)
    ensures r.None? <==> IsBlank(form.title)
    ensures r.Some? ==> r.value == TaskPayload(form.title, form.description, form.tags,
                                              FormatTimestamp(form.timestamp, form.endDate), Some(column))
  {
    TrimEmptyIffBlank(form.title);
    if Trim(form.title) == "" then None
    else Some(TaskPayload(form.title, form.description, form.tags,
                          FormatTimestamp(form.timestamp, form.endDate), Some(column)))
  }

  /** `handleEditTask`: nothing for a blank title or when no task is being edited; the status is not sent. */
  function EditPayload(form: TaskForm, editing: Option<Task>): (r: Option<(string, TaskPayload)>)
    ensures r.None? <==> IsBlank(form.title) || editing.None?
    ensures r.Some? ==> r.value == (editing.value.id, TaskPayload(form.title, form.description, form.tags,
                                                                 FormatTimestamp(form.timestamp, form.endDate), None))
  {
    TrimEmptyIffBlank(form.title);
    if Trim(form.title) == "" || editing.None? then None
    else Some((editing.value.id, TaskPayload(form.title, form.description, form.tags,
                                              FormatTimestamp(form.timestamp, form.endDate), None)))
  }

  /**
   * Round trip for dates of at most ten characters without ':': what the
   * form stores reads back as the same start and end, except that an end
   * equal to the start reads back as no end.
   */
  lemma FormatThenParse(start: string, end: string)
    requires ':' !in start && ':' !in end && |start| <= 10
    ensures ParseTimestamp(FormatTimestamp(start, end)) == (start, if end == start then "" else end)
  {
    if end != "" && end != start {
      assert start + ":" + end + "" == start + ":" + end;
      TaskDates.ColonForm(start, end, "");
      assert (start + ":" + end)[|start|] == ':';
    }
  }

  /**
   * Saving the edit form of a dash-range task rewrites its timestamp in the
   * colon form, with the same start and end.
   */
  lemma EditRewritesDashRange(ts: string)
    requires TaskDates.IsDashRange(ts)
    requires TaskDates.StartDate(ts) != TaskDates.EndDate(ts)
    ensures var (s, e) := ParseTimestamp(ts);
      FormatTimestamp(s, e) == s + ":" + e &&
      TaskDates.StartDate(FormatTimestamp(s, e)) == TaskDates.StartDate(ts) &&
      TaskDates.EndDate(FormatTimestamp(s, e)) == TaskDates.EndDate(ts)
  {
    var p := Split(ts, '-');
    SplitAvoids(ts, '-', ':');
    assert ':' !in p[0] + "-" + p[1] + "-" + p[2];
    assert ':' !in p[3] + "-" + p[4] + "-" + p[5];
    var s, e := TaskDates.StartDate(ts), TaskDates.EndDate(ts);
    assert s + ":" + e + "" == s + ":" + e;
    TaskDates.ColonForm(s, e, "");
  }

  // ---------------------------------------------------------------------
  // Tag toggle

  /** `toggleTag`: drops the id when the form has it, appends it otherwise. */
  function ToggleTag(tags: seq<string>, id: string): (r: seq<string>)
    ensures forall x :: x in r <==> (x in tags) != (x == id)
  {
    if id in tags then Filter(tags, t => t != id) else tags + [id]
  }

  lemma ToggleKeepsNoDup(tags: seq<string>, id: string)
    requires NoDup(tags)
    ensures NoDup(ToggleTag(tags, id))
  {
    if id in tags {
      FilterNoDup(tags, t => t != id);
    }
  }

  /** Toggling an id the form lacks twice gives the list back. */
  lemma ToggleTwiceAbsent(tags: seq<string>, id: string)
    requires id !in tags
    ensures ToggleTag(ToggleTag(tags, id), id) == tags
  {
    FilterAppend(tags, [id], t => t != id);
    FilterAll(tags, t => t != id);
  }

  /** Toggling an id the form has twice moves it to the end. */
  lemma ToggleTwicePresent(tags: seq<string>, id: string)
    requires id in tags
    ensures ToggleTag(ToggleTag(tags, id), id) == Filter(tags, t => t != id) + [id]
  {
  }

  // ---------------------------------------------------------------------
  // Columns

  const Columns: seq<string> := ["todo", "in-progress", "completed", "overdue"]

  /**
   * `getTasksByStatus`'s filter: the Overdue column takes every task whose
   * end date is before today and that is not completed, whatever its
   * status; every other column takes the tasks with exactly its status.
   */
  predicate InColumn(t: Task, status: string, today: string) {
    if status == "overdue" then StrLess(TaskDates.EndDate(t.timestamp), today) && t.status != "completed"
    else t.status == status
  }

  /** The sort key: the task's end date is today. */
  function EndsToday(today: string): Task -> bool {
    (t: Task) => TaskDates.EndDate(t.timestamp) == today
  }

  function ColumnFilter(tasks: seq<Task>, status: string, today: string): (r: seq<Task>)
    ensures forall t :: t in r <==> t in tasks && InColumn(t, status, today)
  {
    Filter(tasks, t => InColumn(t, status, today))
  }

  /**
   * A column's tasks: the column's filter, stably sorted so that tasks
   * ending today come first; otherwise the page order is kept.
   */
  function ColumnTasks(tasks: seq<Task>, status: string, today: string): (r: seq<Task>)
    ensures forall t :: t in r <==> t in tasks && InColumn(t, status, today)
    ensures multiset(r) == multiset(ColumnFilter(tasks, status, today))
    ensures r == KeyClass(ColumnFilter(tasks, status, today), EndsToday(today), true)
               + KeyClass(ColumnFilter(tasks, status, today), EndsToday(today), false)
  {
    var f := ColumnFilter(tasks, status, today);
    var r := SortBy(f, EndsToday(today), TrueFirst);
    TrueFirstSplit(r, EndsToday(today));
    assert forall t :: t in r <==> t in multiset(r);
    r
  }

  /** A past-due task still marked "todo" shows in both the To Do and the Overdue column. */
  lemma PastDueTodoInTwoColumns(tasks: seq<Task>, t: Task, today: string)
    requires t in tasks && t.status == "todo" && StrLess(TaskDates.EndDate(t.timestamp), today)
    ensures t in ColumnTasks(tasks, "todo", today) && t in ColumnTasks(tasks, "overdue", today)
  {
  }

  /**
   * A task stored with the empty string as its timestamp that is not
   * completed is in the Overdue column (the empty end date sorts before
   * any day), although its card does not show it as overdue.
   */
  lemma UndatedTaskInOverdueColumn(tasks: seq<Task>, t: Task, today: string)
    requires t in tasks && t.timestamp == "" && t.status != "completed" && today != ""
    ensures t in ColumnTasks(tasks, "overdue", today)
  {
    assert TaskDates.EndDate(t.timestamp) == "";
  }

  // ---------------------------------------------------------------------
  // Moves

  datatype Direction = Left | Right | Complete

  /** `onMove` on the card in column `ci`: the status the task moves to, if any. */
  function MoveTarget(ci: nat, d: Direction): (r: Option<string>)
    requires ci < |Columns|
    ensures r != Some("overdue")
    ensures r.Some? ==> r.value in Columns
  {
    if d == Left && ci > 0 then Some(Columns[ci - 1])
    else if d == Right && ci < |Columns| - 2 then Some(Columns[ci + 1])
    else if d == Complete then Some("completed")
    else None
  }

  predicate CanMoveLeft(ci: nat)
    requires ci < |Columns|
  {
    ci > 0 && Columns[ci] != "overdue"
  }

  predicate CanMoveRight(ci: nat)
    requires ci < |Columns|
  {
    ci < |Columns| - 2 && Columns[ci] != "completed"
  }

  predicate CanComplete(ci: nat)
    requires ci < |Columns|
  {
    Columns[ci] != "completed" && Columns[ci] != "overdue"
  }

  /** Each enabled button moves the task: left one column, right one column, or to Completed. */
  lemma EnabledMovesAct(ci: nat)
    requires ci < |Columns|
    ensures CanMoveLeft(ci) ==> MoveTarget(ci, Left) == Some(Columns[ci - 1]) && ci < 3
    ensures CanMoveRight(ci) ==> MoveTarget(ci, Right) == Some(Columns[ci + 1]) && ci + 1 <= 2
    ensures CanComplete(ci) ==> MoveTarget(ci, Complete) == Some("completed") && ci < 2
    ensures CanMoveRight(ci) <==> ci < |Columns| - 2
  {
  }
}
