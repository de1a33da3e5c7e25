/**
 * The task board: the current trip's tasks in three status columns, the
 * drop that moves a task to another column, and the task form with its
 * save and delete handlers.
 *
 * The overdue marker compares the due date with the clock and is not part
 * of this model; the update time of a submitted form is a parameter.
 */
module TasksPage {
  import opened Values
  import opened Views
  import Store

  /** A column of the board: the status it shows and its heading. */
  datatype Column = Column(id: string, title: string)

  const TaskStatuses: seq<Column> := [
    Column("not-started", "Not Started"),
    Column("in-progress", "In Progress"),
    Column("completed", "Completed")
  ]

  /** A task whose status is none of the three columns'. */
  predicate OffBoard(x: Record)
  {
    forall c | 0 <= c < |TaskStatuses| :: Get(x, "status") != Str(TaskStatuses[c].id)
  }

  /** A task shows in at most one column, and in none when its status is no column's. */
  lemma ColumnsAreDisjoint(tripTasks: seq<Record>, x: Record, a: int, b: int)
    requires 0 <= a < b < |TaskStatuses|
    ensures !(x in WithStatus(tripTasks, TaskStatuses[a].id) && x in WithStatus(tripTasks, TaskStatuses[b].id))
    ensures OffBoard(x) ==> x !in WithStatus(tripTasks, TaskStatuses[a].id)
  {
  }

  /**
   * The three column counts and the tasks no column shows add up to the
   * trip's tasks: every task with one of the three statuses is counted in
   * exactly one column.
   */
  lemma {:induction false} ColumnCounts(list: seq<Record>)
    ensures |WithStatus(list, "not-started")| + |WithStatus(list, "in-progress")| + |WithStatus(list, "completed")|
          + |Filter(list, OffBoard)| == |list|
  {
    if list != [] {
      ColumnCounts(list[1..]);
      ColumnStep(list, "not-started");
      ColumnStep(list, "in-progress");
      ColumnStep(list, "completed");
      OffBoardStep(list);
    }
  }

  /** The tasks no column shows count the first task exactly when its status is none of the three. */
  lemma OffBoardStep(list: seq<Record>)
    requires list != []
    ensures var status := Get(list[0], "status");
      |Filter(list, OffBoard)|
      == (if status != Str("not-started") && status != Str("in-progress") && status != Str("completed") then 1 else 0)
         + |Filter(list[1..], OffBoard)|
  {
    assert Filter(list, OffBoard) == (if OffBoard(list[0]) then [list[0]] else []) + Filter(list[1..], OffBoard);
    OffBoardIff(list[0]);
  }

  /** A task is off the board exactly when its status is none of `not-started`, `in-progress` and `completed`. */
  lemma OffBoardIff(x: Record)
    ensures OffBoard(x) <==> Get(x, "status") != Str("not-started") && Get(x, "status") != Str("in-progress")
                             && Get(x, "status") != Str("completed")
  {
    assert TaskStatuses[0].id == "not-started" && TaskStatuses[1].id == "in-progress" && TaskStatuses[2].id == "completed";
  }

  /** A column counts the first task exactly when the task has the column's status. */
  lemma ColumnStep(list: seq<Record>, column: string)
    requires list != []
    ensures |WithStatus(list, column)| == (if Get(list[0], "status") == Str(column) then 1 else 0) + |WithStatus(list[1..], column)|
  {
  }

  /** What a dragged card carries: `{ id: task.id, status: task.status }`. */
  datatype DragItem = DragItem(id: Value, status: Value)

  function DragOf(task: Record): DragItem
  {
    DragItem(Get(task, "id"), Get(task, "status"))
  }

  /**
   * The column's `drop`: a card from another column updates the task's
   * status to the column's; a card dropped on its own column does nothing.
   */
  function Drop(item: DragItem, column: string): (r: Option<Store.Action>)
    ensures StrictEquals(item.status, Str(column)) ==> r.None?
    ensures !StrictEquals(item.status, Str(column)) ==> r == Some(Store.UpdateTask(map["id" := item.id, "status" := Str(column)]))
  {
    if !StrictEquals(item.status, Str(column)) then Some(Store.UpdateTask(map["id" := item.id, "status" := Str(column)])) else None
  }

  /**
   * Dropping a stored task on a column gives it that column's status and
   * changes nothing else of it; every task with another id stays as it was.
   */
  lemma DropMovesTask(s: Store.State, i: int, column: string, freshId: Value, now: Value)
    requires 0 <= i < |s.tasks| && Get(s.tasks[i], "id").Str?
    ensures var r := Store.Dispatch(s, Drop(DragOf(s.tasks[i]), column), freshId, now);
      |r.tasks| == |s.tasks| && r.tasks[i] == s.tasks[i]["status" := Str(column)]
      && (forall j | 0 <= j < |s.tasks| && Get(s.tasks[j], "id") != Get(s.tasks[i], "id") :: r.tasks[j] == s.tasks[j])
      && r.meetings == s.meetings && r.trips == s.trips
  {
    var t := s.tasks[i];
    var patch := map["id" := Get(t, "id"), "status" := Str(column)];
    if !StrictEquals(Get(t, "status"), Str(column)) {
      Store.UpdateTaskStep(s, patch, freshId, now);
      assert t + patch == t["status" := Str(column)];
    } else {
      assert t["status" := Str(column)] == t;
    }
  }

  /** After the drop, a task of the trip is in the column it was dropped on, and in no other column. */
  lemma DroppedTaskShowsInColumn(s: Store.State, i: int, c: int, freshId: Value, now: Value)
    requires 0 <= i < |s.tasks| && Get(s.tasks[i], "id").Str?
    requires StrictEquals(Get(s.tasks[i], "tripId"), Store.SelectedId(s.currentTrip))
    requires 0 <= c < |TaskStatuses|
    ensures var r := Store.Dispatch(s, Drop(DragOf(s.tasks[i]), TaskStatuses[c].id), freshId, now);
      r.tasks[i] in WithStatus(OfCurrentTrip(r.tasks, r.currentTrip), TaskStatuses[c].id)
      && forall d | 0 <= d < |TaskStatuses| && d != c :: r.tasks[i] !in WithStatus(OfCurrentTrip(r.tasks, r.currentTrip), TaskStatuses[d].id)
  {
    DropMovesTask(s, i, TaskStatuses[c].id, freshId, now);
    var r := Store.Dispatch(s, Drop(DragOf(s.tasks[i]), TaskStatuses[c].id), freshId, now);
    assert r.currentTrip == s.currentTrip;
    assert r.tasks[i] in r.tasks;
  }

  /** The form of a new task. */
  const NewTaskForm: Record := map[
    "title" := Str(""), "description" := Str(""), "dueDate" := Str(""), "assignee" := Str(""),
    "category" := Str(""), "priority" := Str("medium"), "status" := Str("not-started")]

  /** `TaskModal.handleSubmit`: the form with the trip's id and the update time over it. */
  function Submit(form: Record, current: Option<Record>, stamp: Value): (r: Record)
    ensures Get(r, "tripId") == Store.SelectedId(current) && Get(r, "updatedAt") == stamp
    ensures r.Keys == form.Keys + {"tripId", "updatedAt"}
    ensures forall k | k in form && k != "tripId" && k != "updatedAt" :: r[k] == form[k]
  {
    Submitted(form, current, map[], stamp)
  }

  /** `handleSave`: update the task being edited with the form's fields winning, or add a new task. */
  function Save(editing: Option<Record>, data: Record): (r: Store.Action)
    ensures editing.Some? ==> r.UpdateTask? && r.patch.Keys == editing.value.Keys + data.Keys
    ensures editing.Some? ==> forall k | k in data :: r.patch[k] == data[k]
    ensures editing.Some? ==> forall k | k in editing.value && k !in data :: r.patch[k] == editing.value[k]
    ensures editing.None? ==> r == Store.AddTask(data)
  {
    if editing.Some? then Store.UpdateTask(editing.value + data) else Store.AddTask(data)
  }

  /** `handleDelete`, once the user has confirmed. */
  function Delete(id: Value): (r: Store.Action)
    ensures r.IsDelete() && r.Target() == Store.Tasks && r.id == id
  {
    Store.DeleteTask(id)
  }

  /** A new task submitted while a trip is selected joins that trip's board, in the column of its status. */
  lemma NewTaskIsListed(s: Store.State, form: Record, stamp: Value, freshId: Value, now: Value)
    requires s.currentTrip.Some? && Get(s.currentTrip.value, "id").Str?
    ensures var data := Submit(form, s.currentTrip, stamp);
      var r := Store.Reduce(s, Save(None, data), freshId, now);
      OfCurrentTrip(r.tasks, r.currentTrip) == OfCurrentTrip(s.tasks, s.currentTrip) + [Store.Stamp(data, freshId, now)]
  {
    var data := Submit(form, s.currentTrip, stamp);
    var added := Store.Stamp(data, freshId, now);
    Store.AddTaskStep(s, data, freshId, now);
    ForTripAppends(s.tasks, added, Store.SelectedId(s.currentTrip));
  }

  /**
   * As written, "Add Task" after editing a task opens the form on the
   * edited task; submitting it unchanged adds a second task with the same
   * title (under a new id) instead of starting from the blank form.
   */
  lemma AddAfterEditCopiesTask(s: Store.State, edited: Record, stamp: Value, freshId: Value, now: Value)
    ensures var form := FormOnOpen(FormOnOpen(NewTaskForm, Some(edited)), None);
      var r := Store.Reduce(s, Save(None, Submit(form, s.currentTrip, stamp)), freshId, now);
      |r.tasks| == |s.tasks| + 1 && Get(r.tasks[|s.tasks|], "title") == Get(edited, "title")
      && Get(r.tasks[|s.tasks|], "id") == freshId
  {
    var data := Submit(edited, s.currentTrip, stamp);
    assert Save(None, data) == Store.AddTask(data);
    Store.AddTaskStep(s, data, freshId, now);
  }

  /** With the intended form, "Add Task" after an edit adds a task from the blank form. */
  lemma AddAfterEditAddsBlank(s: Store.State, stamp: Value, freshId: Value, now: Value)
    ensures var form := FormOnOpenFixed(NewTaskForm, None);
      var r := Store.Reduce(s, Save(None, Submit(form, s.currentTrip, stamp)), freshId, now);
      |r.tasks| == |s.tasks| + 1 && Get(r.tasks[|s.tasks|], "title") == Str("")
      && Get(r.tasks[|s.tasks|], "status") == Str("not-started") && Get(r.tasks[|s.tasks|], "priority") == Str("medium")
  {
    assert FormOnOpenFixed(NewTaskForm, None) == NewTaskForm;
    var data := Submit(NewTaskForm, s.currentTrip, stamp);
    BlankSubmitFields(s.currentTrip, stamp);
    var added := Store.Stamp(data, freshId, now);
    assert Get(added, "title") == Str("") && Get(added, "status") == Str("not-started") && Get(added, "priority") == Str("medium");
    assert Save(None, data) == Store.AddTask(data);
    Store.AddTaskStep(s, data, freshId, now);
  }

  /** The blank form, submitted, carries an empty title, status `'not-started'` and priority `'medium'`. */
  lemma BlankSubmitFields(current: Option<Record>, stamp: Value)
    ensures var data := Submit(NewTaskForm, current, stamp);
      "title" in data && "status" in data && "priority" in data
      && data["title"] == Str("") && data["status"] == Str("not-started") && data["priority"] == Str("medium")
  {
    assert "title" in NewTaskForm && "status" in NewTaskForm && "priority" in NewTaskForm;
  }
}
