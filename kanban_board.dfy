/** The Kanban board of `src/components/projects/kanban-board.tsx`: the three
    fixed status columns, the per-column views derived from the task list, and
    the drag session that turns a drop into at most one status-update request. */
module Kanban {
  import opened Wrappers
  import opened Types
  import JsArray

  /** A board column: its id is a status, shown under a title. */
  datatype Column = Column(id: TaskStatus, title: string)

  /** `columns`, in display order. */
  const Columns: seq<Column> := [
    Column(TODO, "To Do"),
    Column(IN_PROGRESS, "In Progress"),
    Column(DONE, "Done")
  ]

  /** The partial update sent for a drop: it carries the `status` field only. */
  datatype TaskPatch = TaskPatch(status: TaskStatus)

  /** `updateTask({ id, data })`. */
  datatype UpdateRequest = UpdateRequest(id: string, data: TaskPatch)

  /** The error toast shown when a status update fails. */
  const UpdateFailedToast: Notification := ErrorToast("Failed to update task status")

  /** `tasks.find((t) => t.id === id)`. */
  function FindTask(tasks: seq<Task>, id: string): (r: Option<Task>)
    ensures r.None? <==> forall i :: 0 <= i < |tasks| ==> tasks[i].id != id
    ensures r.Some? ==> r.value.id == id
    ensures r.Some? ==> exists i :: 0 <= i < |tasks| && tasks[i] == r.value && forall j :: 0 <= j < i ==> tasks[j].id != id
  {
    var r := JsArray.Find(tasks, (t: Task) => t.id == id);
    if r.Some? then
      assert exists i :: JsArray.FirstMatchAt(tasks, (t: Task) => t.id == id, i) && tasks[i] == r.value;
      r
    else
      r
  }

  /** `columns.find((col) => col.id === id)`, giving the column's status. A
      column id and a task id are compared as strings, in one id space. */
  function ColumnStatus(id: string): (r: Option<TaskStatus>)
    ensures r.Some? <==> exists i :: 0 <= i < |Columns| && StatusName(Columns[i].id) == id
    ensures r.Some? ==> StatusName(r.value) == id
  {
    var c := JsArray.Find(Columns, (col: Column) => StatusName(col.id) == id);
    if c.Some? then Some(c.value.id) else None
  }

  /** The tasks of one column: `tasks.filter((t) => t.status === status)`. */
  function TasksForColumn(tasks: seq<Task>, status: TaskStatus): (r: seq<Task>)
    ensures forall t :: t in r <==> t in tasks && t.status == status
  {
    JsArray.Filter(tasks, (t: Task) => t.status == status)
  }

  /** The board as rendered: one task list per column, in column order; a
      task of the list is shown in a column exactly when it has that
      column's status, so each task is in exactly one column. */
  function Board(tasks: seq<Task>): (b: seq<seq<Task>>)
    ensures |b| == |Columns|
    ensures forall i, t :: 0 <= i < |b| && t in tasks ==> (t in b[i] <==> t.status == Columns[i].id)
    ensures forall i, t :: 0 <= i < |b| && t in b[i] ==> t in tasks
  {
    seq(|Columns|, i requires 0 <= i < |Columns| => TasksForColumn(tasks, Columns[i].id))
  }

  /** A column's tasks keep the order they have in the task list: the view of a
      concatenation is the concatenation of the views. */
  lemma TasksForColumnKeepsOrder(xs: seq<Task>, ys: seq<Task>, status: TaskStatus)
    ensures TasksForColumn(xs + ys, status) == TasksForColumn(xs, status) + TasksForColumn(ys, status)
  {
    JsArray.FilterAppend(xs, ys, (t: Task) => t.status == status);
  }

  /** A column holds every task of its status as many times as the list does,
      and no task of another status. */
  lemma TasksForColumnCount(tasks: seq<Task>, status: TaskStatus, t: Task)
    ensures multiset(TasksForColumn(tasks, status))[t] == if t.status == status then multiset(tasks)[t] else 0
  {
    JsArray.FilterCount(tasks, (t: Task) => t.status == status, t);
  }

  /** The three columns partition the task list: together they hold exactly
      the tasks of the list, none dropped and none duplicated. */
  lemma BoardPartitionsTasks(tasks: seq<Task>)
    ensures var b := Board(tasks);
      multiset(b[0]) + multiset(b[1]) + multiset(b[2]) == multiset(tasks)
    ensures var b := Board(tasks);
      |b[0]| + |b[1]| + |b[2]| == |tasks|
  {
    var b := Board(tasks);
    forall t | true
      ensures (multiset(b[0]) + multiset(b[1]) + multiset(b[2]))[t] == multiset(tasks)[t]
    {
      TasksForColumnCount(tasks, TODO, t);
      TasksForColumnCount(tasks, IN_PROGRESS, t);
      TasksForColumnCount(tasks, DONE, t);
    }
    assert multiset(b[0]) + multiset(b[1]) + multiset(b[2]) == multiset(tasks);
    assert |multiset(b[0]) + multiset(b[1]) + multiset(b[2])| == |multiset(tasks)|;
  }

  /** What `onDragEnd` decides for a drop of the task with id `activeId` on the
      target `overId` (`None` when there is no target): at most one update. */
  function DropDecision(tasks: seq<Task>, activeId: string, overId: Option<string>): (r: Option<UpdateRequest>)
    ensures r.Some? ==> r.value.id == activeId
    ensures r.Some? ==> overId.Some? && exists i :: 0 <= i < |tasks| && tasks[i].id == activeId
  {
    match overId
    case None => None
    case Some(over) =>
      match FindTask(tasks, activeId)
      case None => None
      case Some(active) =>
        match ColumnStatus(over)
        case Some(status) =>
          if active.status != status then Some(UpdateRequest(active.id, TaskPatch(status))) else None
        case None =>
          match FindTask(tasks, over)
          case Some(target) =>
            if active.status != target.status then Some(UpdateRequest(active.id, TaskPatch(target.status))) else None
          case None => None
  }

  /** The first task with the given id, as a relation that does not mention `find`. */
  ghost predicate IsFirstWithId(tasks: seq<Task>, id: string, t: Task)
  {
    exists i :: 0 <= i < |tasks| && tasks[i] == t && t.id == id && forall j :: 0 <= j < i ==> tasks[j].id != id
  }

  /** `find` returns the first task with the id, and only it. */
  lemma FindTaskIsFirst(tasks: seq<Task>, id: string, t: Task)
    ensures FindTask(tasks, id) == Some(t) <==> IsFirstWithId(tasks, id, t)
  {
  }

  /** No target, or a dragged id that matches no task: nothing is issued. */
  lemma NoTargetOrUnknownTaskIssuesNothing(tasks: seq<Task>, activeId: string, overId: Option<string>)
    requires overId.None? || forall i :: 0 <= i < |tasks| ==> tasks[i].id != activeId
    ensures DropDecision(tasks, activeId, overId) == None
  {
  }

  /** A drop on a column id moves the dragged task to that column's status, and
      is a no-op when the task already has it. The column reading wins even
      when some task has the same id as the column. */
  lemma DropOnColumn(tasks: seq<Task>, active: Task, s: TaskStatus)
    requires IsFirstWithId(tasks, active.id, active)
    ensures DropDecision(tasks, active.id, Some(StatusName(s)))
      == if active.status == s then None else Some(UpdateRequest(active.id, TaskPatch(s)))
  {
  }

  /** A drop on another task whose id is not a column id moves the dragged task
      to the target's status, and is a no-op when both already share it. */
  lemma DropOnTask(tasks: seq<Task>, active: Task, target: Task)
    requires IsFirstWithId(tasks, active.id, active)
    requires IsFirstWithId(tasks, target.id, target)
    requires ColumnStatus(target.id).None?
    ensures DropDecision(tasks, active.id, Some(target.id))
      == if active.status == target.status then None else Some(UpdateRequest(active.id, TaskPatch(target.status)))
  {
    FindTaskIsFirst(tasks, active.id, active);
    FindTaskIsFirst(tasks, target.id, target);
  }

  /** A target that is neither a column id nor a task id: nothing is issued. */
  lemma DropOnUnknownTarget(tasks: seq<Task>, activeId: string, over: string)
    requires ColumnStatus(over).None?
    requires forall i :: 0 <= i < |tasks| ==> tasks[i].id != over
    ensures DropDecision(tasks, activeId, Some(over)) == None
  {
  }

  /** An issued update always changes the dragged task's status, to the status
      named by the target column or held by the target task. */
  lemma IssuedUpdateChangesStatus(tasks: seq<Task>, activeId: string, over: string)
    requires DropDecision(tasks, activeId, Some(over)).Some?
    ensures var s := DropDecision(tasks, activeId, Some(over)).value.data.status;
      && (exists a :: IsFirstWithId(tasks, activeId, a) && a.status != s)
      && (StatusName(s) == over || exists b :: IsFirstWithId(tasks, over, b) && b.status == s)
  {
  }

  /** A To Do task `t1` dropped on the In Progress column gets exactly one
      update, to `IN_PROGRESS`. */
  lemma DropOnColumnExample(t1: Task)
    requires t1.id == "t1" && t1.status == TODO
    ensures DropDecision([t1], "t1", Some("IN_PROGRESS")) == Some(UpdateRequest("t1", TaskPatch(IN_PROGRESS)))
  {
  }

  /** A task whose id collides with a column id is never the drop target: the
      column reading is taken, even though the task reading would differ. */
  lemma ColumnIdShadowsTaskExample(t1: Task, t2: Task)
    requires t1.id == "t1" && t1.status == TODO
    requires t2.id == "TODO" && t2.status == DONE
    ensures DropDecision([t1, t2], "t1", Some("TODO")) == None
  {
  }

  /** The board component's state: the task list it was given (read only), the
      drag-overlay slot, and the requests and toasts it has issued. */
  class KanbanBoard {
    var tasks: seq<Task>
    var activeTask: Option<Task>
    var requests: seq<UpdateRequest>
    var notifications: seq<Notification>

    /** A board over the given task list, with no drag in progress. */
    constructor (tasks: seq<Task>)
      ensures this.tasks == tasks && activeTask == None
      ensures requests == [] && notifications == []
    {
      this.tasks := tasks;
      activeTask := None;
      requests := [];
      notifications := [];
    }

    /** The parent re-renders the board with a new `tasks` prop (the list is
        refetched after every successful update). Only the list changes: a
        drag in progress keeps its slot, and a later drop is decided against
        the new list. */
    method SetTasks(newTasks: seq<Task>)
      modifies this`tasks
      ensures tasks == newTasks
    {
      tasks := newTasks;
    }

    /** `onDragStart`: the dragged item's data (`None` when it has none) sets
        the slot only when its type is `"Task"`. */
    method OnDragStart(data: Option<DragData>)
      modifies this`activeTask
      ensures data.Some? && data.value.kind == "Task" ==> activeTask == data.value.task
      ensures !(data.Some? && data.value.kind == "Task") ==> activeTask == old(activeTask)
    {
      if data.Some? && data.value.kind == "Task" {
        activeTask := data.value.task;
      }
    }

    /** `onDragOver`: advisory only; it changes nothing and decides nothing. */
    method OnDragOver(overId: Option<string>)
      ensures unchanged(this)
    {
    }

    /** `onDragEnd`: clears the slot on every path, then issues the update the
        drop implies, if any. `updateSucceeds` is the outcome of the request;
        a failure adds one error toast and nothing is rolled back. */
    method OnDragEnd(activeId: string, overId: Option<string>, updateSucceeds: bool)
      modifies this`activeTask, this`requests, this`notifications
      ensures activeTask == None
      ensures var d := DropDecision(tasks, activeId, overId);
        && requests == old(requests) + (if d.Some? then [d.value] else [])
        && notifications == old(notifications) + (if d.Some? && !updateSucceeds then [UpdateFailedToast] else [])
    {
      activeTask := None;
      if overId.None? {
        return;
      }
      var over := overId.value;
      var active := FindTask(tasks, activeId);
      if active.None? {
        return;
      }
      var column := ColumnStatus(over);
      if column.Some? {
        if active.value.status != column.value {
          Update(UpdateRequest(active.value.id, TaskPatch(column.value)), updateSucceeds);
        }
        return;
      }
      var target := FindTask(tasks, over);
      if target.Some? && active.value.status != target.value.status {
        Update(UpdateRequest(active.value.id, TaskPatch(target.value.status)), updateSucceeds);
      }
    }

    /** `updateTask(request, { onError })`: records the request and, when it
        fails, the error toast. */
    method Update(request: UpdateRequest, succeeds: bool)
      modifies this`requests, this`notifications
      ensures requests == old(requests) + [request]
      ensures notifications == old(notifications) + (if succeeds then [] else [UpdateFailedToast])
    {
      requests := requests + [request];
      if !succeeds {
        notifications := notifications + [UpdateFailedToast];
      }
    }
  }

  /** The data a draggable item carries: `{ type, task }`. */
  datatype DragData = DragData(kind: string, task: Option<Task>)
}
