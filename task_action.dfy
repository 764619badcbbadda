/**
 * The server actions over the `tasks` table. The table is a sequence of
 * rows held by a `TaskTable`; the authenticated caller is an optional user
 * id, the clock is a parameter, and the database's serial id is the
 * table's `nextId` counter. Rows are appended with increasing ids, so the
 * table is always in ascending id order.
 */
module TaskActions {
  import opened Wrappers
  import opened Seqs
  import opened Dates

  type UserId = nat
  type TaskId = nat

  /** A row of the `tasks` table. */
  datatype Task = Task(
    id: TaskId,
    userId: UserId,
    title: string,
    description: Option<string>,
    dueDate: Option<DateTime>,
    completed: bool,
    project: Option<string>,
    createdAt: DateTime,
    updatedAt: DateTime)

  /** The argument of `addTask`; `None` is an absent (or `null`) field. */
  datatype NewTask = NewTask(
    title: string,
    description: Option<string>,
    dueDate: Option<DateTime>,
    completed: Option<bool>,
    project: Option<string>)

  /** A field of a partial update: left as it is (`undefined`), or set. */
  datatype Patch<T> = Keep | Set(value: T)

  /** The argument of `editTask`: a row id and the fields to overwrite. */
  datatype TaskEdit = TaskEdit(
    id: TaskId,
    title: Patch<string>,
    description: Patch<string>,
    dueDate: Patch<Option<DateTime>>,
    completed: Patch<bool>,
    project: Patch<string>)

  /** The argument of `deleteTask`: one id or an array of ids. */
  datatype TaskIds = One(id: TaskId) | Many(ids: seq<TaskId>)

  /** A row as `getTaskDataCalendar` returns it: the project is always a string. */
  datatype CalendarRow = CalendarRow(
    id: TaskId,
    userId: UserId,
    title: string,
    description: Option<string>,
    dueDate: Option<DateTime>,
    completed: bool,
    project: string,
    createdAt: DateTime,
    updatedAt: DateTime)

  datatype Error = UserNotAuthenticated

  datatype Result<T> = Ok(value: T) | Err(error: Error)

  predicate IdsIncreasing(rows: seq<Task>) {
    forall i, j :: 0 <= i < j < |rows| ==> rows[i].id < rows[j].id
  }

  /** The rows owned by `uid`, in table order. */
  function RowsOf(rows: seq<Task>, uid: UserId): (r: seq<Task>)
    ensures forall t :: t in r <==> t in rows && t.userId == uid
    ensures forall t {:trigger multiset(r)[t]} ::
              multiset(r)[t] == if t.userId == uid then multiset(rows)[t] else 0
    ensures IsSubsequence(r, rows)
  {
    FilterIsSubsequence(rows, (t: Task) => t.userId == uid);
    Filter(rows, (t: Task) => t.userId == uid)
  }

  /** The row `addTask` inserts: the input's fields, the caller as owner, the clock as both timestamps. */
  function NewRow(task: NewTask, id: TaskId, uid: UserId, now: DateTime): (r: Task)
    ensures r.id == id && r.userId == uid
    ensures r.title == task.title && r.description == task.description
            && r.dueDate == task.dueDate && r.project == task.project
    ensures r.completed <==> task.completed == Some(true)
    ensures r.createdAt == now && r.updatedAt == now
  {
    Task(id, uid, task.title, task.description, task.dueDate,
         task.completed.GetOr(false), task.project, now, now)
  }

  /** `toggleTask`: flips `completed` on the row with id `id` owned by `uid`. */
  function Toggled(rows: seq<Task>, uid: UserId, id: TaskId): (r: seq<Task>)
    ensures |r| == |rows|
    ensures forall i :: 0 <= i < |rows| ==> r[i].(completed := rows[i].completed) == rows[i]
    ensures forall i :: 0 <= i < |rows| ==>
              (r[i].completed != rows[i].completed <==> rows[i].userId == uid && rows[i].id == id)
  {
    seq(|rows|, i requires 0 <= i < |rows| =>
      if rows[i].userId == uid && rows[i].id == id
      then rows[i].(completed := !rows[i].completed)
      else rows[i])
  }

  /** One row after `editTask`: the supplied fields overwritten and `updatedAt` set. */
  function ApplyEdit(t: Task, e: TaskEdit, now: DateTime): (u: Task)
    ensures u.id == t.id && u.userId == t.userId && u.createdAt == t.createdAt
    ensures u.updatedAt == now
    ensures u.title == (if e.title.Set? then e.title.value else t.title)
    ensures u.description == (if e.description.Set? then Some(e.description.value) else t.description)
    ensures u.dueDate == (if e.dueDate.Set? then e.dueDate.value else t.dueDate)
    ensures u.completed == (if e.completed.Set? then e.completed.value else t.completed)
    ensures u.project == (if e.project.Set? then Some(e.project.value) else t.project)
  {
    t.(title := match e.title case Set(v) => v case Keep => t.title,
       description := match e.description case Set(v) => Some(v) case Keep => t.description,
       dueDate := match e.dueDate case Set(v) => v case Keep => t.dueDate,
       completed := match e.completed case Set(v) => v case Keep => t.completed,
       project := match e.project case Set(v) => Some(v) case Keep => t.project,
       updatedAt := now)
  }

  /** `editTask`: every row whose id is `e.id` is edited, whoever owns it. */
  function Edited(rows: seq<Task>, e: TaskEdit, now: DateTime): (r: seq<Task>)
    ensures |r| == |rows|
    ensures forall i :: 0 <= i < |rows| && rows[i].id != e.id ==> r[i] == rows[i]
    ensures forall i :: 0 <= i < |rows| && rows[i].id == e.id ==> r[i] == ApplyEdit(rows[i], e, now)
  {
    seq(|rows|, i requires 0 <= i < |rows| =>
      if rows[i].id == e.id then ApplyEdit(rows[i], e, now) else rows[i])
  }

  /** `Array.isArray(taskIds) ? taskIds : [taskIds]`. */
  function IdList(ids: TaskIds): (r: seq<TaskId>)
    ensures ids.One? ==> |r| == 1 && ids.id in r
    ensures ids.Many? ==> r == ids.ids
    ensures forall id :: id in r <==> if ids.One? then id == ids.id else id in ids.ids
  {
    match ids
    case One(id) => [id]
    case Many(s) => s
  }

  predicate Doomed(t: Task, uid: UserId, ids: seq<TaskId>) {
    t.userId == uid && t.id in ids
  }

  /** `deleteTask`: removes the rows of `uid` whose id is listed. */
  function Deleted(rows: seq<Task>, uid: UserId, ids: seq<TaskId>): (r: seq<Task>)
    ensures forall t :: t in r <==> t in rows && !Doomed(t, uid, ids)
    ensures forall t {:trigger multiset(r)[t]} ::
              multiset(r)[t] == if Doomed(t, uid, ids) then 0 else multiset(rows)[t]
    ensures IsSubsequence(r, rows)
  {
    FilterIsSubsequence(rows, (t: Task) => !Doomed(t, uid, ids));
    Filter(rows, (t: Task) => !Doomed(t, uid, ids))
  }

  /** The non-empty project labels of `rows`, with repeats, in table order. */
  function Labels(rows: seq<Task>): (r: seq<string>)
    ensures forall p :: p in r <==> p != "" && exists t :: t in rows && t.project == Some(p)
  {
    if rows == [] then []
    else
      assert rows == [rows[0]] + rows[1..];
      (if rows[0].project.Some? && rows[0].project.value != "" then [rows[0].project.value] else [])
        + Labels(rows[1..])
  }

  function ToCalendarRow(t: Task): (c: CalendarRow)
    ensures c.id == t.id && c.userId == t.userId && c.title == t.title
    ensures c.description == t.description && c.dueDate == t.dueDate && c.completed == t.completed
    ensures c.createdAt == t.createdAt && c.updatedAt == t.updatedAt
    ensures c.project == t.project.GetOr("")
  {
    CalendarRow(t.id, t.userId, t.title, t.description, t.dueDate, t.completed,
                if t.project.Some? then t.project.value else "", t.createdAt, t.updatedAt)
  }

  class TaskTable {
    var rows: seq<Task>
    /** The id the database's serial column hands out next. */
    var nextId: TaskId

    ghost predicate Valid()
      reads this
    {
      IdsIncreasing(rows) && forall i :: 0 <= i < |rows| ==> rows[i].id < nextId
    }

    constructor ()
      ensures Valid() && rows == [] && nextId == 1
    {
      rows := [];
      nextId := 1;
    }

    method AddTask(caller: Option<UserId>, task: NewTask, now: DateTime) returns (r: Result<()>)
      requires Valid()
      modifies this
      ensures Valid()
      ensures caller.None? ==> r == Err(UserNotAuthenticated) && unchanged(this)
      ensures caller.Some? ==> r == Ok(()) && nextId == old(nextId) + 1
                               && rows == old(rows) + [NewRow(task, old(nextId), caller.value, now)]
    {
      if caller.None? {
        return Err(UserNotAuthenticated);
      }
      rows := rows + [NewRow(task, nextId, caller.value, now)];
      nextId := nextId + 1;
      r := Ok(());
    }

    function GetTaskData(caller: Option<UserId>): (r: Result<seq<Task>>)
      reads this
      requires Valid()
      ensures caller.None? <==> r == Err(UserNotAuthenticated)
      ensures caller.Some? ==> r.Ok?
                               && (forall t :: t in r.value <==> t in rows && t.userId == caller.value)
                               && IdsIncreasing(r.value)
    {
      if caller.None? then Err(UserNotAuthenticated)
      else
        FilterIncreasing(rows, (t: Task) => t.userId == caller.value, (t: Task) => t.id);
        Ok(RowsOf(rows, caller.value))
    }

    function GetTaskDataCalendar(caller: Option<UserId>): (r: Result<seq<CalendarRow>>)
      reads this
      requires Valid()
      ensures caller.None? <==> r == Err(UserNotAuthenticated)
      ensures caller.Some? ==>
                var d := GetTaskData(caller).value;
                r.Ok? && |r.value| == |d|
                && forall i :: 0 <= i < |d| ==>
                     r.value[i].id == d[i].id && r.value[i].userId == d[i].userId
                     && r.value[i].title == d[i].title && r.value[i].description == d[i].description
                     && r.value[i].dueDate == d[i].dueDate && r.value[i].completed == d[i].completed
                     && r.value[i].project == d[i].project.GetOr("")
                     && r.value[i].createdAt == d[i].createdAt && r.value[i].updatedAt == d[i].updatedAt
    {
      match GetTaskData(caller)
      case Err(e) => Err(e)
      case Ok(d) => Ok(seq(|d|, i requires 0 <= i < |d| => ToCalendarRow(d[i])))
    }

    method ToggleTask(caller: Option<UserId>, taskId: TaskId) returns (r: Result<()>)
      requires Valid()
      modifies this
      ensures Valid() && nextId == old(nextId)
      ensures caller.None? ==> r == Err(UserNotAuthenticated) && rows == old(rows)
      ensures caller.Some? ==> r == Ok(()) && rows == Toggled(old(rows), caller.value, taskId)
    {
      if caller.None? {
        return Err(UserNotAuthenticated);
      }
      rows := Toggled(rows, caller.value, taskId);
      r := Ok(());
    }

    /** Authenticates the caller, but then edits by id alone. */
    method EditTask(caller: Option<UserId>, edit: TaskEdit, now: DateTime) returns (r: Result<()>)
      requires Valid()
      modifies this
      ensures Valid() && nextId == old(nextId)
      ensures caller.None? ==> r == Err(UserNotAuthenticated) && rows == old(rows)
      ensures caller.Some? ==> r == Ok(()) && rows == Edited(old(rows), edit, now)
    {
      if caller.None? {
        return Err(UserNotAuthenticated);
      }
      rows := Edited(rows, edit, now);
      r := Ok(());
    }

    method DeleteTask(caller: Option<UserId>, taskIds: TaskIds) returns (r: Result<()>)
      requires Valid()
      modifies this
      ensures Valid() && nextId == old(nextId)
      ensures caller.None? ==> r == Err(UserNotAuthenticated) && rows == old(rows)
      ensures caller.Some? ==> r == Ok(()) && rows == Deleted(old(rows), caller.value, IdList(taskIds))
    {
      if caller.None? {
        return Err(UserNotAuthenticated);
      }
      var ids := IdList(taskIds);
      FilterIncreasing(rows, (t: Task) => !Doomed(t, caller.value, ids), (t: Task) => t.id);
      ghost var before := rows;
      rows := Deleted(rows, caller.value, ids);
      forall i | 0 <= i < |rows| ensures rows[i].id < nextId {
        assert rows[i] in before;
      }
      r := Ok(());
    }

    function GetProjects(caller: Option<UserId>): (r: Result<seq<string>>)
      reads this
      ensures caller.None? <==> r == Err(UserNotAuthenticated)
      ensures caller.Some? ==>
                r.Ok? && NoDuplicates(r.value)
                && forall p :: p in r.value <==>
                     p != "" && exists t :: t in rows && t.userId == caller.value && t.project == Some(p)
    {
      if caller.None? then Err(UserNotAuthenticated)
      else Ok(Distinct(Labels(RowsOf(rows, caller.value))))
    }
  }

  /** Toggling the same task twice restores the table. */
  lemma {:induction false} ToggleTwiceRestores(rows: seq<Task>, uid: UserId, id: TaskId)
    ensures Toggled(Toggled(rows, uid, id), uid, id) == rows
  {
  }

  /** Toggling leaves every other user's rows as they were. */
  lemma {:induction false} ToggleKeepsOtherUsers(rows: seq<Task>, uid: UserId, id: TaskId, other: UserId)
    requires other != uid
    ensures RowsOf(Toggled(rows, uid, id), other) == RowsOf(rows, other)
  {
    var t := Toggled(rows, uid, id);
    FilterPointwise(t, rows, (x: Task) => x.userId == other);
  }

  /** Adding a row for `uid` appends it to `uid`'s rows and leaves every other user's rows as they were. */
  lemma {:induction false} AddThenRows(rows: seq<Task>, row: Task, uid: UserId)
    ensures RowsOf(rows + [row], uid) == if row.userId == uid then RowsOf(rows, uid) + [row] else RowsOf(rows, uid)
  {
    FilterAppend(rows, [row], (t: Task) => t.userId == uid);
    assert Filter([row], (t: Task) => t.userId == uid) == if row.userId == uid then [row] else [];
  }

  /** Deleting leaves every other user's rows as they were. */
  lemma {:induction false} DeleteKeepsOtherUsers(rows: seq<Task>, uid: UserId, ids: seq<TaskId>, other: UserId)
    requires other != uid
    ensures RowsOf(Deleted(rows, uid, ids), other) == RowsOf(rows, other)
  {
    FilterFilter(rows, (t: Task) => !Doomed(t, uid, ids), (t: Task) => t.userId == other,
                 (t: Task) => t.userId == other);
  }

  /** Deleting the same ids again changes nothing. */
  lemma {:induction false} DeleteIdempotent(rows: seq<Task>, uid: UserId, ids: seq<TaskId>)
    ensures Deleted(Deleted(rows, uid, ids), uid, ids) == Deleted(rows, uid, ids)
  {
    var p := (t: Task) => !Doomed(t, uid, ids);
    FilterFilter(rows, p, p, p);
  }

  /** Repeating an edit at the same moment changes nothing more. */
  lemma {:induction false} EditIdempotent(rows: seq<Task>, e: TaskEdit, now: DateTime)
    ensures Edited(Edited(rows, e, now), e, now) == Edited(rows, e, now)
  {
  }
}
