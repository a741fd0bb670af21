/**
 * The task record and the client-side task store shared by the list view,
 * the Kanban board and the add/edit dialog.
 *
 * The store's own source is not part of this model; its three operations are
 * modelled on the stated assumptions: `updateTask` replaces every record whose
 * `_id` equals the argument's, `addTask` appends, `setTasks` replaces the list.
 */
module Tasks {
  import opened Options

  datatype Status = ToDo | InProgress | Completed
  datatype Priority = Low | Medium | High

  /** A task as the client holds it; `dueDate` is a timestamp in milliseconds. */
  datatype Task = Task(
    id: Option<string>,
    title: string,
    description: string,
    status: Status,
    priority: Priority,
    dueDate: Option<int>)

  /** The blank draft. Its definition file is not part of this model: the model
      relies only on it having no `_id`. */
  const EmptyTask := Task(None, "", "", ToDo, Low, None)

  /** JavaScript truthiness of `task._id`. */
  predicate HasId(t: Task) {
    t.id.Some? && t.id.value != ""
  }

  /** No two records of the store carry the same `_id`. */
  predicate UniqueIds(tasks: seq<Task>) {
    forall i, j :: 0 <= i < |tasks| && 0 <= j < |tasks| && tasks[i].id == tasks[j].id ==> i == j
  }

  /** The effect of `updateTask(t)` on the list. */
  function ReplaceById(tasks: seq<Task>, t: Task): (r: seq<Task>)
    ensures |r| == |tasks|
  {
    seq(|tasks|, k requires 0 <= k < |tasks| => if tasks[k].id == t.id then t else tasks[k])
  }

  /** Updating a record nobody has is a no-op. */
  lemma ReplaceByIdAbsent(tasks: seq<Task>, t: Task)
    requires forall k :: 0 <= k < |tasks| ==> tasks[k].id != t.id
    ensures ReplaceById(tasks, t) == tasks
  {
  }

  /** Re-writing records with identical ones is a no-op. */
  lemma ReplaceByIdSame(tasks: seq<Task>, t: Task)
    requires forall k :: 0 <= k < |tasks| && tasks[k].id == t.id ==> tasks[k] == t
    ensures ReplaceById(tasks, t) == tasks
  {
  }

  /** With unique ids, updating the record at `k` changes that record and no other. */
  lemma ReplaceByIdAt(tasks: seq<Task>, k: nat, t: Task)
    requires UniqueIds(tasks) && k < |tasks| && tasks[k].id == t.id
    ensures ReplaceById(tasks, t) == tasks[k := t]
    ensures UniqueIds(ReplaceById(tasks, t))
  {
    var r := ReplaceById(tasks, t);
    forall j | 0 <= j < |tasks| ensures r[j] == tasks[k := t][j] {
      if j != k {
        assert tasks[j].id != t.id;
      }
    }
  }

  /** The shared client store: the task list and the add/edit draft (`newTask`). */
  class TaskStore {
    var tasks: seq<Task>
    var newTask: Task

    constructor ()
      ensures tasks == [] && newTask == EmptyTask
    {
      tasks := [];
      newTask := EmptyTask;
    }

    method SetTasks(list: seq<Task>)
      modifies this
      ensures tasks == list && newTask == old(newTask)
    {
      tasks := list;
    }

    method AddTask(t: Task)
      modifies this
      ensures tasks == old(tasks) + [t] && newTask == old(newTask)
    {
      tasks := tasks + [t];
    }

    method UpdateTask(t: Task)
      modifies this
      ensures tasks == ReplaceById(old(tasks), t) && newTask == old(newTask)
    {
      tasks := ReplaceById(tasks, t);
    }

    method SetNewTask(t: Task)
      modifies this
      ensures newTask == t && tasks == old(tasks)
    {
      newTask := t;
    }
  }
}
