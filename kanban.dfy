/**
 * The Kanban board: the status buckets built by `groupedTasks`, the drag-end
 * rule, and the mobile card's status picker.
 */
module Kanban {
  import opened Options
  import opened Seqs
  import opened Tasks
  import TaskList

  /** Reference definition of one bucket: the tasks of status `s`, in store order. */
  function InStatus(tasks: seq<Task>, s: Status): (r: seq<Task>)
    ensures |r| <= |tasks|
    ensures forall t :: t in r <==> t in tasks && t.status == s
  {
    if tasks == [] then []
    else if tasks[0].status == s then [tasks[0]] + InStatus(tasks[1..], s)
    else InStatus(tasks[1..], s)
  }

  lemma {:induction false} InStatusAppend(tasks: seq<Task>, t: Task, s: Status)
    ensures InStatus(tasks + [t], s) == InStatus(tasks, s) + (if t.status == s then [t] else [])
  {
    if tasks != [] {
      assert (tasks + [t])[1..] == tasks[1..] + [t];
      InStatusAppend(tasks[1..], t, s);
    }
  }

  /**
   * `groupedTasks`: folds over the store pushing each task onto the bucket of its
   * status. A bucket exists only for a status some task has, and holds exactly
   * that status's tasks in store order.
   */
  method GroupTasks(tasks: seq<Task>) returns (groups: map<Status, seq<Task>>)
    ensures forall s :: s in groups <==> InStatus(tasks, s) != []
    ensures forall s :: s in groups ==> groups[s] == InStatus(tasks, s)
  {
    groups := map[];
    var i := 0;
    while i < |tasks|
      invariant 0 <= i <= |tasks|
      invariant forall s :: s in groups <==> InStatus(tasks[..i], s) != []
      invariant forall s :: s in groups ==> groups[s] == InStatus(tasks[..i], s)
    {
      var t := tasks[i];
      var bucket := if t.status in groups then groups[t.status] else [];
      GroupStep(tasks[..i], t, groups);
      groups := groups[t.status := bucket + [t]];
      assert tasks[..i + 1] == tasks[..i] + [t];
      i := i + 1;
    }
    assert tasks[..i] == tasks;
  }

  /** One step of the fold: pushing `t` onto its bucket extends exactly that bucket. */
  lemma GroupStep(done: seq<Task>, t: Task, groups: map<Status, seq<Task>>)
    requires forall s :: s in groups <==> InStatus(done, s) != []
    requires forall s :: s in groups ==> groups[s] == InStatus(done, s)
    ensures var g := groups[t.status := (if t.status in groups then groups[t.status] else []) + [t]];
      && (forall s :: s in g <==> InStatus(done + [t], s) != [])
      && (forall s :: s in g ==> g[s] == InStatus(done + [t], s))
  {
    forall s ensures InStatus(done + [t], s) == InStatus(done, s) + (if t.status == s then [t] else []) {
      InStatusAppend(done, t, s);
    }
  }

  /** The column rendered for a status: its bucket, or empty when there is none. */
  function Column(groups: map<Status, seq<Task>>, s: Status): seq<Task> {
    if s in groups then groups[s] else []
  }

  /** Every task lands in exactly one bucket: the three buckets together are the
      store, with nothing duplicated or lost. */
  lemma {:induction false} BucketsPartitionStore(tasks: seq<Task>)
    ensures multiset(InStatus(tasks, ToDo)) + multiset(InStatus(tasks, InProgress))
      + multiset(InStatus(tasks, Completed)) == multiset(tasks)
    ensures |InStatus(tasks, ToDo)| + |InStatus(tasks, InProgress)| + |InStatus(tasks, Completed)| == |tasks|
  {
    if tasks != [] {
      BucketsPartitionStore(tasks[1..]);
      assert tasks == [tasks[0]] + tasks[1..];
    }
  }

  /** A bucket keeps the store's relative order. */
  lemma {:induction false} BucketInStoreOrder(tasks: seq<Task>, s: Status)
    ensures IsSubsequence(InStatus(tasks, s), tasks)
  {
    if tasks != [] {
      var rest := InStatus(tasks[1..], s);
      BucketInStoreOrder(tasks[1..], s);
      if tasks[0].status == s {
        assert ([tasks[0]] + rest)[1..] == rest;
      } else {
        SubsequenceCons(rest, tasks[1..], tasks[0]);
        assert [tasks[0]] + tasks[1..] == tasks;
      }
    }
  }

  /** A Kanban column is the list view filtered by that status, unsorted. */
  lemma {:induction false} ColumnIsListFilter(tasks: seq<Task>, s: Status)
    ensures InStatus(tasks, s) == TaskList.Processed(tasks, TaskList.OnlyStatus(s), TaskList.AllPriorities, TaskList.NoSort, TaskList.Asc)
  {
    if tasks != [] {
      ColumnIsListFilter(tasks[1..], s);
    }
  }

  datatype DraggableLocation = DraggableLocation(droppableId: Status, index: int)

  /** The drag library's drop report; `destination` is absent when the card was
      dropped outside every column. */
  datatype DropResult = DropResult(
    draggableId: string,
    source: DraggableLocation,
    destination: Option<DraggableLocation>)

  /** `tasks.find(t => t._id === id)`: the first record with that id. */
  function FindById(tasks: seq<Task>, id: string): (r: Option<Task>)
    ensures r.None? ==> forall k :: 0 <= k < |tasks| ==> tasks[k].id != Some(id)
    ensures r.Some? ==> r.value.id == Some(id)
    ensures r.Some? ==> exists k :: (0 <= k < |tasks| && tasks[k] == r.value
                                     && forall j :: 0 <= j < k ==> tasks[j].id != Some(id))
  {
    if tasks == [] then None
    else if tasks[0].id == Some(id) then Some(tasks[0])
    else
      var r := FindById(tasks[1..], id);
      assert r.Some? ==> exists k :: (1 <= k < |tasks| && tasks[k] == r.value
                                      && forall j :: 0 <= j < k ==> tasks[j].id != Some(id)) by {
        if r.Some? {
          var k :| 0 <= k < |tasks[1..]| && tasks[1..][k] == r.value
            && forall j :: 0 <= j < k ==> tasks[1..][j].id != Some(id);
          assert tasks[k + 1] == r.value;
          assert forall j :: 0 <= j < k + 1 ==> tasks[j].id != Some(id) by {
            forall j | 0 <= j < k + 1 ensures tasks[j].id != Some(id) {
              if j > 0 { assert tasks[j] == tasks[1..][j - 1]; }
            }
          }
        }
      }
      r
  }

  /** The store after `onDragEnd`: the guard chain, then `updateTask`. */
  function DragEffect(tasks: seq<Task>, result: DropResult): (r: seq<Task>)
    ensures |r| == |tasks|
    ensures forall k :: 0 <= k < |r| && r[k] != tasks[k] ==>
      && result.destination.Some?
      && tasks[k].id == Some(result.draggableId) && r[k].id == Some(result.draggableId)
      && r[k].status == result.destination.value.droppableId
  {
    if result.destination.None? then tasks
    else
      match FindById(tasks, result.draggableId)
      case None => tasks
      case Some(t) =>
        var newStatus := result.destination.value.droppableId;
        if t.status != newStatus then ReplaceById(tasks, t.(status := newStatus)) else tasks
  }

  /** Dropping outside every column changes nothing. */
  lemma DropOutsideIsNoOp(tasks: seq<Task>, result: DropResult)
    requires result.destination.None?
    ensures DragEffect(tasks, result) == tasks
  {
  }

  /** A draggable id matching no task changes nothing. */
  lemma UnknownDraggableIsNoOp(tasks: seq<Task>, result: DropResult)
    requires forall k :: 0 <= k < |tasks| ==> tasks[k].id != Some(result.draggableId)
    ensures DragEffect(tasks, result) == tasks
  {
  }

  /** Dropping the first task with the dragged id into the column it is already in
      changes nothing, whether or not ids are unique. */
  lemma DropOnOwnColumnIsNoOp(tasks: seq<Task>, result: DropResult, k: nat)
    requires k < |tasks| && tasks[k].id == Some(result.draggableId)
    requires forall j :: 0 <= j < k ==> tasks[j].id != Some(result.draggableId)
    requires result.destination.Some? && result.destination.value.droppableId == tasks[k].status
    ensures DragEffect(tasks, result) == tasks
  {
    var found := FindById(tasks, result.draggableId);
    assert found.Some?;
    var m :| 0 <= m < |tasks| && tasks[m] == found.value
      && forall j :: 0 <= j < m ==> tasks[j].id != Some(result.draggableId);
    assert m == k;
  }

  /**
   * With unique ids: dropping task `k` into its own column changes nothing;
   * dropping it into another column changes that task's status and nothing else.
   */
  lemma DropMovesOnlyDraggedTask(tasks: seq<Task>, result: DropResult, k: nat)
    requires UniqueIds(tasks) && k < |tasks|
    requires tasks[k].id == Some(result.draggableId) && result.destination.Some?
    ensures var newStatus := result.destination.value.droppableId;
      DragEffect(tasks, result) == tasks[k := tasks[k].(status := newStatus)]
  {
    var found := FindById(tasks, result.draggableId);
    var newStatus := result.destination.value.droppableId;
    assert found == Some(tasks[k]);
    if tasks[k].status != newStatus {
      ReplaceByIdAt(tasks, k, tasks[k].(status := newStatus));
    } else {
      assert tasks[k := tasks[k].(status := newStatus)] == tasks;
    }
  }

  /** The destination index is ignored: reordering inside a column, or any other
      index and source, gives the same store. */
  lemma DropIndexIgnored(tasks: seq<Task>, result: DropResult, source: DraggableLocation, index: int)
    requires result.destination.Some?
    ensures DragEffect(tasks, result)
      == DragEffect(tasks, result.(source := source, destination := Some(result.destination.value.(index := index))))
  {
  }

  /** After a drop the dragged task shows in the destination column and in no other. */
  lemma DroppedTaskInDestinationColumn(tasks: seq<Task>, result: DropResult, k: nat, s: Status)
    requires UniqueIds(tasks) && k < |tasks|
    requires tasks[k].id == Some(result.draggableId) && result.destination.Some?
    ensures var after := DragEffect(tasks, result);
      var moved := tasks[k].(status := result.destination.value.droppableId);
      (moved in InStatus(after, s) <==> s == moved.status)
      && forall t :: t in InStatus(after, s) && t.id == moved.id ==> s == moved.status
  {
    DropMovesOnlyDraggedTask(tasks, result, k);
    var after := DragEffect(tasks, result);
    assert UniqueIds(after);
    assert after[k] == tasks[k].(status := result.destination.value.droppableId);
  }

  /** The drag handler on the shared store. */
  method OnDragEnd(store: TaskStore, result: DropResult)
    modifies store
    ensures store.tasks == DragEffect(old(store.tasks), result)
    ensures store.newTask == old(store.newTask)
  {
    if result.destination.None? {
      return;
    }
    var task := FindById(store.tasks, result.draggableId);
    if task.None? {
      return;
    }
    var newStatus := result.destination.value.droppableId;
    if task.value.status != newStatus {
      store.UpdateTask(task.value.(status := newStatus));
    }
  }

  /** A card on the board, with its "Update Status" dialog. */
  class MobileTaskCard {
    const task: Task
    const store: TaskStore
    var showStatusModal: bool

    constructor (task: Task, store: TaskStore)
      ensures this.task == task && this.store == store && !showStatusModal
    {
      this.task := task;
      this.store := store;
      showStatusModal := false;
    }

    method Open()
      modifies this
      ensures showStatusModal
    {
      showStatusModal := true;
    }

    method Cancel()
      modifies this
      ensures !showStatusModal
    {
      showStatusModal := false;
    }

    /** Picking a status always writes the card's task with that status (even the
        status it already has) and closes the dialog. */
    method PickStatus(status: Status)
      modifies this, store
      ensures store.tasks == ReplaceById(old(store.tasks), task.(status := status))
      ensures store.newTask == old(store.newTask)
      ensures !showStatusModal
    {
      store.UpdateTask(task.(status := status));
      showStatusModal := false;
    }
  }

  /** Re-picking the current status is a no-op on the store only when the card's
      record agrees with every store record under its id. */
  lemma RepickCurrentStatus(tasks: seq<Task>, task: Task)
    requires forall k :: 0 <= k < |tasks| && tasks[k].id == task.id ==> tasks[k] == task
    ensures ReplaceById(tasks, task.(status := task.status)) == tasks
  {
    ReplaceByIdSame(tasks, task);
  }
}
