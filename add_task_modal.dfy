/**
 * The add/edit task dialog. `handleAddTask` is asynchronous: it sets
 * `submitting`, awaits one request, then finishes. The model splits it at that
 * await into `Submit` (what runs before the request) and `Complete` (what runs
 * when it settles), so that user actions in between, such as closing the
 * dialog, can be stated.
 */
module AddTaskModal {
  import opened Options
  import opened Tasks
  import Api

  /** The request an in-flight submission sends; `owner` is the signed-in user's email. */
  datatype Request =
    | UpdateRequest(url: string, body: Task)
    | AddRequest(url: string, body: Task, owner: Option<string>)

  class AddTaskDialog {
    const store: TaskStore
    /** The configured API base (`NEXT_PUBLIC_BASE_URL`). */
    const rawBase: Option<string>
    /** `user?.email` from the dashboard store. */
    const owner: Option<string>
    /** `isAddModalOpen`. */
    var open: bool
    var submitting: bool
    /** The draft the running `handleAddTask` captured when it started. */
    var captured: Task

    constructor (store: TaskStore, rawBase: Option<string>, owner: Option<string>, open: bool)
      ensures this.store == store && this.rawBase == rawBase && this.owner == owner
      ensures this.open == open && !submitting
    {
      this.store := store;
      this.rawBase := rawBase;
      this.owner := owner;
      this.open := open;
      submitting := false;
      captured := EmptyTask;
    }

    /** `handleAddModalClose`: ignored while submitting; otherwise closes and blanks the draft. */
    method Close()
      modifies this, store
      ensures old(submitting) ==> open == old(open) && store.newTask == old(store.newTask)
      ensures !old(submitting) ==> !open && store.newTask == EmptyTask
      ensures store.tasks == old(store.tasks)
      ensures submitting == old(submitting) && captured == old(captured)
    {
      if submitting {
        return;
      }
      open := false;
      store.SetNewTask(EmptyTask);
    }

    /**
     * The first part of `handleAddTask`: marks the dialog as submitting and
     * builds the request from the draft, an update when the draft has an
     * `_id` and an add otherwise. The submit button is disabled while
     * submitting, so a new submission starts only when none is running.
     */
    method Submit() returns (request: Request)
      requires !submitting
      modifies this
      ensures submitting && captured == store.newTask && open == old(open)
      ensures HasId(captured) ==> request == UpdateRequest(Api.ApiUrl(rawBase, "/api/updatetask"), captured)
      ensures !HasId(captured) ==> request == AddRequest(Api.ApiUrl(rawBase, "/api/addtask"), captured, owner)
    {
      submitting := true;
      captured := store.newTask;
      if HasId(captured) {
        request := UpdateRequest(Api.ApiUrl(rawBase, "/api/updatetask"), captured);
      } else {
        request := AddRequest(Api.ApiUrl(rawBase, "/api/addtask"), captured, owner);
      }
    }

    /**
     * The rest of `handleAddTask` once the request settled. `ok` is false for a
     * non-ok status and for a thrown fetch, both of which end in the catch;
     * `created` is the `task` of the add response's body. On success the store
     * takes the captured draft (update path) or the server's task (add path),
     * the draft is blanked and the dialog closes; on failure only `submitting`
     * changes. `submitting` is false afterwards in every case.
     */
    method Complete(ok: bool, created: Task)
      requires submitting
      modifies this, store
      ensures !submitting && captured == old(captured)
      ensures ok && HasId(captured) ==> store.tasks == ReplaceById(old(store.tasks), captured)
      ensures ok && !HasId(captured) ==> store.tasks == old(store.tasks) + [created]
      ensures ok ==> store.newTask == EmptyTask && !open
      ensures !ok ==> store.tasks == old(store.tasks) && store.newTask == old(store.newTask) && open == old(open)
    {
      if ok {
        if HasId(captured) {
          store.UpdateTask(captured);
        } else {
          store.AddTask(created);
        }
        store.SetNewTask(EmptyTask);
        open := false;
      }
      submitting := false;
    }

    /** `handleAddTask` with no user action while the request is in flight. */
    method HandleAddTask(ok: bool, created: Task) returns (request: Request)
      requires !submitting
      modifies this, store
      ensures !submitting && captured == old(store.newTask)
      ensures HasId(captured) ==> request == UpdateRequest(Api.ApiUrl(rawBase, "/api/updatetask"), captured)
      ensures !HasId(captured) ==> request == AddRequest(Api.ApiUrl(rawBase, "/api/addtask"), captured, owner)
      ensures ok && HasId(captured) ==> store.tasks == ReplaceById(old(store.tasks), captured)
      ensures ok && !HasId(captured) ==> store.tasks == old(store.tasks) + [created]
      ensures ok ==> store.newTask == EmptyTask && !open
      ensures !ok ==> store.tasks == old(store.tasks) && store.newTask == old(store.newTask) && open == old(open)
    {
      request := Submit();
      Complete(ok, created);
    }

    /** The title input: only the draft's title changes. */
    method SetTitle(value: string)
      modifies store
      ensures store.newTask == old(store.newTask).(title := value) && store.tasks == old(store.tasks)
    {
      store.SetNewTask(store.newTask.(title := value));
    }

    method SetDescription(value: string)
      modifies store
      ensures store.newTask == old(store.newTask).(description := value) && store.tasks == old(store.tasks)
    {
      store.SetNewTask(store.newTask.(description := value));
    }

    method SetStatus(value: Status)
      modifies store
      ensures store.newTask == old(store.newTask).(status := value) && store.tasks == old(store.tasks)
    {
      store.SetNewTask(store.newTask.(status := value));
    }

    method SetPriority(value: Priority)
      modifies store
      ensures store.newTask == old(store.newTask).(priority := value) && store.tasks == old(store.tasks)
    {
      store.SetNewTask(store.newTask.(priority := value));
    }

    /**
     * The date input: an empty input clears the due date; otherwise it becomes
     * `parsed`, the timestamp that parsing the input yields (date parsing is
     * outside the model).
     */
    method SetDueDate(input: string, parsed: int)
      modifies store
      ensures store.newTask == old(store.newTask).(dueDate := if input == "" then None else Some(parsed))
      ensures store.tasks == old(store.tasks)
    {
      store.SetNewTask(store.newTask.(dueDate := if input == "" then None else Some(parsed)));
    }
  }

  /** Closing while a submission is in flight keeps the dialog and the draft;
      when the request then fails, the draft the user typed is still there. */
  method CloseDuringSubmitThenFail(dialog: AddTaskDialog, created: Task)
    requires !dialog.submitting && dialog.open
    modifies dialog, dialog.store
    ensures dialog.open && !dialog.submitting
    ensures dialog.store.newTask == old(dialog.store.newTask)
    ensures dialog.store.tasks == old(dialog.store.tasks)
  {
    var _ := dialog.Submit();
    dialog.Close();
    dialog.Complete(false, created);
  }
}
