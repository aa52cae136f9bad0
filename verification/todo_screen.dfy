/**
 * `ToDoScreen` (`ToDoScreen.kt`): the list of open (status 0) or done
 * (status 1) records, with its callbacks. Each callback that changes the
 * table re-reads the whole table and keeps the records whose status is the
 * screen's; the boolean the store returns is ignored.
 */
module Screen {
  import opened Wrappers
  import opened KotlinText
  import opened ToDoRecord
  import opened DbHelper
  import opened Controller

  /** `todos.filter { it.status == status }` */
  function FilterByStatus(todos: seq<ToDo>, status: Int32): (r: seq<ToDo>)
    ensures |r| <= |todos|
    ensures forall t | t in r :: t in todos && t.status == status
    ensures forall t | t in todos && t.status == status :: t in r
  {
    if todos == [] then []
    else if todos[0].status == status then [todos[0]] + FilterByStatus(todos[1..], status)
    else FilterByStatus(todos[1..], status)
  }

  /** Filtering a list with distinct ids leaves a list with distinct ids. */
  lemma {:induction false} FilterKeepsDistinctIds(todos: seq<ToDo>, status: Int32)
    requires DistinctIds(todos)
    ensures DistinctIds(FilterByStatus(todos, status))
  {
    if todos != [] {
      var tail := todos[1..];
      assert DistinctIds(tail) by {
        forall i, j | 0 <= i < j < |tail| ensures tail[i].id != tail[j].id {
          assert tail[i] == todos[i + 1] && tail[j] == todos[j + 1];
        }
      }
      FilterKeepsDistinctIds(tail, status);
      var rest := FilterByStatus(tail, status);
      forall k | 0 <= k < |rest| ensures rest[k].id != todos[0].id {
        assert rest[k] in tail;
        var m :| 0 <= m < |tail| && tail[m] == rest[k];
        assert tail[m] == todos[m + 1];
      }
    }
  }

  /**
   * The status toggle: `item.copy(status = if (item.isCompleted) 0 else 1)`.
   * Completion flips and the status always changes.
   */
  function Toggled(item: ToDo): (t: ToDo)
    ensures t == item.(status := t.status)
    ensures t.status == 0 || t.status == 1
    ensures t.status != item.status
    ensures IsCompleted(t) <==> !IsCompleted(item)
  {
    item.(status := if IsCompleted(item) then 0 else 1)
  }

  /**
   * Toggling twice restores a record whose status is 0 or 1; any other status
   * comes back as 0.
   */
  lemma ToggleTwice(item: ToDo)
    ensures item.status == 0 || item.status == 1 ==> Toggled(Toggled(item)) == item
    ensures item.status != 0 && item.status != 1 ==> Toggled(Toggled(item)) == item.(status := 0)
  {
  }

  class ToDoScreen {
    const controller: ToDoController
    const status: Int32
    var updatedTodos: seq<ToDo>
    var showEditDialog: bool
    var showAddDialog: bool
    var todoToEdit: Option<ToDo>

    ghost predicate Valid()
      reads this, controller, controller.db
    {
      controller.Valid() && forall t | t in updatedTodos :: t.status == status
    }

    /** The list shows exactly the stored records with the screen's status, each once. */
    ghost predicate ShowsStore()
      reads this, controller, controller.db
    {
      && (forall t | t in updatedTodos :: t in controller.Records() && t.status == status)
      && (forall r | r in controller.Records() && r.status == status :: r in updatedTodos)
      && DistinctIds(updatedTodos)
    }

    /** Whether the edit dialog is on screen. */
    predicate EditDialogShown()
      reads this
    {
      showEditDialog && todoToEdit.Some?
    }

    /** The screen opens on a list already filtered by its status. */
    constructor (todos: seq<ToDo>, controller: ToDoController, status: Int32)
      requires controller.Valid()
      requires forall t | t in todos :: t.status == status
      ensures Valid()
      ensures this.controller == controller && this.status == status && updatedTodos == todos
      ensures !showEditDialog && !showAddDialog && todoToEdit == None && !EditDialogShown()
    {
      this.controller := controller;
      this.status := status;
      updatedTodos := todos;
      showEditDialog, showAddDialog := false, false;
      todoToEdit := None;
    }

    /** `updatedTodos = toDoController.getAllToDos().filter { it.status == status }` */
    method Refresh()
      requires Valid()
      modifies this
      ensures Valid() && ShowsStore()
      ensures showEditDialog == old(showEditDialog) && showAddDialog == old(showAddDialog)
      ensures todoToEdit == old(todoToEdit)
    {
      var all := controller.GetAllToDos();
      FilterKeepsDistinctIds(all, status);
      updatedTodos := FilterByStatus(all, status);
    }

    /** The status button of a listed item: store the toggled copy, then refresh. */
    method OnItemClicked(item: ToDo)
      requires Valid() && item in updatedTodos
      modifies this, controller.db
      ensures Valid() && ShowsStore()
      ensures controller.db.rows ==
        if item.id in old(controller.db.rows) then old(controller.db.rows)[item.id := RowOf(Toggled(item))]
        else old(controller.db.rows)
      ensures controller.db.sequence == old(controller.db.sequence) && controller.db.issued == old(controller.db.issued)
      ensures forall t | t in updatedTodos :: t.id != item.id
      ensures showEditDialog == old(showEditDialog) && showAddDialog == old(showAddDialog)
      ensures todoToEdit == old(todoToEdit)
    {
      var newItem := Toggled(item);
      var _ := controller.UpdateToDo(newItem);
      Refresh();
      forall t | t in updatedTodos ensures t.id != item.id {
        InRecords(controller.db.rows, t);
      }
    }

    /** The delete button of a listed item: delete by id, then refresh. */
    method OnDeleteClicked(item: ToDo)
      requires Valid()
      modifies this, controller.db
      ensures Valid() && ShowsStore()
      ensures controller.db.rows == old(controller.db.rows) - {item.id}
      ensures controller.db.sequence == old(controller.db.sequence) && controller.db.issued == old(controller.db.issued)
      ensures forall t | t in updatedTodos :: t.id != item.id
      ensures showEditDialog == old(showEditDialog) && showAddDialog == old(showAddDialog)
      ensures todoToEdit == old(todoToEdit)
    {
      var _ := controller.DeleteToDo(item.id);
      Refresh();
    }

    /** The edit button of a listed item: remember it and open the edit dialog. */
    method OnEditClicked(item: ToDo)
      modifies this
      ensures todoToEdit == Some(item) && showEditDialog && EditDialogShown()
      ensures updatedTodos == old(updatedTodos) && showAddDialog == old(showAddDialog)
    {
      todoToEdit := Some(item);
      showEditDialog := true;
    }

    /** The floating add button. */
    method OnAddClicked()
      modifies this
      ensures showAddDialog
      ensures updatedTodos == old(updatedTodos) && showEditDialog == old(showEditDialog)
      ensures todoToEdit == old(todoToEdit)
    {
      showAddDialog := true;
    }

    /** Closing the add dialog without saving. */
    method OnAddDismiss()
      modifies this
      ensures !showAddDialog
      ensures updatedTodos == old(updatedTodos) && showEditDialog == old(showEditDialog)
      ensures todoToEdit == old(todoToEdit)
    {
      showAddDialog := false;
    }

    /**
     * The add dialog's save: insert the new record, refresh, close the dialog.
     * When the insert took, a new record with the screen's status is listed
     * under its fresh id.
     */
    method OnAddSave(newToDo: ToDo, ioFailure: bool)
      requires Valid() && showAddDialog
      modifies this, controller.db
      ensures Valid() && ShowsStore() && !showAddDialog
      ensures controller.db.sequence != old(controller.db.sequence) <==>
        !ioFailure && old(controller.db.sequence) < MaxRowId
      ensures controller.db.sequence != old(controller.db.sequence) ==>
        controller.db.sequence == old(controller.db.sequence) + 1 &&
        controller.db.rows == old(controller.db.rows)[controller.db.sequence := RowOf(newToDo)]
      ensures controller.db.sequence == old(controller.db.sequence) ==> controller.db.rows == old(controller.db.rows)
      ensures controller.db.sequence != old(controller.db.sequence) && newToDo.status == status ==>
        newToDo.(id := controller.db.sequence) in updatedTodos
      ensures showEditDialog == old(showEditDialog) && todoToEdit == old(todoToEdit)
    {
      var _ := controller.InsertToDo(newToDo, ioFailure);
      Refresh();
      showAddDialog := false;
    }

    /** Closing the edit dialog without saving. */
    method OnEditDismiss()
      modifies this
      ensures !showEditDialog && !EditDialogShown()
      ensures updatedTodos == old(updatedTodos) && showAddDialog == old(showAddDialog)
      ensures todoToEdit == old(todoToEdit)
    {
      showEditDialog := false;
    }

    /** The edit dialog's save: update by id, refresh, close the dialog. */
    method OnEditSave(updatedToDo: ToDo)
      requires Valid() && EditDialogShown()
      modifies this, controller.db
      ensures Valid() && ShowsStore() && !showEditDialog && !EditDialogShown()
      ensures controller.db.rows ==
        if updatedToDo.id in old(controller.db.rows) then old(controller.db.rows)[updatedToDo.id := RowOf(updatedToDo)]
        else old(controller.db.rows)
      ensures updatedToDo.id in old(controller.db.rows) && updatedToDo.status == status ==> updatedToDo in updatedTodos
      ensures controller.db.sequence == old(controller.db.sequence) && controller.db.issued == old(controller.db.issued)
      ensures showAddDialog == old(showAddDialog) && todoToEdit == old(todoToEdit)
    {
      var _ := controller.UpdateToDo(updatedToDo);
      Refresh();
      showEditDialog := false;
    }
  }

  /**
   * Deleting a listed item and then adding a record through the add dialog:
   * the new record never gets the deleted item's id.
   */
  method DeleteThenAdd(scr: ToDoScreen, item: ToDo, newToDo: ToDo, ioFailure: bool)
    requires scr.Valid() && item in scr.updatedTodos && scr.ShowsStore()
    modifies scr, scr.controller.db
    ensures scr.Valid() && scr.ShowsStore() && !scr.showAddDialog
    ensures forall t | t in scr.updatedTodos :: t.id != item.id
    ensures scr.controller.db.sequence != old(scr.controller.db.sequence) ==> scr.controller.db.sequence != item.id
    ensures item.id !in scr.controller.db.rows
  {
    assert item.id in scr.controller.db.issued by {
      InRecords(scr.controller.db.rows, item);
    }
    scr.OnDeleteClicked(item);
    scr.OnAddClicked();
    scr.OnAddSave(newToDo, ioFailure);
    forall t | t in scr.updatedTodos ensures t.id != item.id {
      InRecords(scr.controller.db.rows, t);
    }
  }
}
