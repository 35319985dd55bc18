/** One list on the board: adding a task at the end of it, and renaming it. */
module ColumnView {
  import opened Common
  import opened Board

  /** `createTask(columnId, title, order)`. */
  datatype CreateTaskCall = CreateTask(columnId: int, title: string, order: nat)

  /** `updateColumn(columnId, title)`. */
  datatype UpdateColumnCall = UpdateColumn(columnId: int, title: string)

  /** Orders 0, 1, 2, ... in list position: what appending maintains. */
  predicate ContiguousOrders(orders: seq<int>) {
    forall i :: 0 <= i < |orders| ==> orders[i] == i
  }

  /** A new item whose order is the current count keeps the orders
      contiguous and sorts after every existing item. */
  lemma AppendKeepsOrders(orders: seq<int>)
    requires ContiguousOrders(orders)
    ensures ContiguousOrders(orders + [|orders|])
    ensures forall i :: 0 <= i < |orders| ==> orders[i] < |orders|
  {
  }

  /** The orders are not kept contiguous: `updateTaskColumn` renumbers no
      other task, so after the first of three tasks is dragged out the
      column keeps orders 1 and 2, and the next task added gets order 2,
      one already in use. */
  lemma DragOutThenAppendReusesOrder()
    ensures var left := Remove([0, 1, 2], 0);
      left == [1, 2] && !ContiguousOrders(left) && |left| in left
  {
    var left := Remove([0, 1, 2], 0);
    assert left == [1, 2];
    assert left[0] != 0;
  }

  class ColumnCard {
    const column: Column
    var isAddingTask: bool
    var isEditing: bool
    /** The title being edited. */
    var columnTitle: string

    constructor (c: Column)
      ensures column == c && columnTitle == c.title && !isAddingTask && !isEditing
    {
      column := c;
      columnTitle := c.title;
      isAddingTask, isEditing := false, false;
    }

    /** Submitting the add-task form: a non-empty title creates a task
        ordered after the column's current tasks. `thrown` says whether the
        awaited `createTask` rejects (a store error such as the foreign key
        of a column deleted elsewhere; missing session or permission come
        back as an error value instead); then the form is left as it was.
        Otherwise it closes. */
    method SubmitTask(title: string, thrown: bool) returns (call: Option<CreateTaskCall>)
      modifies this`isAddingTask
      ensures call.Some? <==> title != ""
      ensures call.Some? ==> call.value == CreateTask(column.id, title, |column.tasks|)
      ensures call.Some? && thrown ==> isAddingTask == old(isAddingTask)
      ensures !(call.Some? && thrown) ==> !isAddingTask
    {
      call := None;
      if title != "" {
        call := Some(CreateTask(column.id, title, |column.tasks|));
        if thrown {
          return;
        }
      }
      isAddingTask := false;
    }

    /** Typing in the title field. */
    method EditTitle(value: string)
      modifies this`columnTitle
      ensures columnTitle == value
    {
      columnTitle := value;
    }

    /** Leaving the title field or pressing Enter: the server is told only
        about a changed title. `thrown` says whether the awaited
        `updateColumn` rejects (no session, no permission, a store error);
        then editing does not end. Otherwise it ends. */
    method UpdateTitle(thrown: bool) returns (call: Option<UpdateColumnCall>)
      modifies this`isEditing
      ensures call.Some? <==> columnTitle != column.title
      ensures call.Some? ==> call.value == UpdateColumn(column.id, columnTitle)
      ensures call.Some? && thrown ==> isEditing == old(isEditing)
      ensures !(call.Some? && thrown) ==> !isEditing
    {
      call := None;
      if columnTitle != column.title {
        call := Some(UpdateColumn(column.id, columnTitle));
        if thrown {
          return;
        }
      }
      isEditing := false;
    }
  }
}
