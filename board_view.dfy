/** The board screen: drag-and-drop moves of columns and tasks (applied to
    the local board first, then persisted), the search filter, merging an
    edited task back into the board, and the "Add List" form. */
module BoardView {
  import opened Common
  import opened Board

  datatype DragKind = ColumnDrag | TaskDrag

  /** Where a drag starts or ends: the list (`droppableId`) and the position in it. */
  datatype Location = Location(droppableId: int, index: nat)

  /** What the drag-and-drop library reports when a drag ends. */
  datatype DropResult = DropResult(
    kind: DragKind,
    draggableId: int,
    source: Location,
    destination: Option<Location>)

  /** The server action a drag ends with, if any. */
  datatype ServerCall =
    | NoCall
    | UpdateColumnsOrder(columnIds: seq<int>)
    | UpdateTaskColumn(taskId: int, columnId: int, order: int)

  /** The drop sits exactly where the drag started. */
  predicate IsInPlace(r: DropResult)
    requires r.destination.Some?
  {
    r.destination.value.droppableId == r.source.droppableId && r.destination.value.index == r.source.index
  }

  /** What the library guarantees about a drop on this board: a column drag
      stays inside the column list, a task drag starts and ends in existing
      columns, and every index is a valid `splice` position. */
  predicate ValidDrop(cols: seq<Column>, r: DropResult) {
    r.destination.Some? ==>
      var s, d := r.source, r.destination.value;
      if r.kind == ColumnDrag then
        s.index < |cols| && d.index < |cols|
      else
        HasColumn(cols, s.droppableId) && HasColumn(cols, d.droppableId) &&
        var si, di := IndexOfColumn(cols, s.droppableId), IndexOfColumn(cols, d.droppableId);
        s.index < |cols[si].tasks| &&
        (if si == di then d.index < |cols[si].tasks| else d.index <= |cols[di].tasks|)
  }

  /** The board and the server call that `onDragEnd` produces. */
  function DragOutcome(b: Board, r: DropResult): (Board, ServerCall)
    requires ValidDrop(b.columns, r)
  {
    if r.destination.None? || IsInPlace(r) then (b, NoCall)
    else
      var s, d := r.source, r.destination.value;
      if r.kind == ColumnDrag then
        var cols := Move(b.columns, s.index, d.index);
        (b.(columns := cols), UpdateColumnsOrder(ColumnIds(cols)))
      else
        var si, di := IndexOfColumn(b.columns, s.droppableId), IndexOfColumn(b.columns, d.droppableId);
        var src := b.columns[si];
        if si == di then
          var tasks := Move(src.tasks, s.index, d.index);
          (b.(columns := b.columns[si := src.(tasks := tasks)]), UpdateTaskColumn(r.draggableId, src.id, d.index))
        else
          var dst := b.columns[di];
          var srcTasks := Remove(src.tasks, s.index);
          var dstTasks := Insert(dst.tasks, d.index, src.tasks[s.index]);
          (b.(columns := b.columns[si := src.(tasks := srcTasks)][di := dst.(tasks := dstTasks)]),
           UpdateTaskColumn(r.draggableId, dst.id, d.index))
  }

  // -----------------------------------------------------------------------
  // Properties of a drop
  // -----------------------------------------------------------------------

  /** A cancelled drag, or a drop where it started, changes nothing and calls nothing. */
  lemma DropNothingIsNoOp(b: Board, r: DropResult)
    requires ValidDrop(b.columns, r)
    requires r.destination.None? || IsInPlace(r)
    ensures DragOutcome(b, r) == (b, NoCall)
  {
  }

  /** A column drag moves one column: the column list is a permutation of the
      old one, the dragged column lands at the destination index, and the
      ids sent to `updateColumnsOrder` are the new column order. */
  lemma ColumnDragMovesColumn(b: Board, r: DropResult)
    requires ValidDrop(b.columns, r)
    requires r.destination.Some? && !IsInPlace(r) && r.kind == ColumnDrag
    ensures var (b', call) := DragOutcome(b, r);
      && b'.id == b.id && b'.title == b.title
      && |b'.columns| == |b.columns|
      && multiset(b'.columns) == multiset(b.columns)
      && b'.columns[r.destination.value.index] == b.columns[r.source.index]
      && call == UpdateColumnsOrder(ColumnIds(b'.columns))
      && forall i :: 0 <= i < |b'.columns| ==> call.columnIds[i] == b'.columns[i].id
  {
    MoveIsPermutation(b.columns, r.source.index, r.destination.value.index);
  }

  /** Dragging a column back to where it came from restores the board. */
  lemma ColumnDragUndo(b: Board, r: DropResult)
    requires ValidDrop(b.columns, r)
    requires r.destination.Some? && !IsInPlace(r) && r.kind == ColumnDrag
    ensures var b' := DragOutcome(b, r).0;
      var back := DropResult(ColumnDrag, r.draggableId, r.destination.value, Some(r.source));
      ValidDrop(b'.columns, back) && DragOutcome(b', back).0 == b
  {
    MoveUndo(b.columns, r.source.index, r.destination.value.index);
  }

  /** A drag inside one column reorders only that column's tasks, puts the
      dragged task at the destination index, leaves every other column as
      it was, and persists the task with its column and the destination index. */
  lemma SameColumnDragMovesTask(b: Board, r: DropResult)
    requires ValidDrop(b.columns, r)
    requires r.destination.Some? && !IsInPlace(r) && r.kind == TaskDrag
    requires IndexOfColumn(b.columns, r.source.droppableId) == IndexOfColumn(b.columns, r.destination.value.droppableId)
    ensures var (b', call) := DragOutcome(b, r);
      var ci := IndexOfColumn(b.columns, r.source.droppableId);
      && 0 <= ci < |b.columns|
      && |b'.columns| == |b.columns|
      && b'.columns[ci].id == b.columns[ci].id && b'.columns[ci].title == b.columns[ci].title
      && multiset(b'.columns[ci].tasks) == multiset(b.columns[ci].tasks)
      && |b'.columns[ci].tasks| == |b.columns[ci].tasks|
      && b'.columns[ci].tasks[r.destination.value.index] == b.columns[ci].tasks[r.source.index]
      && (forall k :: 0 <= k < |b.columns| && k != ci ==> b'.columns[k] == b.columns[k])
      && call == UpdateTaskColumn(r.draggableId, b.columns[ci].id, r.destination.value.index)
  {
    var ci := IndexOfColumn(b.columns, r.source.droppableId);
    MoveIsPermutation(b.columns[ci].tasks, r.source.index, r.destination.value.index);
  }

  /** A drag between two columns takes the task out of the source column,
      inserts it at the destination index of the destination column, keeps
      every task of the board (and their number), leaves all other columns
      alone, and persists only the dragged task with its new column. */
  lemma CrossColumnDragMovesTask(b: Board, r: DropResult)
    requires ValidDrop(b.columns, r)
    requires r.destination.Some? && !IsInPlace(r) && r.kind == TaskDrag
    requires IndexOfColumn(b.columns, r.source.droppableId) != IndexOfColumn(b.columns, r.destination.value.droppableId)
    ensures var (b', call) := DragOutcome(b, r);
      var si := IndexOfColumn(b.columns, r.source.droppableId);
      var di := IndexOfColumn(b.columns, r.destination.value.droppableId);
      && 0 <= si < |b.columns| && 0 <= di < |b.columns|
      && |b'.columns| == |b.columns|
      && b'.columns[si].tasks == Remove(b.columns[si].tasks, r.source.index)
      && b'.columns[di].tasks == Insert(b.columns[di].tasks, r.destination.value.index, b.columns[si].tasks[r.source.index])
      && (forall k :: 0 <= k < |b.columns| && k != si && k != di ==> b'.columns[k] == b.columns[k])
      && call == UpdateTaskColumn(r.draggableId, b.columns[di].id, r.destination.value.index)
  {
  }

  /** A drag between two columns keeps every task of the board, each as
      often as before, and so their number. */
  lemma CrossColumnDragKeepsTasks(b: Board, r: DropResult)
    requires ValidDrop(b.columns, r)
    requires r.destination.Some? && !IsInPlace(r) && r.kind == TaskDrag
    requires IndexOfColumn(b.columns, r.source.droppableId) != IndexOfColumn(b.columns, r.destination.value.droppableId)
    ensures multiset(TasksOf(DragOutcome(b, r).0.columns)) == multiset(TasksOf(b.columns))
    ensures |TasksOf(DragOutcome(b, r).0.columns)| == |TasksOf(b.columns)|
  {
    CrossColumnDragMovesTask(b, r);
    var cols, cols' := b.columns, DragOutcome(b, r).0.columns;
    var si, di := IndexOfColumn(cols, r.source.droppableId), IndexOfColumn(cols, r.destination.value.droppableId);
    MoveBetweenColumnsKeepsTasks(cols, cols', si, di, r.source.index, r.destination.value.index);
  }

  // -----------------------------------------------------------------------
  // Search filter
  // -----------------------------------------------------------------------

  /** The task's title, or one of its label names, contains the query, ignoring case. */
  predicate MatchesQuery(t: Task, query: string) {
    Includes(Lower(t.title), Lower(query)) ||
    exists i | 0 <= i < |t.labels| :: Includes(Lower(t.labels[i].name), Lower(query))
  }

  /** `filteredColumns`: every column, each showing only the tasks matching the query. */
  function FilteredColumns(cols: seq<Column>, query: string): seq<Column> {
    seq(|cols|, i requires 0 <= i < |cols| => cols[i].(tasks := Filter(cols[i].tasks, t => MatchesQuery(t, query))))
  }

  /** Filtering keeps every column in place and shows, in order, exactly
      the tasks that match. */
  lemma FilteredColumnsShape(cols: seq<Column>, query: string)
    ensures var f := FilteredColumns(cols, query);
      && |f| == |cols|
      && (forall i :: 0 <= i < |cols| ==> f[i].id == cols[i].id && f[i].title == cols[i].title)
      && (forall i :: 0 <= i < |cols| ==> IsSubseq(f[i].tasks, cols[i].tasks))
      && (forall i, t :: 0 <= i < |cols| ==> (t in f[i].tasks <==> t in cols[i].tasks && MatchesQuery(t, query)))
  {
    var f := FilteredColumns(cols, query);
    forall i | 0 <= i < |cols| ensures IsSubseq(f[i].tasks, cols[i].tasks) {
      FilterIsSubseq(cols[i].tasks, t => MatchesQuery(t, query));
    }
    forall i, t | 0 <= i < |cols| ensures t in f[i].tasks <==> t in cols[i].tasks && MatchesQuery(t, query) {
      FilterMembership(cols[i].tasks, t => MatchesQuery(t, query), t);
    }
  }

  /** With an empty search box the rendered board is the board itself, so
      the indices the library reports are indices into `board.columns`. */
  lemma EmptyQueryShowsEverything(cols: seq<Column>)
    ensures FilteredColumns(cols, "") == cols
  {
    forall i | 0 <= i < |cols| ensures Filter(cols[i].tasks, t => MatchesQuery(t, "")) == cols[i].tasks {
      forall k | 0 <= k < |cols[i].tasks| ensures MatchesQuery(cols[i].tasks[k], "") {
        IncludesEmpty(Lower(cols[i].tasks[k].title));
      }
      FilterKeepsAll(cols[i].tasks, t => MatchesQuery(t, ""));
    }
  }

  /** With a non-empty query the indices disagree: the user drags "beta",
      the only task shown in list 1, into list 2; the board then moves
      "alpha" locally while the server is told to move "beta". */
  lemma FilteredDragMovesWrongTask()
    ensures var alpha := Task(10, "alpha", false, None, [], 0);
      var beta := Task(11, "beta", false, None, [], 0);
      var b := Board(1, "b", [Column(1, "l", [alpha, beta]), Column(2, "m", [])]);
      var r := DropResult(TaskDrag, 11, Location(1, 0), Some(Location(2, 0)));
      && FilteredColumns(b.columns, "beta")[0].tasks == [beta]
      && ValidDrop(b.columns, r)
      && DragOutcome(b, r).0.columns[1].tasks == [alpha]
      && DragOutcome(b, r).1 == UpdateTaskColumn(11, 2, 0)
  {
    var alpha := Task(10, "alpha", false, None, [], 0);
    var beta := Task(11, "beta", false, None, [], 0);
    OnlyBetaMatches(alpha, beta);
    var b := Board(1, "b", [Column(1, "l", [alpha, beta]), Column(2, "m", [])]);
    assert b.columns[0].id == 1 && b.columns[1].id == 2;
    assert Filter([alpha, beta], t => MatchesQuery(t, "beta")) == [beta] by {
      assert [alpha, beta][1..] == [beta];
      assert [beta][1..] == [];
    }
  }

  /** The search "beta" matches the task titled "beta" and not the one
      titled "alpha". */
  lemma OnlyBetaMatches(alpha: Task, beta: Task)
    requires alpha.title == "alpha" && alpha.labels == []
    requires beta.title == "beta"
    ensures !MatchesQuery(alpha, "beta") && MatchesQuery(beta, "beta")
  {
    assert Lower("beta") == "beta";
    assert Lower("alpha") == "alpha";
    assert Includes("beta", "beta");
    assert !Includes("a", "beta");
    assert !Includes("ha", "beta");
    assert !Includes("pha", "beta");
    assert "lpha"[0] != "beta"[0];
    assert !Includes("lpha", "beta");
    assert "alpha"[0] != "beta"[0];
    assert !Includes("alpha", "beta");
  }

  // -----------------------------------------------------------------------
  // Merging an edited task into the board
  // -----------------------------------------------------------------------

  /** The fields an edit carries; an absent field keeps the board's value
      (the object spread `{ ...task, ...updatedTask }`). */
  datatype TaskPatch = TaskPatch(
    id: int,
    title: Option<string>,
    isCompleted: Option<bool>,
    dueDate: Option<Option<int>>,
    labels: Option<seq<Label>>,
    blockedByCount: Option<nat>)

  function Pick<T>(o: Option<T>, dflt: T): T {
    if o.Some? then o.value else dflt
  }

  /** `{ ...task, ...updatedTask }`. */
  function Merge(t: Task, p: TaskPatch): Task {
    Task(t.id, Pick(p.title, t.title), Pick(p.isCompleted, t.isCompleted), Pick(p.dueDate, t.dueDate),
         Pick(p.labels, t.labels), Pick(p.blockedByCount, t.blockedByCount))
  }

  /** `handleTaskUpdate`: every task whose id matches takes the patch. */
  function WithTaskUpdated(cols: seq<Column>, p: TaskPatch): seq<Column> {
    seq(|cols|, i requires 0 <= i < |cols| =>
      cols[i].(tasks := seq(|cols[i].tasks|, k requires 0 <= k < |cols[i].tasks| =>
        var t := cols[i].tasks[k]; if t.id == p.id then Merge(t, p) else t)))
  }

  /** Applying an edit keeps the column structure, leaves every other task
      untouched, and gives the edited task the patched fields and its own
      values for the rest. */
  lemma TaskUpdateTouchesOnlyThatTask(cols: seq<Column>, p: TaskPatch)
    ensures var u := WithTaskUpdated(cols, p);
      && |u| == |cols|
      && (forall i :: 0 <= i < |cols| ==>
            u[i].id == cols[i].id && u[i].title == cols[i].title && |u[i].tasks| == |cols[i].tasks|)
      && (forall i, k :: 0 <= i < |cols| && 0 <= k < |cols[i].tasks| && cols[i].tasks[k].id != p.id ==>
            u[i].tasks[k] == cols[i].tasks[k])
      && (forall i, k :: 0 <= i < |cols| && 0 <= k < |cols[i].tasks| && cols[i].tasks[k].id == p.id ==>
            var t, t' := cols[i].tasks[k], u[i].tasks[k];
            && t'.id == t.id
            && (p.title.Some? ==> t'.title == p.title.value) && (p.title.None? ==> t'.title == t.title)
            && (p.isCompleted.Some? ==> t'.isCompleted == p.isCompleted.value)
            && (p.isCompleted.None? ==> t'.isCompleted == t.isCompleted)
            && (p.dueDate.Some? ==> t'.dueDate == p.dueDate.value) && (p.dueDate.None? ==> t'.dueDate == t.dueDate)
            && (p.labels.Some? ==> t'.labels == p.labels.value) && (p.labels.None? ==> t'.labels == t.labels)
            && (p.blockedByCount.Some? ==> t'.blockedByCount == p.blockedByCount.value)
            && (p.blockedByCount.None? ==> t'.blockedByCount == t.blockedByCount))
  {
  }

  /** Applying the same edit twice is the same as applying it once. */
  lemma TaskUpdateIdempotent(cols: seq<Column>, p: TaskPatch)
    ensures WithTaskUpdated(WithTaskUpdated(cols, p), p) == WithTaskUpdated(cols, p)
  {
    var u := WithTaskUpdated(cols, p);
    var uu := WithTaskUpdated(u, p);
    forall i | 0 <= i < |cols| ensures uu[i] == u[i] {
      assert uu[i].tasks == u[i].tasks;
    }
  }

  // -----------------------------------------------------------------------
  // The board screen's state and handlers
  // -----------------------------------------------------------------------

  /** What submitting the "Add List" form asks of the server. */
  datatype CreateColumnCall = CreateColumn(boardId: int, title: string, order: int)

  /** `columns.findIndex(c => c.id === id)`. */
  method FindColumnIndex(cols: seq<Column>, id: int) returns (index: int)
    ensures index == IndexOfColumn(cols, id)
    ensures index == -1 <==> !HasColumn(cols, id)
    ensures 0 <= index ==> index < |cols| && cols[index].id == id
  {
    index := 0;
    while index < |cols|
      invariant 0 <= index <= |cols|
      invariant forall k :: 0 <= k < index ==> cols[k].id != id
    {
      if cols[index].id == id {
        return;
      }
      index := index + 1;
    }
    index := -1;
  }

  class BoardScreen {
    var board: Board
    var searchQuery: string
    var isAddingList: bool

    constructor (initialBoard: Board)
      ensures board == initialBoard && searchQuery == "" && !isAddingList
    {
      board := initialBoard;
      searchQuery := "";
      isAddingList := false;
    }

    /** `onDragEnd`: copy the affected lists, splice the dragged item out and
        back in, install the new board, and name the server action to call. */
    method OnDragEnd(r: DropResult) returns (call: ServerCall)
      requires ValidDrop(board.columns, r)
      modifies this
      ensures (board, call) == DragOutcome(old(board), r)
      ensures searchQuery == old(searchQuery) && isAddingList == old(isAddingList)
    {
      call := NoCall;
      if r.destination.None? {
        return;
      }
      var destination, source := r.destination.value, r.source;
      if destination.droppableId == source.droppableId && destination.index == source.index {
        return;
      }

      if r.kind == ColumnDrag {
        var newColumns := board.columns;
        var removed := newColumns[source.index];
        newColumns := newColumns[..source.index] + newColumns[source.index + 1..];
        newColumns := newColumns[..destination.index] + [removed] + newColumns[destination.index..];
        board := board.(columns := newColumns);
        call := UpdateColumnsOrder(ColumnIds(newColumns));
        return;
      }

      var sourceColIndex := FindColumnIndex(board.columns, source.droppableId);
      var destColIndex := FindColumnIndex(board.columns, destination.droppableId);
      var sourceCol := board.columns[sourceColIndex];
      var destCol := board.columns[destColIndex];

      if sourceColIndex == destColIndex {
        var newTasks := sourceCol.tasks;
        var removed := newTasks[source.index];
        newTasks := newTasks[..source.index] + newTasks[source.index + 1..];
        newTasks := newTasks[..destination.index] + [removed] + newTasks[destination.index..];
        var newColumns := board.columns;
        newColumns := newColumns[sourceColIndex := sourceCol.(tasks := newTasks)];
        board := board.(columns := newColumns);
        call := UpdateTaskColumn(r.draggableId, sourceCol.id, destination.index);
      } else {
        var sourceTasks := sourceCol.tasks;
        var removed := sourceTasks[source.index];
        sourceTasks := sourceTasks[..source.index] + sourceTasks[source.index + 1..];
        var destTasks := destCol.tasks;
        destTasks := destTasks[..destination.index] + [removed] + destTasks[destination.index..];
        var newColumns := board.columns;
        newColumns := newColumns[sourceColIndex := sourceCol.(tasks := sourceTasks)];
        newColumns := newColumns[destColIndex := destCol.(tasks := destTasks)];
        board := board.(columns := newColumns);
        call := UpdateTaskColumn(r.draggableId, destCol.id, destination.index);
      }
    }

    /** `handleTaskUpdate`, the callback the task dialog reports edits to. */
    method HandleTaskUpdate(p: TaskPatch)
      modifies this
      ensures board == old(board).(columns := WithTaskUpdated(old(board).columns, p))
      ensures searchQuery == old(searchQuery) && isAddingList == old(isAddingList)
    {
      board := board.(columns := WithTaskUpdated(board.columns, p));
    }

    /** The "Add List" form: a non-empty title asks the server for a column
        appended after the existing ones. `thrown` says whether the awaited
        `createColumn` rejects (no session, no permission, a store error);
        then the handler stops before closing the form, which stays as it
        was. Otherwise the form closes. */
    method SubmitNewList(title: string, thrown: bool) returns (call: Option<CreateColumnCall>)
      modifies this`isAddingList
      ensures call.Some? <==> title != ""
      ensures call.Some? ==> call.value == CreateColumn(board.id, title, |board.columns|)
      ensures call.Some? && thrown ==> isAddingList == old(isAddingList)
      ensures !(call.Some? && thrown) ==> !isAddingList
    {
      call := None;
      if title != "" {
        call := Some(CreateColumn(board.id, title, |board.columns|));
        if thrown {
          return;
        }
      }
      isAddingList := false;
    }
  }
}
