/** Server actions for boards, columns and task dependencies, and the
    deadline query: each action checks the caller's session (and, where
    the source asks, a permission), then reads or writes the store. */
module Actions {
  import opened Common
  import opened Store

  // -----------------------------------------------------------------------
  // Board visibility (getBoards)
  // -----------------------------------------------------------------------

  /** The ids of the boards `getBoards` lists: all of them for an
      administrator, otherwise those the user owns or is a member of. */
  function VisibleBoards(boards: map<int, BoardRow>, members: set<(int, int)>, userId: int, isAdmin: bool): (r: set<int>)
    ensures r <= boards.Keys
    ensures isAdmin ==> r == boards.Keys
    ensures !isAdmin ==> forall b :: b in r <==> b in boards && (boards[b].ownerId == userId || (userId, b) in members)
  {
    if isAdmin then boards.Keys
    else set b | b in boards && (boards[b].ownerId == userId || (userId, b) in members)
  }

  // -----------------------------------------------------------------------
  // createBoard, deleteBoard
  // -----------------------------------------------------------------------

  /** The columns every new board starts with, left to right. */
  const DefaultColumnTitles: seq<string> := ["To Do", "In Progress", "Done"]

  /** `createBoard`: the store picks `boardId` and the three column ids. */
  method CreateBoard(db: Db, session: Option<Session>, mayCreateBoard: bool, title: string,
                     boardId: int, columnIds: seq<int>) returns (out: Outcome)
    requires db.Valid()
    requires boardId !in db.boards
    requires |columnIds| == 3 && columnIds[0] != columnIds[1] && columnIds[0] != columnIds[2] && columnIds[1] != columnIds[2]
    requires forall i :: 0 <= i < 3 ==> columnIds[i] !in db.columns
    modifies db`boards, db`columns
    ensures db.Valid()
    ensures session.None? ==> out == RedirectTo("/login") && unchanged(db)
    ensures session.Some? && !mayCreateBoard ==>
      out == Failed("You do not have permission to create boards.") && unchanged(db)
    ensures session.Some? && mayCreateBoard && title == "" ==> out == Failed("Title is required") && unchanged(db)
    ensures session.Some? && mayCreateBoard && title != "" ==>
      && out == RedirectToBoard(boardId)
      && db.boards == old(db.boards)[boardId := BoardRow(title, session.value.userId)]
      && db.columns.Keys == old(db.columns).Keys + {columnIds[0], columnIds[1], columnIds[2]}
      && (forall c :: c in old(db.columns) ==> db.columns[c] == old(db.columns)[c])
      && (forall i :: 0 <= i < 3 ==> db.columns[columnIds[i]] == ColumnRow(boardId, DefaultColumnTitles[i], i))
  {
    if session.None? {
      return RedirectTo("/login");
    }
    if !mayCreateBoard {
      return Failed("You do not have permission to create boards.");
    }
    if title == "" {
      return Failed("Title is required");
    }
    db.boards := db.boards[boardId := BoardRow(title, session.value.userId)];
    var i := 0;
    while i < 3
      invariant 0 <= i <= 3
      invariant db.boards == old(db.boards)[boardId := BoardRow(title, session.value.userId)]
      invariant db.columns.Keys == old(db.columns).Keys + set k | 0 <= k < i :: columnIds[k]
      invariant forall c :: c in old(db.columns) ==> db.columns[c] == old(db.columns)[c]
      invariant forall k :: 0 <= k < i ==> db.columns[columnIds[k]] == ColumnRow(boardId, DefaultColumnTitles[k], k)
    {
      db.columns := db.columns[columnIds[i] := ColumnRow(boardId, DefaultColumnTitles[i], i)];
      i := i + 1;
    }
    assert (set k | 0 <= k < 3 :: columnIds[k]) == {columnIds[0], columnIds[1], columnIds[2]} by {
      assert columnIds[0] in (set k | 0 <= k < 3 :: columnIds[k]) by { assert 0 <= 0 < 3; }
      assert columnIds[1] in (set k | 0 <= k < 3 :: columnIds[k]) by { assert 0 <= 1 < 3; }
      assert columnIds[2] in (set k | 0 <= k < 3 :: columnIds[k]) by { assert 0 <= 2 < 3; }
    }
    out := RedirectToBoard(boardId);
  }

  /** `deleteBoard`: only the owner or an administrator may delete. */
  method DeleteBoard(db: Db, session: Option<Session>, boardId: int) returns (out: Outcome)
    requires db.Valid()
    modifies db`boards, db`members
    ensures db.Valid()
    ensures session.None? ==> out == RedirectTo("/login") && unchanged(db)
    ensures session.Some? && boardId !in old(db.boards) ==> out == Failed("Board not found") && unchanged(db)
    ensures session.Some? && boardId in old(db.boards) &&
            old(db.boards)[boardId].ownerId != session.value.userId && !session.value.isAdmin ==>
      out == Failed("You do not have permission to delete this board.") && unchanged(db)
    ensures session.Some? && boardId in old(db.boards) &&
            (old(db.boards)[boardId].ownerId == session.value.userId || session.value.isAdmin) ==>
      && out == Done
      && db.boards == old(db.boards) - {boardId}
      && db.members == set m | m in old(db.members) && m.1 != boardId
  {
    if session.None? {
      return RedirectTo("/login");
    }
    if boardId !in db.boards {
      return Failed("Board not found");
    }
    if db.boards[boardId].ownerId != session.value.userId && !session.value.isAdmin {
      return Failed("You do not have permission to delete this board.");
    }
    db.boards := db.boards - {boardId};
    db.members := set m | m in db.members && m.1 != boardId;
    out := Done;
  }

  /** After a deletion the board is in nobody's listing, owner's and members' included. */
  lemma DeletedBoardListedByNobody(boards: map<int, BoardRow>, members: set<(int, int)>, boardId: int, userId: int, isAdmin: bool)
    ensures boardId !in VisibleBoards(boards - {boardId}, (set m | m in members && m.1 != boardId), userId, isAdmin)
  {
  }

  /** The owner always sees the board, and an administrator sees at least
      what any other user sees. */
  lemma VisibilityOrder(boards: map<int, BoardRow>, members: set<(int, int)>, userId: int, b: int)
    ensures b in boards && boards[b].ownerId == userId ==> b in VisibleBoards(boards, members, userId, false)
    ensures VisibleBoards(boards, members, userId, false) <= VisibleBoards(boards, members, userId, true)
  {
  }

  // -----------------------------------------------------------------------
  // Dependencies: (t, b) in the relation means task t is blocked by task b
  // -----------------------------------------------------------------------

  /** The one-hop guard of `addDependency`: the error it reports, if any. */
  function DependencyError(g: set<(int, int)>, taskId: int, blockingTaskId: int): (e: Option<string>)
    ensures e == Some("Cannot depend on self") <==> taskId == blockingTaskId
    ensures e == Some("Circular dependency detected") <==> taskId != blockingTaskId && (blockingTaskId, taskId) in g
    ensures e.None? <==> taskId != blockingTaskId && (blockingTaskId, taskId) !in g
  {
    if taskId == blockingTaskId then Some("Cannot depend on self")
    else if (blockingTaskId, taskId) in g then Some("Circular dependency detected")
    else None
  }

  /** The relation after `addDependency(taskId, blockingTaskId)` on existing tasks. */
  function WithDependency(g: set<(int, int)>, taskId: int, blockingTaskId: int): set<(int, int)> {
    if DependencyError(g, taskId, blockingTaskId).None? then g + {(taskId, blockingTaskId)} else g
  }

  /** The tasks `t` cannot be completed before. */
  function BlockersOf(g: set<(int, int)>, t: int): set<int> {
    set e | e in g && e.0 == t :: e.1
  }

  /** The tasks waiting on `b`. */
  function WaitingOn(g: set<(int, int)>, b: int): set<int> {
    set e | e in g && e.1 == b :: e.0
  }

  /** No task blocks itself and no two tasks block each other. */
  predicate NoShortCycles(g: set<(int, int)>) {
    forall e :: e in g ==> e.0 != e.1 && (e.1, e.0) !in g
  }

  /** The guard keeps the relation free of self-loops and two-task cycles. */
  lemma AddDependencyKeepsNoShortCycles(g: set<(int, int)>, t: int, b: int)
    requires NoShortCycles(g)
    ensures NoShortCycles(WithDependency(g, t, b))
  {
  }

  /** Blocking A by B and then B by A: the second request is refused. */
  lemma ReverseDependencyRefused(g: set<(int, int)>, a: int, b: int)
    requires DependencyError(g, a, b).None?
    ensures DependencyError(WithDependency(g, a, b), b, a) == Some("Circular dependency detected")
  {
  }

  /** After a successful add, A is blocked by B and B has A waiting on it;
      adding the same edge again changes nothing. */
  lemma AddedDependencyVisibleBothWays(g: set<(int, int)>, a: int, b: int)
    requires DependencyError(g, a, b).None?
    ensures b in BlockersOf(WithDependency(g, a, b), a)
    ensures a in WaitingOn(WithDependency(g, a, b), b)
    ensures WithDependency(WithDependency(g, a, b), a, b) == WithDependency(g, a, b)
  {
    assert (a, b) in WithDependency(g, a, b);
  }

  /** Removing a dependency that was just added restores the relation, and
      afterwards neither task lists the other. */
  lemma RemoveUndoesAdd(g: set<(int, int)>, a: int, b: int)
    requires DependencyError(g, a, b).None? && (a, b) !in g
    ensures WithDependency(g, a, b) - {(a, b)} == g
    ensures b !in BlockersOf(WithDependency(g, a, b) - {(a, b)}, a)
    ensures a !in WaitingOn(WithDependency(g, a, b) - {(a, b)}, b)
  {
    assert forall e :: e in g && e.0 == a ==> e.1 != b;
  }

  /** The guard only looks one hop back: starting from no dependencies,
      "A blocked by B", "B blocked by C" and "C blocked by A" are all
      accepted, which closes the cycle A -> B -> C -> A. */
  lemma ThreeCycleAccepted(a: int, b: int, c: int)
    requires a != b && b != c && a != c
    ensures DependencyError({}, a, b).None?
    ensures DependencyError(WithDependency({}, a, b), b, c).None?
    ensures DependencyError(WithDependency(WithDependency({}, a, b), b, c), c, a).None?
    ensures WithDependency(WithDependency(WithDependency({}, a, b), b, c), c, a) == {(a, b), (b, c), (c, a)}
  {
    assert WithDependency({}, a, b) == {(a, b)};
    assert WithDependency({(a, b)}, b, c) == {(a, b), (b, c)};
  }

  /** `addDependency`. */
  method AddDependency(db: Db, session: Option<Session>, taskId: int, blockingTaskId: int) returns (out: Outcome)
    requires db.Valid()
    modifies db`blockedBy
    ensures db.Valid()
    ensures session.None? ==> out == Failed("Unauthorized") && unchanged(db)
    ensures session.Some? && DependencyError(old(db.blockedBy), taskId, blockingTaskId).Some? ==>
      out == Failed(DependencyError(old(db.blockedBy), taskId, blockingTaskId).value) && unchanged(db)
    ensures session.Some? && DependencyError(old(db.blockedBy), taskId, blockingTaskId).None? ==>
      if taskId in db.tasks && blockingTaskId in db.tasks then
        out == Succeeded && db.blockedBy == WithDependency(old(db.blockedBy), taskId, blockingTaskId)
      else
        out == Thrown(RecordNotFound) && unchanged(db)
  {
    if session.None? {
      return Failed("Unauthorized");
    }
    if taskId == blockingTaskId {
      return Failed("Cannot depend on self");
    }
    var reverse := (blockingTaskId, taskId) in db.blockedBy;
    if reverse {
      return Failed("Circular dependency detected");
    }
    if taskId !in db.tasks || blockingTaskId !in db.tasks {
      return Thrown(RecordNotFound);
    }
    db.blockedBy := db.blockedBy + {(taskId, blockingTaskId)};
    out := Succeeded;
  }

  /** `removeDependency`: never fails for a missing edge. */
  method RemoveDependency(db: Db, session: Option<Session>, taskId: int, blockingTaskId: int) returns (out: Outcome)
    requires db.Valid()
    modifies db`blockedBy
    ensures db.Valid()
    ensures session.None? ==> out == Failed("Unauthorized") && unchanged(db)
    ensures session.Some? && taskId !in db.tasks ==> out == Thrown(RecordNotFound) && unchanged(db)
    ensures session.Some? && taskId in db.tasks ==>
      out == Done && db.blockedBy == old(db.blockedBy) - {(taskId, blockingTaskId)}
  {
    if session.None? {
      return Failed("Unauthorized");
    }
    if taskId !in db.tasks {
      return Thrown(RecordNotFound);
    }
    db.blockedBy := db.blockedBy - {(taskId, blockingTaskId)};
    out := Done;
  }

  /** `toggleTaskCompletion`: sets the flag as asked. It does not consult
      the task's blockers, so a blocked task can be completed through it. */
  method ToggleTaskCompletion(db: Db, session: Option<Session>, mayEditTask: bool, taskId: int, isCompleted: bool)
    returns (out: Outcome)
    requires db.Valid()
    modifies db`tasks
    ensures db.Valid()
    ensures session.None? ==> out == Failed("Unauthorized") && unchanged(db)
    ensures session.Some? && !mayEditTask ==> out == Failed("Permission denied") && unchanged(db)
    ensures session.Some? && mayEditTask && taskId !in db.tasks ==> out == Thrown(RecordNotFound) && unchanged(db)
    ensures session.Some? && mayEditTask && taskId in old(db.tasks) ==>
      out == Succeeded && db.tasks == old(db.tasks)[taskId := old(db.tasks)[taskId].(isCompleted := isCompleted)]
  {
    if session.None? {
      return Failed("Unauthorized");
    }
    if !mayEditTask {
      return Failed("Permission denied");
    }
    if taskId !in db.tasks {
      return Thrown(RecordNotFound);
    }
    db.tasks := db.tasks[taskId := db.tasks[taskId].(isCompleted := isCompleted)];
    out := Succeeded;
  }

  /** The store's error for a task pointed at a column that does not exist. */
  const ColumnForeignKeyViolation: string := "Foreign key constraint failed on the field: `columnId`"

  /** `updateTaskColumn`, the call a task drag ends with: the task moves to
      `columnId` with `order` as its position value; no other task is
      renumbered. A column deleted since the board was loaded makes the
      store's foreign key refuse the update. */
  method UpdateTaskColumn(db: Db, session: Option<Session>, mayEditTask: bool, taskId: int, columnId: int, order: int)
    returns (out: Outcome)
    requires db.Valid()
    modifies db`tasks
    ensures db.Valid()
    ensures session.None? ==> out == Failed("Unauthorized") && unchanged(db)
    ensures session.Some? && !mayEditTask ==> out == Failed("Permission denied") && unchanged(db)
    ensures session.Some? && mayEditTask && taskId !in db.tasks ==> out == Thrown(RecordNotFound) && unchanged(db)
    ensures session.Some? && mayEditTask && taskId in db.tasks && columnId !in db.columns ==>
      out == Thrown(ColumnForeignKeyViolation) && unchanged(db)
    ensures session.Some? && mayEditTask && taskId in old(db.tasks) && columnId in db.columns ==>
      out == Done && db.tasks == old(db.tasks)[taskId := old(db.tasks)[taskId].(columnId := columnId, order := order)]
  {
    if session.None? {
      return Failed("Unauthorized");
    }
    if !mayEditTask {
      return Failed("Permission denied");
    }
    if taskId !in db.tasks {
      return Thrown(RecordNotFound);
    }
    if columnId !in db.columns {
      return Thrown(ColumnForeignKeyViolation);
    }
    db.tasks := db.tasks[taskId := db.tasks[taskId].(columnId := columnId, order := order)];
    out := Done;
  }

  // -----------------------------------------------------------------------
  // updateColumnsOrder
  // -----------------------------------------------------------------------

  /** The columns after giving the column at position i of `ids` order i,
      one update after another; an id with no stored column changes nothing. */
  function Renumbered(cols: map<int, ColumnRow>, ids: seq<int>): (r: map<int, ColumnRow>)
    ensures r.Keys == cols.Keys
    decreases |ids|
  {
    if ids == [] then cols
    else
      var r := Renumbered(cols, ids[..|ids| - 1]);
      var id := ids[|ids| - 1];
      if id in r then r[id := r[id].(order := |ids| - 1)] else r
  }

  predicate AllStored(cols: map<int, ColumnRow>, ids: seq<int>) {
    forall i :: 0 <= i < |ids| ==> ids[i] in cols
  }

  predicate Distinct(ids: seq<int>) {
    forall i, j :: 0 <= i < j < |ids| ==> ids[i] != ids[j]
  }

  /** With distinct ids, each listed column that is stored gets its position
      as order and keeps its title and board, whether or not other listed ids
      are missing; every other column is untouched. */
  lemma {:induction false} RenumberedOrders(cols: map<int, ColumnRow>, ids: seq<int>)
    requires Distinct(ids)
    ensures forall i :: 0 <= i < |ids| && ids[i] in cols ==> Renumbered(cols, ids)[ids[i]] == cols[ids[i]].(order := i)
    ensures forall c :: c in cols && c !in ids ==> Renumbered(cols, ids)[c] == cols[c]
    decreases |ids|
  {
    if ids != [] {
      var front := ids[..|ids| - 1];
      RenumberedOrders(cols, front);
      forall i | 0 <= i < |front| ensures ids[i] == front[i] && ids[i] != ids[|ids| - 1] {}
      forall c | c in cols && c !in ids ensures c !in front {
        assert forall i :: 0 <= i < |front| ==> front[i] == ids[i];
      }
    }
  }

  /** Persisting the order [c3, c1, c2] gives c3 order 0, c1 order 1, c2 order 2. */
  lemma RenumberThreeColumns(cols: map<int, ColumnRow>, c1: int, c2: int, c3: int)
    requires c1 in cols && c2 in cols && c3 in cols
    requires c1 != c2 && c2 != c3 && c1 != c3
    ensures Renumbered(cols, [c3, c1, c2])[c3].order == 0
    ensures Renumbered(cols, [c3, c1, c2])[c1].order == 1
    ensures Renumbered(cols, [c3, c1, c2])[c2].order == 2
  {
    RenumberedOrders(cols, [c3, c1, c2]);
    assert [c3, c1, c2][0] == c3 && [c3, c1, c2][1] == c1 && [c3, c1, c2][2] == c2;
  }

  /** Reordering [c1, gone] after `gone` was deleted elsewhere still gives
      c1 order 0 while the call as a whole fails: a partial reorder. */
  lemma RenumberSkipsMissing(cols: map<int, ColumnRow>, c1: int, gone: int)
    requires c1 in cols && gone !in cols
    ensures Renumbered(cols, [c1, gone]) == cols[c1 := cols[c1].(order := 0)]
    ensures !AllStored(cols, [c1, gone])
  {
    assert [c1, gone][..1] == [c1];
    assert [c1][..0] == [];
    assert Renumbered(cols, []) == cols;
    assert Renumbered(cols, [c1]) == cols[c1 := cols[c1].(order := 0)];
    assert Renumbered(cols, [c1, gone]) == Renumbered(cols, [c1]);
  }

  /** `updateColumnsOrder`: one update per listed column, giving it its
      position in the list as order. Every update is issued; an id whose
      column is gone fails on its own, and the call then rejects with the
      store's not-found error while the other columns stay renumbered. */
  method UpdateColumnsOrder(db: Db, session: Option<Session>, mayEditBoard: bool, columnIds: seq<int>)
    returns (out: Outcome)
    requires db.Valid()
    modifies db`columns
    ensures db.Valid()
    ensures session.None? ==> out == Thrown("Unauthorized") && unchanged(db)
    ensures session.Some? && !mayEditBoard ==> out == Thrown("Permission denied") && unchanged(db)
    ensures session.Some? && mayEditBoard ==> db.columns == Renumbered(old(db.columns), columnIds)
    ensures session.Some? && mayEditBoard && AllStored(old(db.columns), columnIds) ==> out == Done
    ensures session.Some? && mayEditBoard && !AllStored(old(db.columns), columnIds) ==> out == Thrown(RecordNotFound)
  {
    if session.None? {
      return Thrown("Unauthorized");
    }
    if !mayEditBoard {
      return Thrown("Permission denied");
    }
    var index := 0;
    var missing := false;
    while index < |columnIds|
      invariant 0 <= index <= |columnIds|
      invariant db.columns.Keys == old(db.columns).Keys
      invariant db.columns == Renumbered(old(db.columns), columnIds[..index])
      invariant missing <==> !AllStored(old(db.columns), columnIds[..index])
    {
      var id := columnIds[index];
      assert columnIds[..index + 1][..index] == columnIds[..index];
      if id in db.columns {
        db.columns := db.columns[id := db.columns[id].(order := index)];
      } else {
        missing := true;
      }
      index := index + 1;
    }
    assert columnIds[..|columnIds|] == columnIds;
    out := if missing then Thrown(RecordNotFound) else Done;
  }

  // -----------------------------------------------------------------------
  // getUpcomingDeadlines
  // -----------------------------------------------------------------------

  datatype DeadlineRange = DayRange | WeekRange | MonthRange | AllRange | OverdueRange

  /** Inclusive bounds on the due date; a missing bound does not constrain. */
  datatype Window = Window(gte: Option<int>, lte: Option<int>)

  /** The due-date bounds for a range, relative to the instant `now`. */
  function DeadlineWindow(range: DeadlineRange, now: int): Window {
    match range
    case OverdueRange => Window(None, Some(now))
    case DayRange => Window(Some(now), Some(now + 24 * 60 * 60 * 1000))
    case WeekRange => Window(Some(now), Some(now + 7 * 24 * 60 * 60 * 1000))
    case MonthRange => Window(Some(now), Some(now + 30 * 24 * 60 * 60 * 1000))
    case AllRange => Window(None, None)
  }

  /** The store's filter on `dueDate`: a bound excludes tasks without a due
      date, and no bound at all leaves the filter empty, which admits them. */
  predicate InWindow(w: Window, due: Option<int>) {
    if w.gte.None? && w.lte.None? then true
    else due.Some? && (w.gte.None? || w.gte.value <= due.value) && (w.lte.None? || due.value <= w.lte.value)
  }

  /** What each range admits: "overdue" everything due up to now, "day",
      "week" and "month" what falls due from now to 1, 7 or 30 days ahead,
      "all" every task, undated ones included. */
  lemma DeadlineWindowMeaning(range: DeadlineRange, now: int, due: Option<int>)
    ensures InWindow(DeadlineWindow(range, now), due) <==>
      match range
      case OverdueRange => due.Some? && due.value <= now
      case DayRange => due.Some? && now <= due.value <= now + MsPerDay
      case WeekRange => due.Some? && now <= due.value <= now + 7 * MsPerDay
      case MonthRange => due.Some? && now <= due.value <= now + 30 * MsPerDay
      case AllRange => true
  {
  }

  /** The windows nest (day within week within month within all), and a
      task due exactly at `now` is both overdue and due within the day. */
  lemma DeadlineWindowsNest(now: int, due: Option<int>)
    ensures InWindow(DeadlineWindow(DayRange, now), due) ==> InWindow(DeadlineWindow(WeekRange, now), due)
    ensures InWindow(DeadlineWindow(WeekRange, now), due) ==> InWindow(DeadlineWindow(MonthRange, now), due)
    ensures InWindow(DeadlineWindow(AllRange, now), due)
    ensures InWindow(DeadlineWindow(OverdueRange, now), due) && InWindow(DeadlineWindow(DayRange, now), due)
            <==> due == Some(now)
  {
  }

  /** A task joined with its board, as the deadline query sees it. */
  datatype DeadlineRow = DeadlineRow(
    taskId: int,
    dueDate: Option<int>,
    isCompleted: bool,
    assigneeId: Option<int>,
    boardOwnerId: int,
    boardMemberIds: set<int>)

  /** The task is assigned to the user, or sits on a board the user owns or belongs to. */
  predicate Concerns(row: DeadlineRow, userId: int) {
    row.assigneeId == Some(userId) || row.boardOwnerId == userId || userId in row.boardMemberIds
  }

  predicate IsDeadlineMatch(row: DeadlineRow, userId: int, w: Window) {
    !row.isCompleted && InWindow(w, row.dueDate) && Concerns(row, userId)
  }

  function DueDateOf(row: DeadlineRow): Option<int> { row.dueDate }

  /** The store's `where` clause: the user's open tasks inside the window,
      in store order. */
  function DeadlineMatches(rows: seq<DeadlineRow>, userId: int, w: Window): (m: seq<DeadlineRow>)
    ensures forall x :: x in m <==> x in rows && IsDeadlineMatch(x, userId, w)
  {
    var p := row => IsDeadlineMatch(row, userId, w);
    assert forall x :: x in Filter(rows, p) <==> x in rows && p(x) by {
      forall x ensures x in Filter(rows, p) <==> x in rows && p(x) {
        FilterMembership(rows, p, x);
      }
    }
    Filter(rows, p)
  }

  /** `orderBy: { dueDate: "asc" }, take: n`: the `n` earliest-due rows,
      earliest first, each at most as often as it occurs. */
  function EarliestDue(m: seq<DeadlineRow>, n: nat): (r: seq<DeadlineRow>)
    ensures |r| == if |m| < n then |m| else n
    ensures multiset(r) <= multiset(m)
    ensures forall x :: x in r ==> x in m
    ensures forall x, y :: x in r && y in multiset(m) - multiset(r) ==> KeyLeq(x.dueDate, y.dueDate)
    ensures SortedByKey(r, DueDateOf)
  {
    var sorted := SortByKey(m, DueDateOf);
    TakeSortedIsSmallest(m, DueDateOf, n);
    assert forall x :: x in Take(sorted, n) ==> x in multiset(m);
    Take(sorted, n)
  }

  /** `getUpcomingDeadlines`: the caller's open tasks in the window, earliest
      due first, at most ten: the first ten of the matches by due date. */
  function UpcomingDeadlines(rows: seq<DeadlineRow>, session: Option<Session>, range: DeadlineRange, now: int)
    : (r: seq<DeadlineRow>)
    ensures session.None? ==> r == []
    ensures |r| <= 10
    ensures session.Some? ==>
      var matches := DeadlineMatches(rows, session.value.userId, DeadlineWindow(range, now));
      && |r| == (if |matches| < 10 then |matches| else 10)
      && multiset(r) <= multiset(matches)
      && forall x, y :: x in r && y in multiset(matches) - multiset(r) ==> KeyLeq(x.dueDate, y.dueDate)
    ensures forall i :: 0 <= i < |r| ==>
      r[i] in rows && session.Some? && IsDeadlineMatch(r[i], session.value.userId, DeadlineWindow(range, now))
    ensures SortedByKey(r, DueDateOf)
  {
    if session.None? then []
    else EarliestDue(DeadlineMatches(rows, session.value.userId, DeadlineWindow(range, now)), 10)
  }
}
