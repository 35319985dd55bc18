# Kanban board core, modelled in Dafny

This project models the domain logic of a Kanban web application: boards
made of ordered columns, columns made of ordered tasks, task dependencies,
users, groups and board membership. The part modelled is the behaviour that
decides what the user sees and what reaches the store:

- the drag-and-drop protocol of the board screen. This covers a column move,
  a task move inside one column, and a task move between two columns. Each
  one rewrites the local board and names one server call (`BoardView`,
  over the datatypes in `Board`);
- the search filter, merging an edited task back into the board, and the
  "Add List" and "add task" forms, which ask for an order equal to the
  length of the list they were given
  (`BoardView`, `ColumnView`);
- the server actions for boards, columns and dependencies. These are
  `getBoards` visibility, `createBoard`, `deleteBoard`, `addDependency` with
  its one-hop cycle guard, `removeDependency`, `toggleTaskCompletion`,
  `updateTaskColumn`, `updateColumnsOrder` and the `getUpcomingDeadlines`
  query (`Actions`, over the in-memory store `Store.Db`);
- the account and administration actions: `checkSystemSetup`,
  `initialSetup`, `login`, `createUser`, the group actions,
  `updateUserBoards` and `resetDatabase` (`AuthActions`);
- the timeline view. It flattens and sorts every task of the board by due
  date, then files each task into Overdue, Today, Tomorrow, Upcoming,
  No Date or Completed (`TimelineView`);
- the completion gates, lock and overdue markers of a task card
  (`TaskCard`);
- the task detail dialog. It makes optimistic edits of the title, the
  description and the due date. Title, description and a cleared date are
  put back on a server error; a date picked in the calendar is not. It also
  holds the completion gate, the dependency picker and subtask progress
  (`TaskDetailModal`);
- the dashboard's upcoming panel (`UpcomingTasks`) and the route gate in
  front of every page (`Middleware`).

Pure decisions are Dafny functions with lemmas. Code that changes state step
by step is imperative:

- the store is a class whose fields the server actions update (`Store.Db`);
- the React components that keep state are classes with one method per
  handler (`BoardView.BoardScreen`, `TaskDetailModal.Dialog`,
  `ColumnView.ColumnCard`, `UpcomingTasks.Panel`);
- the loops of the source are `while` loops with invariants.

Each of these is proved against a specification function.

Inputs the model cannot compute are passed in as parameters:

- the current instant, as integer milliseconds since the epoch;
- whether the caller has a session, and the outcome of a permission check;
- the password hasher's compare function;
- the week and month tests of the date library;
- ids the store would generate;
- the step at which the store fails, for `resetDatabase`.

A few points follow the code where a looser reading is possible:

- Group permissions are stored as the submitted list, in the order given,
  as the code does with `JSON.stringify` of the form values. They are not
  stored as a set.
- The drag-and-drop handler indexes the unfiltered board. The model proves
  that an empty search shows the board itself (`EmptyQueryShowsEverything`).
  It also exhibits a filtered drag that moves a different task locally from
  the one it sends to the server (`FilteredDragMovesWrongTask`).
- The dependency guard only looks one hop back. `ThreeCycleAccepted` shows a
  three-task cycle being accepted.
- `toggleTaskCompletion` does not consult blockers. The card refuses to
  complete a blocked task. The dialog refuses only once `getTaskDetails` has
  brought the blocker list; before that it completes a blocked task
  (`CompleteBeforeDetailsLoad`).
- The card colours a task overdue as soon as its due instant has passed.
  The timeline calls it Overdue only from the next day on.
  `CardAndTimelineOverdue` states both directions of that relationship.

## Model

| member | source | states |
|---|---|---|
| Common.MoveIsPermutation | src/components/BoardView.tsx:40-42 | splicing an item out and back in at the destination keeps the length and every item with its multiplicity, and puts the dragged item at the destination index |
| Common.MoveUndo | src/components/BoardView.tsx:40-42 | dragging the item from the destination back to the source restores the original list |
| Common.SortByKey | src/components/TimelineView.tsx:22-28 | the sort returns a permutation of its input, ordered by due date ascending with every undated item after every dated one |
| Common.TrimIsEmpty | src/components/TaskDetailModal.tsx:119 | a string trims to the empty string exactly when all its characters are whitespace |
| Board.IndexOfColumn | src/components/BoardView.tsx:54-55 | `findIndex` gives -1 exactly when no column has the id, otherwise the first index holding it |
| Board.ColumnIds | src/components/BoardView.tsx:49 | the id list has one entry per column, in column order |
| Board.TasksOfUpdate | src/components/BoardView.tsx:82-84 | writing one column slot changes the board's task multiset and count by exactly the difference between the new and the old column's tasks |
| Board.MoveBetweenColumnsKeepsTasks | src/components/BoardView.tsx:76-84 | taking a task out of one column and inserting it into another keeps every task of the board, each as often as before |
| BoardView.DropNothingIsNoOp | src/components/BoardView.tsx:35-36 | a cancelled drag or a drop where it started leaves the board unchanged and makes no server call |
| BoardView.ColumnDragMovesColumn | src/components/BoardView.tsx:39-49 | a column drag permutes the columns, lands the dragged column at the destination and sends the new column order as the id list |
| BoardView.ColumnDragUndo | src/components/BoardView.tsx:39-45 | the reverse column drag is a valid drop and restores the board |
| BoardView.SameColumnDragMovesTask | src/components/BoardView.tsx:60-73 | a drag inside one column permutes only that column's tasks, puts the task at the destination, leaves other columns alone and sends the source column id and destination index |
| BoardView.CrossColumnDragMovesTask | src/components/BoardView.tsx:74-90 | a drag between columns removes the task from the source, inserts it at the destination index of the destination, leaves all other columns alone and sends the destination column id and index |
| BoardView.CrossColumnDragKeepsTasks | src/components/BoardView.tsx:74-86 | a drag between columns keeps every task of the board and the total number of tasks |
| BoardView.FilteredColumnsShape | src/components/BoardView.tsx:95-101 | filtering keeps every column in place; each column shows an order-preserving subsequence made of exactly the tasks whose title or label matches the query |
| BoardView.EmptyQueryShowsEverything | src/components/BoardView.tsx:95-101 | with an empty query the filtered board is the board itself |
| BoardView.FilteredDragMovesWrongTask | src/components/BoardView.tsx:54-58 | with a non-empty query the library's indices point into the unfiltered board: a concrete drag moves one task locally and reports another to the server |
| BoardView.TaskUpdateTouchesOnlyThatTask | src/components/BoardView.tsx:103-113 | merging an edit keeps the column structure and every other task, and gives the matching task the patched fields and its own values elsewhere |
| BoardView.TaskUpdateIdempotent | src/components/BoardView.tsx:103-113 | applying the same edit twice equals applying it once |
| BoardView.FindColumnIndex | src/components/BoardView.tsx:54-55 | the loop returns the first index holding the id, or -1 exactly when there is none |
| BoardView.BoardScreen.constructor | src/components/BoardView.tsx:22-25 | the screen starts with the loaded board, an empty search and the add-list form closed |
| BoardView.BoardScreen.OnDragEnd | src/components/BoardView.tsx:33-92 | the splicing handler installs exactly the board and names exactly the server call of the drop specification, and nothing else changes |
| BoardView.BoardScreen.HandleTaskUpdate | src/components/BoardView.tsx:103-113 | the board becomes the merged board; search and form state are unchanged |
| BoardView.BoardScreen.SubmitNewList | src/components/BoardView.tsx:150-155 | a non-empty title asks for a column with order equal to the current column count, an empty one asks for nothing; the form closes unless the awaited `createColumn` throws, in which case it stays as it was |
| Actions.VisibleBoards | src/app/actions.ts:8-38 | an administrator sees every board; anyone else sees exactly the boards they own or are a member of |
| Actions.VisibilityOrder | src/app/actions.ts:8-38 | an owner always sees their board, and an administrator sees at least what a plain user sees |
| Actions.CreateBoard | src/app/actions.ts:90-119 | no session redirects to login; no permission or an empty title returns the source's error and creates nothing; otherwise one board owned by the caller with columns "To Do", "In Progress", "Done" at orders 0, 1, 2 |
| Actions.DeleteBoard | src/app/actions.ts:121-142 | a missing board gives "Board not found"; a caller who is neither owner nor administrator is refused and the board stays; otherwise the board and its memberships go |
| Actions.DeletedBoardListedByNobody | src/app/actions.ts:121-142 | after a deletion the board is in no user's listing, the owner's and the members' included |
| Actions.DependencyError | src/app/actions.ts:184-198 | the guard reports the self-dependency exactly when the ids are equal, the circular error exactly when the reverse edge exists, and nothing otherwise |
| Actions.AddDependencyKeepsNoShortCycles | src/app/actions.ts:184-209 | adding through the guard keeps the relation free of self-loops and two-task cycles |
| Actions.ReverseDependencyRefused | src/app/actions.ts:190-198 | after A is blocked by B, blocking B by A is refused as circular |
| Actions.AddedDependencyVisibleBothWays | src/app/actions.ts:200-209 | after a successful add, B is among A's blockers and A among the tasks waiting on B; adding the same edge again changes nothing |
| Actions.RemoveUndoesAdd | src/app/actions.ts:212-225 | removing a freshly added edge restores the relation, and neither task lists the other |
| Actions.ThreeCycleAccepted | src/app/actions.ts:190-198 | from no dependencies, A by B, B by C and C by A are all accepted, closing a three-task cycle |
| Actions.AddDependency | src/app/actions.ts:184-210 | no session gives "Unauthorized", a guard error is returned and nothing changes, a missing task throws not-found, and otherwise exactly the one edge is added |
| Actions.RemoveDependency | src/app/actions.ts:212-225 | no session gives "Unauthorized"; otherwise exactly that edge is removed, and a missing edge is no error |
| Actions.ToggleTaskCompletion | src/app/actions.ts:442-453 | after the session and permission checks, only the task's completion flag is set as asked, without looking at its blockers |
| Actions.UpdateTaskColumn | src/app/actions.ts:257-267 | after the session and permission checks, a missing task throws not-found and a column that does not exist throws the foreign-key error, changing nothing; otherwise only the moved task's column and order change and no other task is renumbered |
| Actions.RenumberedOrders | src/app/actions.ts:287-292 | each listed column that is stored gets its position in the list as order and keeps its other fields, whatever other ids are missing; unlisted columns are untouched |
| Actions.RenumberSkipsMissing | src/app/actions.ts:287-292 | reordering [c1, gone] after `gone` was deleted still gives c1 order 0, and the call is one that fails: a partial reorder |
| Actions.RenumberThreeColumns | src/app/actions.ts:281-294 | persisting the order [c3, c1, c2] gives c3 order 0, c1 order 1 and c2 order 2 |
| Actions.UpdateColumnsOrder | src/app/actions.ts:281-294 | the update loop throws without a session or permission; otherwise every stored listed column is renumbered, and the call ends with not-found exactly when some listed id has no stored column |
| Actions.DeadlineWindowMeaning | src/app/actions.ts:566-591 | "overdue" admits what is due up to now; "day", "week" and "month" admit what is due from now to 1, 7 or 30 days ahead; "all" admits everything, undated tasks included |
| Actions.DeadlineWindowsNest | src/app/actions.ts:570-584 | day is within week, week within month, everything within all; only a task due exactly now is both overdue and due within the day |
| Actions.DeadlineMatches | src/app/actions.ts:585-597 | a row matches exactly when it is an open task inside the window that is assigned to the caller or sits on a board the caller owns or belongs to |
| Actions.EarliestDue | src/app/actions.ts:598-599 | the first n rows by due date: min(n, count) rows, sorted, each taken at most as often as it occurs, and none of them due later than any row left out |
| Actions.UpcomingDeadlines | src/app/actions.ts:562-605 | without a session the result is empty; otherwise the ten (or fewer) earliest-due of the caller's matching tasks, sorted by due date, with no row repeated beyond its occurrences and no left-out match due earlier than a returned one |
| AuthActions.NeedsSetup | src/app/auth-actions.ts:9-12 | setup is needed exactly when there is no user |
| AuthActions.InitialSetup | src/app/auth-actions.ts:14-40 | a missing field throws; an existing user redirects to login and creates nothing; otherwise the one administrator is created and signed in |
| AuthActions.LoginTarget | src/app/auth-actions.ts:46-59 | an exact username match is taken when there is one; otherwise the first match ignoring case; none exactly when no name matches ignoring case |
| AuthActions.Login | src/app/auth-actions.ts:42-71 | the two lookup loops find the login target; a session is issued exactly when the password matches its hash, otherwise "Invalid credentials" |
| AuthActions.LoginPrefersExactMatch | src/app/auth-actions.ts:46-59 | with "Bob" before "bob", the name "bob" signs in as "bob" and "BOB" as "Bob" |
| AuthActions.RoleFor | src/app/auth-actions.ts:83-87 | "admin" gives an administrator with no group; any other value gives a non-administrator with that group; never both |
| AuthActions.CreateUser | src/app/auth-actions.ts:78-101 | a taken username or an unknown group makes the store throw and nothing changes; otherwise one user is appended with the mapped role |
| AuthActions.RoleExclusive | src/app/auth-actions.ts:86-87 | "no administrator belongs to a group" holds for the first administrator and is kept by appending a user through the role mapping, by deleting a group and by detaching every user |
| AuthActions.CreateGroup | src/app/auth-actions.ts:108-119 | the group is stored with exactly the submitted permission values; a key passes its check exactly when it was submitted |
| AuthActions.UpdateGroup | src/app/auth-actions.ts:146-157 | a missing group throws; otherwise name and permission list are replaced, and a key passes exactly when submitted |
| AuthActions.WithoutGroup | src/app/auth-actions.ts:139-144 | the deleted group's members lose the group and keep id, name and administrator flag; other users are unchanged |
| AuthActions.DeleteGroup | src/app/auth-actions.ts:139-144 | a missing group throws; otherwise the group goes and its users stay without a group |
| AuthActions.MemberBoardsReplaced | src/app/auth-actions.ts:121-137 | afterwards the user is a member of exactly the submitted boards, and every other user's boards are as before |
| AuthActions.UpdateUserBoards | src/app/auth-actions.ts:121-137 | an unknown user or board throws; otherwise the membership relation is replaced for that user only |
| AuthActions.StepsDone | src/app/auth-actions.ts:161-174 | the number of deletions that complete is exactly the number of steps before the failing one |
| AuthActions.DeleteTaskData | src/app/auth-actions.ts:162-165 | the completed steps among the first four empty activity, subtasks, labels, then tasks with their dependencies |
| AuthActions.DeleteBoardsAndAccounts | src/app/auth-actions.ts:166-169 | the completed steps among the last four empty columns, boards with their memberships, groups (detaching users), then users |
| AuthActions.ResetDatabase | src/app/auth-actions.ts:159-176 | on success every table is empty and the caller is sent to setup; on a failure at step k the earlier steps stay done, the later ones do not happen, and "Reset failed" is thrown |
| AuthActions.WithoutGroups | src/app/auth-actions.ts:168 | deleting all groups leaves every user in place without a group |
| TimelineView.Tagged | src/components/TimelineView.tsx:20 | each task of the column appears once, in order, tagged with the column title |
| TimelineView.FlattenIsTasksOf | src/components/TimelineView.tsx:17-21 | the flattened list, untagged, is exactly the board's tasks in column order, each tagged with the title of a column holding it |
| TimelineView.AllTasks | src/components/TimelineView.tsx:17-29 | the loop and sort give every task of the board exactly once, tagged, sorted by due date with undated tasks last |
| TimelineView.DatedBeforeUndated | src/components/TimelineView.tsx:22-28 | in the sorted list every dated task precedes every undated one |
| TimelineView.BucketMeaning | src/components/TimelineView.tsx:41-61 | completion wins over any date; an open undated task is No Date; an open dated task is Overdue, Today, Tomorrow or Upcoming exactly by its day relative to today |
| TimelineView.BucketsPartition | src/components/TimelineView.tsx:41-62 | the six buckets together hold every task exactly as often as the list does |
| TimelineView.BucketKeepsOrder | src/components/TimelineView.tsx:41-62 | each bucket is an order-preserving subsequence holding exactly the tasks that belong to it |
| TimelineView.GroupsFromFacts | src/components/TimelineView.tsx:64-69 | every emitted group is non-empty and belongs to a bucket, every non-empty bucket is emitted, and only Overdue is late |
| TimelineView.SplitIntoBuckets | src/components/TimelineView.tsx:34-62 | the loop leaves each of the six arrays equal to its bucket |
| TimelineView.GroupedTasks | src/components/TimelineView.tsx:31-72 | the groups are the non-empty buckets in the order Overdue, Today, Tomorrow, Upcoming, No Date, Completed |
| TaskCard.CheckboxChange | src/components/TaskCard.tsx:80-83 | the change is ignored exactly for an open blocked task; otherwise the checked state is sent for this task |
| TaskCard.MenuToggle | src/components/TaskCard.tsx:143-147 | the menu item is ignored exactly for an open blocked task; otherwise it asks for the opposite state |
| TaskCard.GatesAgree | src/components/TaskCard.tsx:79-84 | the checkbox and the menu item refuse the same tasks, and ticking the checkbox to the opposite state sends exactly the call the menu sends |
| TaskCard.UncompleteNeverBlocked | src/components/TaskCard.tsx:143-147 | un-completing is never refused, whatever the blockers; an unblocked task always toggles |
| TaskCard.LockedShowsLock | src/components/TaskCard.tsx:113 | a locked card shows the lock, and a completed card with blockers shows it without being locked |
| TaskCard.ShowsOverdue | src/components/TaskCard.tsx:119-120 | only a dated open task can be coloured overdue |
| TaskCard.CardAndTimelineOverdue | src/components/TaskCard.tsx:120 | every open task the timeline calls Overdue is coloured overdue on its card; a task due earlier today is coloured overdue but sits under Today |
| TaskDetailModal.ShownDescription | src/components/TaskDetailModal.tsx:84 | a missing description shows as the empty string, a present one as itself |
| TaskDetailModal.Dialog.BlurTitle | src/components/TaskDetailModal.tsx:62-70 | an unchanged title does nothing; a changed one is applied, reported and sent at once, with the earlier task kept for a revert |
| TaskDetailModal.Dialog.BlurDescription | src/components/TaskDetailModal.tsx:83-89 | the same, comparing against the shown description |
| TaskDetailModal.Dialog.LoadDetails | src/components/TaskDetailModal.tsx:52-54 | a fetched task replaces the shown one, blockers included; a missing one changes nothing |
| TaskDetailModal.Dialog.ChangeDate | src/components/TaskDetailModal.tsx:101-115 | the Clear button's date change is always applied, reported and sent, with the earlier task kept for a revert |
| TaskDetailModal.Dialog.PickDate | src/components/TaskDetailModal.tsx:536-545 | a calendar pick is applied, reported and sent with no copy kept for a revert; the popover closes unless the awaited `updateTask` throws |
| TaskDetailModal.Dialog.SetCalendarOpen | src/components/TaskDetailModal.tsx:517 | the trigger opens or closes the popover |
| TaskDetailModal.Dialog.Settle | src/components/TaskDetailModal.tsx:71-78 | on a server error the dialog and the parent get the task back as it was before the edit; on success nothing changes |
| TaskDetailModal.Dialog.ClickComplete | src/components/TaskDetailModal.tsx:187-193 | an open task with known blockers is left alone; otherwise the flag flips, is reported and the flipped value is sent |
| TaskDetailModal.CompleteBeforeDetailsLoad | src/components/TaskDetailModal.tsx:50-54 | before `getTaskDetails` answers, a click completes an open task whatever its blockers; after the fetch has brought a blocker the same click is refused |
| TaskDetailModal.Dialog.AddSubtask | src/components/TaskDetailModal.tsx:117-122 | a blank title does nothing; otherwise the input clears and the typed title is sent |
| TaskDetailModal.TitleEditFailureRestores | src/components/TaskDetailModal.tsx:62-81 | any title edit followed by a server error leaves the task exactly as before |
| TaskDetailModal.BlankSubtaskTitle | src/components/TaskDetailModal.tsx:119 | a subtask title is refused exactly when it is all whitespace |
| TaskDetailModal.Candidates | src/components/TaskDetailModal.tsx:260 | the picker lists, in order, exactly the available tasks other than this one and not among its known blockers |
| TaskDetailModal.CandidateIsNewBlocker | src/components/TaskDetailModal.tsx:263-268 | a picked candidate never trips the self check and is never a known blocker |
| TaskDetailModal.CompletedCount | src/components/TaskDetailModal.tsx:157 | completed subtasks never exceed the total; they equal it exactly when all are done, and are 0 exactly when none are |
| TaskDetailModal.Progress | src/components/TaskDetailModal.tsx:157-159 | progress lies between 0 and 100, is 0 with no subtasks, and is 100 exactly when all are done |
| ColumnView.AppendKeepsOrders | src/components/Column.tsx:121 | if the orders are 0, 1, 2, ..., an item ordered at the current count keeps them so and sorts after every existing item |
| ColumnView.DragOutThenAppendReusesOrder | src/app/actions.ts:262-265 | that premise is not maintained: after the first of three tasks is dragged out, the column holds orders 1 and 2 and the next appended task reuses order 2 |
| ColumnView.ColumnCard.constructor | src/components/Column.tsx:27-29 | the card starts with the column's title and both forms closed |
| ColumnView.ColumnCard.SubmitTask | src/components/Column.tsx:118-124 | a non-empty title asks for a task ordered at the column's task count, an empty one for nothing; the form closes unless the awaited `createTask` throws (a store error), in which case it stays as it was |
| ColumnView.ColumnCard.EditTitle | src/components/Column.tsx:55 | typing sets the edited title |
| ColumnView.ColumnCard.UpdateTitle | src/components/Column.tsx:31-36 | the server is called exactly when the edited title differs from the column's; editing ends unless the awaited `updateColumn` throws |
| UpcomingTasks.FilteredTasks | src/components/UpcomingTasks.tsx:11-18 | the filter keeps, in order, exactly the tasks the chosen range admits, never an undated one |
| UpcomingTasks.Displayed | src/components/UpcomingTasks.tsx:38 | exactly min(5, n) cards for n kept tasks, the first of the filtered list |
| UpcomingTasks.DayFilterMatchesTimeline | src/components/UpcomingTasks.tsx:14 | for an open task the day filter keeps it exactly when the timeline files it under Today or Tomorrow |
| UpcomingTasks.Panel.constructor | src/components/UpcomingTasks.tsx:9 | the panel opens on the month |
| UpcomingTasks.Panel.SetFilter | src/components/UpcomingTasks.tsx:28 | a button selects its range |
| Middleware.Decide | src/middleware.ts:12-26 | no session on a non-public path redirects to "/login" exactly; a session on "/login" redirects to "/" exactly; every other request passes |
| Middleware.NoRedirectChains | src/middleware.ts:17-26 | the page a redirect leads to lets the same request through |
| Middleware.GateExamples | src/middleware.ts:12-26 | signed in, "/setup" passes; signed out, "/api/..." and "/login" pass while "/" and a board page redirect to "/login" |

## Left out

- Rendering, styling, animations and layout: the components are modelled through their state and handlers only.
- The store's queries and schema-level cascades are not modelled. Deleting a board removes the board and its memberships only. A missing row on update is the store's not-found error. Database ids are integers; the store passes fresh ids in as parameters.
- `revalidatePath`, cookies, session encryption, expiry and the session refresh in the middleware are not modelled. `src/lib/auth` is not part of this model: a session is an optional value and `hasPermission` a boolean parameter.
- Password hashing and comparison are a parameter; callers supply the hash.
- The date library is not modelled. Days are UTC days of millisecond instants, and "this week" and "this month" are caller-supplied tests.
- Common.Lower: `toLowerCase` is modelled on ASCII letters only, so login's case-insensitive fallback and the search filter ignore non-ASCII case folding.
- Common.SortByKey: the result is a sorted permutation, but the order of tasks with equal due dates is not claimed to match the engine's stable sort.
- ColumnView.AppendKeepsOrders: holds only while a column's orders are 0, 1, 2, ...; the program does not keep them so. A drag renumbers only the moved task (`DragOutThenAppendReusesOrder`). With a search active, the card is given the filtered column, so a new task's order is the number of tasks shown, not the number stored. The model promises no order invariant for stored tasks.
- Actions.UpcomingDeadlines: the store's order for tasks without a due date (only reachable with "all") is taken to be last, and equal due dates are not tied to an order.
- Actions.UpdateColumnsOrder: the concurrent `Promise.all` updates are modelled as one update after another; interleavings with other clients are out of scope.
- TaskDetailModal.Progress: computed in exact real arithmetic, not floating point; the dashboard efficiency percentage is not modelled for the same reason.
- The dialog's refetch after a subtask is created, and the server side of `updateTask`, `createTask`, `createSubtask`, `createColumn` and `updateColumn`, are not modelled; the model stops at the call the client makes.
- `deleteUser`, `logout` and the second `createUser` in `src/app/actions.ts` are not modelled: they are single store calls or cookie operations with no logic beyond what is modelled elsewhere.
- Permission lists are stored as the submitted sequence; JSON encoding is not modelled.
