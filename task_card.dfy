/** A task card on the board: the completion checkbox, the context-menu
    completion item, the lock icon and the overdue colouring. */
module TaskCard {
  import opened Common
  import opened Board
  import TimelineView

  /** The request the card sends to `toggleTaskCompletion`. */
  datatype ToggleCall = ToggleCall(taskId: int, isCompleted: bool)

  /** The card refuses to complete an open task that is still blocked; the
      checkbox and the menu item are rendered disabled exactly then. */
  predicate CompletionLocked(t: Task) {
    !t.isCompleted && t.blockedByCount > 0
  }

  /** The checkbox changing to `checked`: ignored while locked, otherwise
      the new checked state is sent. */
  function CheckboxChange(t: Task, checked: bool): (r: Option<ToggleCall>)
    ensures r.None? <==> CompletionLocked(t)
    ensures r.Some? ==> r.value.taskId == t.id && r.value.isCompleted == checked
  {
    if !t.isCompleted && t.blockedByCount > 0 then None else Some(ToggleCall(t.id, checked))
  }

  /** The context-menu item "Mark Complete" / "Mark Incomplete": same gate,
      and it asks for the opposite of the current state. */
  function MenuToggle(t: Task): (r: Option<ToggleCall>)
    ensures r.None? <==> CompletionLocked(t)
    ensures r.Some? ==> r.value.taskId == t.id && r.value.isCompleted == !t.isCompleted
  {
    if !t.isCompleted && t.blockedByCount > 0 then None else Some(ToggleCall(t.id, !t.isCompleted))
  }

  /** The checkbox and the menu refuse the same tasks, and ticking the
      checkbox to the opposite state sends the very call the menu sends. */
  lemma GatesAgree(t: Task, checked: bool)
    ensures CheckboxChange(t, checked).None? <==> MenuToggle(t).None?
    ensures CheckboxChange(t, !t.isCompleted) == MenuToggle(t)
  {
  }

  /** Un-completing a completed task is never refused, however many
      blockers it has; completing an unblocked task never is either. */
  lemma UncompleteNeverBlocked(t: Task)
    ensures t.isCompleted ==> CheckboxChange(t, false) == Some(ToggleCall(t.id, false))
    ensures t.isCompleted ==> MenuToggle(t) == Some(ToggleCall(t.id, false))
    ensures t.blockedByCount == 0 ==> MenuToggle(t) == Some(ToggleCall(t.id, !t.isCompleted))
  {
  }

  /** The lock icon. */
  function ShowsLock(t: Task): bool {
    t.blockedByCount > 0
  }

  /** A locked card always shows the lock, but a completed card with
      blockers shows it without being locked. */
  lemma LockedShowsLock(t: Task)
    ensures CompletionLocked(t) ==> ShowsLock(t)
    ensures t.isCompleted && t.blockedByCount > 0 ==> ShowsLock(t) && !CompletionLocked(t)
  {
  }

  /** The due-date badge in the overdue colour: the card shows a date, the
      date lies before `now`, and the task is open. */
  function ShowsOverdue(t: Task, now: int): (r: bool)
    ensures r ==> t.dueDate.Some? && !t.isCompleted
  {
    t.dueDate.Some? && t.dueDate.value < now && !t.isCompleted
  }

  /** Every open task the timeline puts under Overdue is coloured overdue
      on its card; the converse fails for a task due earlier today, which
      the card colours overdue while the timeline lists it under Today. */
  lemma CardAndTimelineOverdue(t: Task, columnTitle: string, now: int)
    ensures TimelineView.BucketOf(TimelineView.TimelineTask(t, columnTitle), now) == TimelineView.Overdue ==>
      ShowsOverdue(t, now)
    ensures t.dueDate == Some(now - 1) && !t.isCompleted && columnTitle != "Done" && now % MsPerDay != 0 ==>
      ShowsOverdue(t, now) &&
      TimelineView.BucketOf(TimelineView.TimelineTask(t, columnTitle), now) == TimelineView.Today
  {
    if t.dueDate == Some(now - 1) && now % MsPerDay != 0 {
      assert DayOf(now - 1) == DayOf(now);
    }
  }
}
