/** The task detail dialog: optimistic edits of title, description and due
    date that are undone when the server reports an error, the completion
    toggle with its dependency gate, the dependency picker and the subtask
    progress. */
module TaskDetailModal {
  import opened Common

  datatype Subtask = Subtask(id: int, title: string, isCompleted: bool)

  /** The task as the dialog holds it. `blockedBy` lists the ids of the
      tasks blocking it once the full task has been fetched; the board's copy
      the dialog opens with carries only a count, so it is `None` until then. */
  datatype Detail = Detail(
    id: int,
    title: string,
    description: Option<string>,
    dueDate: Option<int>,
    isCompleted: bool,
    blockedBy: Option<seq<int>>,
    subtasks: seq<Subtask>)

  /** A request the dialog sends to the server. */
  datatype TaskCall =
    | UpdateTitle(taskId: int, title: string)
    | UpdateDescription(taskId: int, description: string)
    | UpdateDueDate(taskId: int, dueDate: Option<int>)
    | ToggleTaskCompletion(taskId: int, isCompleted: bool)
    | CreateSubtask(taskId: int, title: string)

  /** What the description field shows: a missing description is empty. */
  function ShownDescription(d: Detail): (s: string)
    ensures d.description.None? ==> s == ""
    ensures d.description.Some? ==> s == d.description.value
  {
    if d.description.Some? then d.description.value else ""
  }

  /** `task.blockedBy ?? []`: the known blockers, none before the fetch. */
  function Blockers(d: Detail): (r: seq<int>)
    ensures d.blockedBy.None? ==> r == []
    ensures d.blockedBy.Some? ==> r == d.blockedBy.value
  {
    if d.blockedBy.Some? then d.blockedBy.value else []
  }

  /** The dialog refuses to complete an open task with known blockers;
      before the fetch it knows none. */
  predicate CompletionBlocked(d: Detail) {
    !d.isCompleted && |Blockers(d)| > 0
  }

  class Dialog {
    var task: Detail
    /** The values handed to the parent's `onUpdate`, oldest first. */
    var reported: seq<Detail>
    /** The "new subtask" input. */
    var newSubtaskTitle: string
    /** Whether the due-date calendar popover is open. */
    var isCalendarOpen: bool

    constructor (initial: Detail)
      ensures task == initial && reported == [] && newSubtaskTitle == "" && !isCalendarOpen
    {
      task, reported, newSubtaskTitle, isCalendarOpen := initial, [], "", false;
    }

    /** The answer of `getTaskDetails`: a found task replaces the one shown,
        blockers included; it is not reported to the parent. */
    method LoadDetails(full: Option<Detail>)
      modifies this`task
      ensures full.Some? ==> task == full.value
      ensures full.None? ==> task == old(task)
    {
      if full.Some? {
        task := full.value;
      }
    }

    /** Leaving the title field: an unchanged title does nothing; otherwise
        the new title is shown and reported at once and sent to the server.
        `before` is the task as it was, for `Settle`. */
    method BlurTitle(value: string) returns (call: Option<TaskCall>, before: Detail)
      modifies this`task, this`reported
      ensures before == old(task)
      ensures value == old(task.title) ==> call.None? && task == old(task) && reported == old(reported)
      ensures value != old(task.title) ==>
        && task == old(task).(title := value)
        && reported == old(reported) + [task]
        && call == Some(UpdateTitle(old(task.id), value))
    {
      before := task;
      if value == task.title {
        return None, before;
      }
      task := task.(title := value);
      reported := reported + [task];
      call := Some(UpdateTitle(task.id, value));
    }

    /** Leaving the description field: compared against the shown text,
        so clearing a missing description does nothing. */
    method BlurDescription(value: string) returns (call: Option<TaskCall>, before: Detail)
      modifies this`task, this`reported
      ensures before == old(task)
      ensures value == ShownDescription(old(task)) ==> call.None? && task == old(task) && reported == old(reported)
      ensures value != ShownDescription(old(task)) ==>
        && task == old(task).(description := Some(value))
        && reported == old(reported) + [task]
        && call == Some(UpdateDescription(old(task.id), value))
    {
      before := task;
      if value == ShownDescription(task) {
        return None, before;
      }
      task := task.(description := Some(value));
      reported := reported + [task];
      call := Some(UpdateDescription(task.id, value));
    }

    /** `handleDateChange`, which only the Clear button reaches (with None):
        always applied, reported and sent, even when it equals the current
        value; `before` is kept so that `Settle` can undo it on an error. */
    method ChangeDate(date: Option<int>) returns (call: TaskCall, before: Detail)
      modifies this`task, this`reported
      ensures before == old(task)
      ensures task == old(task).(dueDate := date)
      ensures reported == old(reported) + [task]
      ensures call == UpdateDueDate(old(task.id), date)
    {
      before := task;
      task := task.(dueDate := date);
      reported := reported + [task];
      call := UpdateDueDate(task.id, date);
    }

    /** Picking a day in the calendar: applied, reported and sent, with no
        copy kept, so an error answer is never undone. `thrown` says whether
        the awaited `updateTask` rejects; then the popover is left as it was,
        otherwise it closes. */
    method PickDate(date: Option<int>, thrown: bool) returns (call: TaskCall)
      modifies this`task, this`reported, this`isCalendarOpen
      ensures task == old(task).(dueDate := date)
      ensures reported == old(reported) + [task]
      ensures call == UpdateDueDate(old(task.id), date)
      ensures thrown ==> isCalendarOpen == old(isCalendarOpen)
      ensures !thrown ==> !isCalendarOpen
    {
      task := task.(dueDate := date);
      reported := reported + [task];
      call := UpdateDueDate(task.id, date);
      if !thrown {
        isCalendarOpen := false;
      }
    }

    /** The popover's open state as the trigger sets it. */
    method SetCalendarOpen(open: bool)
      modifies this`isCalendarOpen
      ensures isCalendarOpen == open
    {
      isCalendarOpen := open;
    }

    /** The server's answer to an edit begun from `before`: on an error the
        dialog and the parent are put back to `before`, which undoes the
        edit and leaves every other field as it was when the edit began. */
    method Settle(before: Detail, failed: bool)
      modifies this`task, this`reported
      ensures !failed ==> task == old(task) && reported == old(reported)
      ensures failed ==> task == before && reported == old(reported) + [before]
    {
      if failed {
        task := before;
        reported := reported + [before];
      }
    }

    /** The completion button: ignored while blocked; otherwise the flag
        flips, is reported, and the flipped value is sent. A failure is not
        undone. */
    method ClickComplete() returns (call: Option<TaskCall>)
      modifies this`task, this`reported
      ensures CompletionBlocked(old(task)) ==> call.None? && task == old(task) && reported == old(reported)
      ensures !CompletionBlocked(old(task)) ==>
        && task == old(task).(isCompleted := !old(task.isCompleted))
        && reported == old(reported) + [task]
        && call == Some(ToggleTaskCompletion(old(task.id), !old(task.isCompleted)))
    {
      if CompletionBlocked(task) {
        return None;
      }
      var updated := task.(isCompleted := !task.isCompleted);
      task := updated;
      reported := reported + [updated];
      call := Some(ToggleTaskCompletion(updated.id, updated.isCompleted));
    }

    /** Submitting the subtask form: a title that is blank after trimming
        does nothing; otherwise the input is cleared and the title, as
        typed, is sent. */
    method AddSubtask() returns (call: Option<TaskCall>)
      modifies this`newSubtaskTitle
      ensures Trim(old(newSubtaskTitle)) == [] ==> call.None? && newSubtaskTitle == old(newSubtaskTitle)
      ensures Trim(old(newSubtaskTitle)) != [] ==>
        call == Some(CreateSubtask(task.id, old(newSubtaskTitle))) && newSubtaskTitle == ""
    {
      if Trim(newSubtaskTitle) == [] {
        return None;
      }
      var title := newSubtaskTitle;
      newSubtaskTitle := "";
      call := Some(CreateSubtask(task.id, title));
    }
  }

  /** Editing and then failing restores the task exactly: the round trip a
      title edit followed by an error completes. */
  method TitleEditFailureRestores(d: Detail, value: string) returns (restored: Detail)
    ensures restored == d
  {
    var dialog := new Dialog(d);
    var call, before := dialog.BlurTitle(value);
    dialog.Settle(before, true);
    restored := dialog.task;
  }

  /** Until `getTaskDetails` answers, the completion gate is open: a task
      opened from the board completes on a click even when it is blocked,
      while the same click after the fetch has brought a blocker is refused. */
  method CompleteBeforeDetailsLoad(d: Detail, blocker: int) returns (early: Option<TaskCall>, late: Option<TaskCall>)
    requires d.blockedBy.None? && !d.isCompleted
    ensures early == Some(ToggleTaskCompletion(d.id, true))
    ensures late.None?
  {
    var first := new Dialog(d);
    early := first.ClickComplete();
    var second := new Dialog(d);
    second.LoadDetails(Some(d.(blockedBy := Some([blocker]))));
    late := second.ClickComplete();
  }

  /** A blank subtask title is one made only of whitespace. */
  lemma BlankSubtaskTitle(s: string)
    ensures Trim(s) == [] <==> forall i :: 0 <= i < |s| ==> IsWhitespace(s[i])
  {
    TrimIsEmpty(s);
  }

  /** A task offered in the dependency picker. */
  datatype Candidate = Candidate(id: int, title: string)

  /** The picker's list: the board's tasks other than this one and not
      already blocking it, in board order. */
  function Candidates(available: seq<Candidate>, d: Detail): (r: seq<Candidate>)
    ensures IsSubseq(r, available)
    ensures forall c :: c in r <==> c in available && c.id != d.id && c.id !in Blockers(d)
  {
    var p := (c: Candidate) => c.id != d.id && c.id !in Blockers(d);
    FilterIsSubseq(available, p);
    forall c ensures c in Filter(available, p) <==> c in available && p(c) {
      FilterMembership(available, p, c);
    }
    Filter(available, p)
  }

  /** Picking a candidate never trips the self check or duplicates a
      listed blocker. */
  lemma CandidateIsNewBlocker(available: seq<Candidate>, d: Detail, c: Candidate)
    requires c in Candidates(available, d)
    ensures c.id != d.id && c.id !in Blockers(d)
  {
  }

  /** The number of completed subtasks. */
  function CompletedCount(subtasks: seq<Subtask>): (n: nat)
    ensures n <= |subtasks|
    ensures n == |subtasks| <==> forall i :: 0 <= i < |subtasks| ==> subtasks[i].isCompleted
    ensures n == 0 <==> forall i :: 0 <= i < |subtasks| ==> !subtasks[i].isCompleted
  {
    if subtasks == [] then 0
    else
      var rest := CompletedCount(subtasks[1..]);
      assert forall i :: 1 <= i < |subtasks| ==> subtasks[i] == subtasks[1..][i - 1];
      (if subtasks[0].isCompleted then 1 else 0) + rest
  }

  /** The progress bar's percentage, in exact arithmetic: 0 with no
      subtasks, otherwise completed over total. */
  function Progress(subtasks: seq<Subtask>): (p: real)
    ensures 0.0 <= p <= 100.0
    ensures subtasks == [] ==> p == 0.0
    ensures subtasks != [] ==> (p == 100.0 <==> CompletedCount(subtasks) == |subtasks|)
  {
    var done := CompletedCount(subtasks);
    var total := |subtasks|;
    if total == 0 then 0.0
    else
      RatioBounds(done as real, total as real);
      (done as real / total as real) * 100.0
  }

  lemma RatioBounds(d: real, t: real)
    requires 0.0 <= d <= t && t > 0.0
    ensures 0.0 <= d / t <= 1.0
    ensures d / t == 1.0 <==> d == t
  {
    var q := d / t;
    assert q * t == d;
  }
}
