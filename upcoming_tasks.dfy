/** The dashboard's "Upcoming" panel: the tasks due today or tomorrow, this
    week or this month, at most five of them. Which days make up "this
    week" and "this month" is left to the caller's calendar. */
module UpcomingTasks {
  import opened Common
  import opened Board
  import TimelineView

  datatype UpcomingFilter = DayFilter | WeekFilter | MonthFilter

  /** The instant the panel renders at, and the calendar's week and month
      tests on instants. */
  datatype Calendar = Calendar(now: int, isThisWeek: int -> bool, isThisMonth: int -> bool)

  /** Whether the panel keeps a task under the filter. */
  predicate Keeps(f: UpcomingFilter, cal: Calendar, t: Task) {
    t.dueDate.Some? &&
    match f
    case DayFilter => DayOf(t.dueDate.value) == DayOf(cal.now) || DayOf(t.dueDate.value) == DayOf(cal.now) + 1
    case WeekFilter => cal.isThisWeek(t.dueDate.value)
    case MonthFilter => cal.isThisMonth(t.dueDate.value)
  }

  function KeepsUnder(f: UpcomingFilter, cal: Calendar): Task -> bool {
    t => Keeps(f, cal, t)
  }

  /** `filteredTasks`: the kept tasks in their given order; none without a
      due date. */
  function FilteredTasks(tasks: seq<Task>, f: UpcomingFilter, cal: Calendar): (r: seq<Task>)
    ensures IsSubseq(r, tasks)
    ensures forall t :: t in r <==> t in tasks && Keeps(f, cal, t)
    ensures forall i :: 0 <= i < |r| ==> r[i].dueDate.Some?
  {
    var p := KeepsUnder(f, cal);
    FilterIsSubseq(tasks, p);
    forall t ensures t in Filter(tasks, p) <==> t in tasks && p(t) {
      FilterMembership(tasks, p, t);
    }
    Filter(tasks, p)
  }

  /** The cards the panel renders: the first five kept tasks. */
  function Displayed(tasks: seq<Task>, f: UpcomingFilter, cal: Calendar): (r: seq<Task>)
    ensures |r| == if |FilteredTasks(tasks, f, cal)| < 5 then |FilteredTasks(tasks, f, cal)| else 5
    ensures IsPrefixOf(r, FilteredTasks(tasks, f, cal))
    ensures |FilteredTasks(tasks, f, cal)| <= 5 ==> r == FilteredTasks(tasks, f, cal)
  {
    Take(FilteredTasks(tasks, f, cal), 5)
  }

  /** For an open task outside a "Done" column, the day filter keeps it
      exactly when the timeline files it under Today or Tomorrow. */
  lemma DayFilterMatchesTimeline(t: Task, columnTitle: string, now: int, cal: Calendar)
    requires cal.now == now
    requires !t.isCompleted && columnTitle != "Done"
    ensures Keeps(DayFilter, cal, t) <==>
      TimelineView.BucketOf(TimelineView.TimelineTask(t, columnTitle), now) in {TimelineView.Today, TimelineView.Tomorrow}
  {
    TimelineView.BucketMeaning(TimelineView.TimelineTask(t, columnTitle), now);
  }

  /** The panel's filter state. */
  class Panel {
    var filter: UpcomingFilter

    /** The panel opens on the month. */
    constructor ()
      ensures filter == MonthFilter
    {
      filter := MonthFilter;
    }

    /** One of the Day / Week / Month buttons. */
    method SetFilter(f: UpcomingFilter)
      modifies this
      ensures filter == f
    {
      filter := f;
    }
  }
}
