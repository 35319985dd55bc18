/** The timeline view: every task of the board in one list ordered by due
    date, then split into the groups Overdue, Today, Tomorrow, Upcoming,
    No Date and Completed. Instants are milliseconds; "today" is the day of
    the instant `now` passed in. */
module TimelineView {
  import opened Common
  import opened Board

  /** A task together with the title of the column it sits in. */
  datatype TimelineTask = TimelineTask(task: Task, columnTitle: string)

  /** One column's tasks tagged with its title. */
  function Tagged(c: Column): (r: seq<TimelineTask>)
    ensures |r| == |c.tasks|
    ensures forall i :: 0 <= i < |r| ==> r[i] == TimelineTask(c.tasks[i], c.title)
  {
    seq(|c.tasks|, i requires 0 <= i < |c.tasks| => TimelineTask(c.tasks[i], c.title))
  }

  /** The columns' tagged tasks, columns left to right. */
  function Flatten(cols: seq<Column>): seq<TimelineTask> {
    if cols == [] then [] else Tagged(cols[0]) + Flatten(cols[1..])
  }

  /** The tasks without their tags. */
  function Untag(s: seq<TimelineTask>): (r: seq<Task>)
    ensures |r| == |s|
    ensures forall i :: 0 <= i < |s| ==> r[i] == s[i].task
  {
    seq(|s|, i requires 0 <= i < |s| => s[i].task)
  }

  /** Flattening yields exactly the board's tasks, in column order, and
      each is tagged with the title of a column that holds it. */
  lemma {:induction false} FlattenIsTasksOf(cols: seq<Column>)
    ensures Untag(Flatten(cols)) == TasksOf(cols)
    ensures forall x :: x in Flatten(cols) ==> exists c :: c in cols && x.task in c.tasks && x.columnTitle == c.title
  {
    if cols != [] {
      FlattenIsTasksOf(cols[1..]);
      var f := Flatten(cols);
      assert Untag(f) == Untag(Tagged(cols[0])) + Untag(Flatten(cols[1..]));
      forall x | x in f ensures exists c :: c in cols && x.task in c.tasks && x.columnTitle == c.title {
        if x in Tagged(cols[0]) {
          var i :| 0 <= i < |Tagged(cols[0])| && Tagged(cols[0])[i] == x;
          assert cols[0] in cols && x.task == cols[0].tasks[i];
        } else {
          var c :| c in cols[1..] && x.task in c.tasks && x.columnTitle == c.title;
          assert c in cols;
        }
      }
    }
  }

  lemma {:induction false} FlattenSnoc(cols: seq<Column>, c: Column)
    ensures Flatten(cols + [c]) == Flatten(cols) + Tagged(c)
  {
    if cols == [] {
      assert [c][1..] == [];
    } else {
      FlattenSnoc(cols[1..], c);
      assert (cols + [c])[1..] == cols[1..] + [c];
    }
  }

  function DueOf(t: TimelineTask): Option<int> { t.task.dueDate }

  /** `allTasks`: every task tagged with its column title, sorted by due
      date ascending with undated tasks last. */
  method AllTasks(b: Board) returns (r: seq<TimelineTask>)
    ensures multiset(r) == multiset(Flatten(b.columns))
    ensures |r| == |TasksOf(b.columns)|
    ensures SortedByKey(r, DueOf)
  {
    var tasks: seq<TimelineTask> := [];
    var i := 0;
    while i < |b.columns|
      invariant 0 <= i <= |b.columns|
      invariant tasks == Flatten(b.columns[..i])
    {
      FlattenSnoc(b.columns[..i], b.columns[i]);
      assert b.columns[..i + 1] == b.columns[..i] + [b.columns[i]];
      tasks := tasks + Tagged(b.columns[i]);
      i := i + 1;
    }
    assert b.columns[..i] == b.columns;
    FlattenIsTasksOf(b.columns);
    r := SortByKey(tasks, DueOf);
  }

  /** With a dated and an undated task, the dated one comes first. */
  lemma DatedBeforeUndated(r: seq<TimelineTask>, i: int, j: int)
    requires SortedByKey(r, DueOf)
    requires 0 <= i < |r| && 0 <= j < |r|
    requires r[i].task.dueDate.Some? && r[j].task.dueDate.None?
    ensures i < j
  {
  }

  // -----------------------------------------------------------------------
  // Buckets
  // -----------------------------------------------------------------------

  datatype Bucket = Overdue | Today | Tomorrow | Upcoming | NoDate | Completed

  /** The bucket the grouping loop pushes a task into. */
  function BucketOf(t: TimelineTask, now: int): Bucket {
    if t.columnTitle == "Done" || t.task.isCompleted then Completed
    else if t.task.dueDate.None? then NoDate
    else
      var due := t.task.dueDate.value;
      if due < now && DayOf(due) != DayOf(now) then Overdue
      else if DayOf(due) == DayOf(now) then Today
      else if DayOf(due) == DayOf(now) + 1 then Tomorrow
      else Upcoming
  }

  /** Completion (a "Done" column or the flag) wins over any due date; an
      open undated task has No Date; an open dated task is placed by its
      day alone: before today Overdue, today Today, the next day Tomorrow,
      any later day Upcoming. */
  lemma BucketMeaning(t: TimelineTask, now: int)
    ensures BucketOf(t, now) == Completed <==> t.columnTitle == "Done" || t.task.isCompleted
    ensures BucketOf(t, now) == NoDate <==> !(t.columnTitle == "Done" || t.task.isCompleted) && t.task.dueDate.None?
    ensures !(t.columnTitle == "Done" || t.task.isCompleted) && t.task.dueDate.Some? ==>
      var day := DayOf(t.task.dueDate.value);
      && (BucketOf(t, now) == Overdue <==> day < DayOf(now))
      && (BucketOf(t, now) == Today <==> day == DayOf(now))
      && (BucketOf(t, now) == Tomorrow <==> day == DayOf(now) + 1)
      && (BucketOf(t, now) == Upcoming <==> day > DayOf(now) + 1)
  {
    if !(t.columnTitle == "Done" || t.task.isCompleted) && t.task.dueDate.Some? {
      var due := t.task.dueDate.value;
      if due >= now {
        DayOfMonotone(now, due);
      } else {
        DayOfMonotone(due, now);
      }
    }
  }

  /** The test "belongs in bucket `b`". */
  function InBucket(now: int, b: Bucket): TimelineTask -> bool {
    t => BucketOf(t, now) == b
  }

  /** The tasks of one bucket, in `allTasks` order. */
  function Bucketed(all: seq<TimelineTask>, now: int, b: Bucket): seq<TimelineTask> {
    Filter(all, InBucket(now, b))
  }

  /** All six buckets together, as a multiset. */
  function BucketTotal(all: seq<TimelineTask>, now: int): multiset<TimelineTask> {
    multiset(Bucketed(all, now, Overdue)) + multiset(Bucketed(all, now, Today)) +
    multiset(Bucketed(all, now, Tomorrow)) + multiset(Bucketed(all, now, Upcoming)) +
    multiset(Bucketed(all, now, NoDate)) + multiset(Bucketed(all, now, Completed))
  }

  /** Every task lands in exactly one bucket: together the buckets hold
      each task of the list as often as the list does. */
  lemma BucketsPartition(all: seq<TimelineTask>, now: int)
    ensures BucketTotal(all, now) == multiset(all)
  {
    forall x ensures BucketTotal(all, now)[x] == multiset(all)[x] {
      FilterCount(all, InBucket(now, Overdue), x);
      FilterCount(all, InBucket(now, Today), x);
      FilterCount(all, InBucket(now, Tomorrow), x);
      FilterCount(all, InBucket(now, Upcoming), x);
      FilterCount(all, InBucket(now, NoDate), x);
      FilterCount(all, InBucket(now, Completed), x);
    }
  }

  /** Each bucket keeps its tasks in their `allTasks` order. */
  lemma BucketKeepsOrder(all: seq<TimelineTask>, now: int, b: Bucket)
    ensures IsSubseq(Bucketed(all, now, b), all)
    ensures forall t :: t in Bucketed(all, now, b) <==> t in all && BucketOf(t, now) == b
  {
    FilterIsSubseq(all, InBucket(now, b));
    forall t ensures t in Bucketed(all, now, b) <==> t in all && BucketOf(t, now) == b {
      FilterMembership(all, InBucket(now, b), t);
    }
  }

  // -----------------------------------------------------------------------
  // Groups
  // -----------------------------------------------------------------------

  datatype TimelineGroup = TimelineGroup(title: string, tasks: seq<TimelineTask>, isLate: bool)

  function BucketTitle(b: Bucket): string {
    match b
    case Overdue => "Overdue"
    case Today => "Today"
    case Tomorrow => "Tomorrow"
    case Upcoming => "Upcoming"
    case NoDate => "No Date"
    case Completed => "Completed"
  }

  /** The order the groups are emitted in. */
  const GroupOrder: seq<Bucket> := [Overdue, Today, Tomorrow, Upcoming, NoDate, Completed]

  function GroupOf(all: seq<TimelineTask>, now: int, b: Bucket): TimelineGroup {
    TimelineGroup(BucketTitle(b), Bucketed(all, now, b), b == Overdue)
  }

  /** The group of bucket `b` if it is non-empty, else nothing. */
  function OptGroup(all: seq<TimelineTask>, now: int, b: Bucket): seq<TimelineGroup> {
    if Bucketed(all, now, b) != [] then [GroupOf(all, now, b)] else []
  }

  /** The groups of the non-empty buckets among `bs`, in the order of `bs`. */
  function GroupsFrom(all: seq<TimelineTask>, now: int, bs: seq<Bucket>): seq<TimelineGroup> {
    if bs == [] then [] else OptGroup(all, now, bs[0]) + GroupsFrom(all, now, bs[1..])
  }

  lemma GroupOrderUnfolded(all: seq<TimelineTask>, now: int)
    ensures GroupsFrom(all, now, GroupOrder) ==
      OptGroup(all, now, Overdue) + OptGroup(all, now, Today) + OptGroup(all, now, Tomorrow) +
      OptGroup(all, now, Upcoming) + OptGroup(all, now, NoDate) + OptGroup(all, now, Completed)
  {
    var o0, o1, o2 := OptGroup(all, now, Overdue), OptGroup(all, now, Today), OptGroup(all, now, Tomorrow);
    var o3, o4, o5 := OptGroup(all, now, Upcoming), OptGroup(all, now, NoDate), OptGroup(all, now, Completed);
    var s5: seq<Bucket> := [Completed];
    GroupsFromCons(all, now, Completed, []);
    assert [Completed] + [] == s5;
    var s4 := [NoDate] + s5;
    GroupsFromCons(all, now, NoDate, s5);
    var s3 := [Upcoming] + s4;
    GroupsFromCons(all, now, Upcoming, s4);
    var s2 := [Tomorrow] + s3;
    GroupsFromCons(all, now, Tomorrow, s3);
    var s1 := [Today] + s2;
    GroupsFromCons(all, now, Today, s2);
    GroupsFromCons(all, now, Overdue, s1);
    assert [Overdue] + s1 == GroupOrder;
    assert GroupsFrom(all, now, GroupOrder) == o0 + (o1 + (o2 + (o3 + (o4 + o5))));
    Regroup(o0, o1, o2, o3, o4, o5);
  }

  lemma Regroup<T>(o0: seq<T>, o1: seq<T>, o2: seq<T>, o3: seq<T>, o4: seq<T>, o5: seq<T>)
    ensures o0 + (o1 + (o2 + (o3 + (o4 + o5)))) == o0 + o1 + o2 + o3 + o4 + o5
  {
    assert o3 + (o4 + o5) == o3 + o4 + o5;
    assert o2 + (o3 + o4 + o5) == o2 + o3 + o4 + o5;
    assert o1 + (o2 + o3 + o4 + o5) == o1 + o2 + o3 + o4 + o5;
  }

  lemma GroupsFromCons(all: seq<TimelineTask>, now: int, b: Bucket, bs: seq<Bucket>)
    ensures GroupsFrom(all, now, [b] + bs) == OptGroup(all, now, b) + GroupsFrom(all, now, bs)
  {
    assert ([b] + bs)[1..] == bs;
  }

  /** Every emitted group is non-empty and is the group of one of `bs`;
      the group of every non-empty bucket of `bs` is emitted; only the
      Overdue group is marked late. */
  lemma {:induction false} GroupsFromFacts(all: seq<TimelineTask>, now: int, bs: seq<Bucket>)
    ensures forall g :: g in GroupsFrom(all, now, bs) ==>
      g.tasks != [] && (g.isLate <==> g.title == "Overdue") &&
      exists b :: b in bs && g == GroupOf(all, now, b)
    ensures forall b :: b in bs && Bucketed(all, now, b) != [] ==> GroupOf(all, now, b) in GroupsFrom(all, now, bs)
  {
    if bs != [] {
      GroupsFromFacts(all, now, bs[1..]);
      forall b | b in bs && Bucketed(all, now, b) != [] ensures GroupOf(all, now, b) in GroupsFrom(all, now, bs) {
        if b != bs[0] {
          assert b in bs[1..];
        }
      }
      forall g | g in GroupsFrom(all, now, bs)
        ensures g.tasks != [] && (g.isLate <==> g.title == "Overdue") && exists b :: b in bs && g == GroupOf(all, now, b)
      {
        if g !in GroupsFrom(all, now, bs[1..]) {
          assert g == GroupOf(all, now, bs[0]);
        } else {
          var b :| b in bs[1..] && g == GroupOf(all, now, b);
          assert b in bs;
        }
      }
    }
  }

  /** Appending one task to the list extends its own bucket by it and
      leaves the other buckets as they were. */
  lemma PushStep(prefix: seq<TimelineTask>, t: TimelineTask, now: int)
    ensures forall b ::
      Bucketed(prefix + [t], now, b) == Bucketed(prefix, now, b) + (if BucketOf(t, now) == b then [t] else [])
  {
    forall b ensures Bucketed(prefix + [t], now, b) ==
      Bucketed(prefix, now, b) + (if BucketOf(t, now) == b then [t] else [])
    {
      FilterSnoc(prefix, t, InBucket(now, b));
    }
  }

  /** The forEach of `groupedTasks`: pushes each task into its bucket. */
  method SplitIntoBuckets(all: seq<TimelineTask>, now: int)
    returns (late: seq<TimelineTask>, today: seq<TimelineTask>, tomorrow: seq<TimelineTask>,
             upcoming: seq<TimelineTask>, noDate: seq<TimelineTask>, completed: seq<TimelineTask>)
    ensures late == Bucketed(all, now, Overdue) && today == Bucketed(all, now, Today)
    ensures tomorrow == Bucketed(all, now, Tomorrow) && upcoming == Bucketed(all, now, Upcoming)
    ensures noDate == Bucketed(all, now, NoDate) && completed == Bucketed(all, now, Completed)
  {
    late, today, tomorrow, upcoming, noDate, completed := [], [], [], [], [], [];
    var i := 0;
    while i < |all|
      invariant 0 <= i <= |all|
      invariant late == Bucketed(all[..i], now, Overdue)
      invariant today == Bucketed(all[..i], now, Today)
      invariant tomorrow == Bucketed(all[..i], now, Tomorrow)
      invariant upcoming == Bucketed(all[..i], now, Upcoming)
      invariant noDate == Bucketed(all[..i], now, NoDate)
      invariant completed == Bucketed(all[..i], now, Completed)
    {
      var t := all[i];
      assert all[..i + 1] == all[..i] + [t];
      PushStep(all[..i], t, now);
      if t.columnTitle == "Done" || t.task.isCompleted {
        completed := completed + [t];
      } else if t.task.dueDate.None? {
        noDate := noDate + [t];
      } else {
        var due := t.task.dueDate.value;
        if due < now && DayOf(due) != DayOf(now) {
          late := late + [t];
        } else if DayOf(due) == DayOf(now) {
          today := today + [t];
        } else if DayOf(due) == DayOf(now) + 1 {
          tomorrow := tomorrow + [t];
        } else {
          upcoming := upcoming + [t];
        }
      }
      i := i + 1;
    }
    assert all[..i] == all;
  }

  /** `groupedTasks`: the buckets, then the non-empty ones as groups in the
      fixed order, only Overdue marked late. */
  method GroupedTasks(all: seq<TimelineTask>, now: int) returns (groups: seq<TimelineGroup>)
    ensures groups == GroupsFrom(all, now, GroupOrder)
  {
    var late, today, tomorrow, upcoming, noDate, completed := SplitIntoBuckets(all, now);
    ghost var g1 := OptGroup(all, now, Overdue);
    ghost var g2 := g1 + OptGroup(all, now, Today);
    ghost var g3 := g2 + OptGroup(all, now, Tomorrow);
    ghost var g4 := g3 + OptGroup(all, now, Upcoming);
    ghost var g5 := g4 + OptGroup(all, now, NoDate);
    groups := [];
    if |late| > 0 { groups := groups + [TimelineGroup("Overdue", late, true)]; }
    assert groups == g1;
    if |today| > 0 { groups := groups + [TimelineGroup("Today", today, false)]; }
    assert groups == g2;
    if |tomorrow| > 0 { groups := groups + [TimelineGroup("Tomorrow", tomorrow, false)]; }
    assert groups == g3;
    if |upcoming| > 0 { groups := groups + [TimelineGroup("Upcoming", upcoming, false)]; }
    assert groups == g4;
    if |noDate| > 0 { groups := groups + [TimelineGroup("No Date", noDate, false)]; }
    assert groups == g5;
    if |completed| > 0 { groups := groups + [TimelineGroup("Completed", completed, false)]; }
    GroupOrderUnfolded(all, now);
  }
}
