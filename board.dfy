/** The board as the client holds it after loading it from the server:
    columns in order, each with its tasks in order. */
module Board {
  import opened Common

  datatype Label = Label(id: int, name: string)

  /** A task card: `blockedByCount` is the server's `_count.blockedBy`. */
  datatype Task = Task(
    id: int,
    title: string,
    isCompleted: bool,
    dueDate: Option<int>,
    labels: seq<Label>,
    blockedByCount: nat)

  datatype Column = Column(id: int, title: string, tasks: seq<Task>)

  datatype Board = Board(id: int, title: string, columns: seq<Column>)

  /** `columns.map(c => c.id)`. */
  function ColumnIds(cols: seq<Column>): (ids: seq<int>)
    ensures |ids| == |cols|
    ensures forall i :: 0 <= i < |cols| ==> ids[i] == cols[i].id
  {
    seq(|cols|, i requires 0 <= i < |cols| => cols[i].id)
  }

  predicate HasColumn(cols: seq<Column>, id: int) {
    exists i :: 0 <= i < |cols| && cols[i].id == id
  }

  /** `columns.findIndex(c => c.id === id)`: the first index holding `id`, or -1. */
  function IndexOfColumn(cols: seq<Column>, id: int): (i: int)
    ensures -1 <= i < |cols|
    ensures i == -1 <==> !HasColumn(cols, id)
    ensures 0 <= i ==> cols[i].id == id && forall k :: 0 <= k < i ==> cols[k].id != id
  {
    if cols == [] then -1
    else if cols[0].id == id then 0
    else
      var j := IndexOfColumn(cols[1..], id);
      assert forall k :: 1 <= k < |cols| ==> cols[k] == cols[1..][k - 1];
      if j == -1 then -1 else j + 1
  }

  /** Every task of every column, columns left to right. */
  function TasksOf(cols: seq<Column>): seq<Task> {
    if cols == [] then [] else cols[0].tasks + TasksOf(cols[1..])
  }

  lemma {:induction false} TasksOfAppend(a: seq<Column>, b: seq<Column>)
    ensures TasksOf(a + b) == TasksOf(a) + TasksOf(b)
  {
    if a == [] {
      assert a + b == b;
    } else {
      var ab := a + b;
      assert ab[1..] == a[1..] + b;
      TasksOfAppend(a[1..], b);
      assert TasksOf(ab) == a[0].tasks + TasksOf(a[1..] + b);
      assert TasksOf(a) == a[0].tasks + TasksOf(a[1..]);
      var x, y, z := a[0].tasks, TasksOf(a[1..]), TasksOf(b);
      assert x + (y + z) == (x + y) + z;
    }
  }

  /** The board's tasks around column `i`: those of the columns before it,
      its own, and those of the columns after it. */
  lemma TasksOfSplit(cols: seq<Column>, i: nat)
    requires i < |cols|
    ensures TasksOf(cols) == TasksOf(cols[..i]) + (cols[i].tasks + TasksOf(cols[i + 1..]))
  {
    var pre, rest := cols[..i], cols[i..];
    assert cols == pre + rest;
    TasksOfAppend(pre, rest);
    assert rest[0] == cols[i];
    assert rest[1..] == cols[i + 1..];
  }

  /** Replacing one column changes the board's tasks by exactly that
      column's tasks: the old tasks plus the new column's equal the new
      tasks plus the old column's. */
  lemma TasksOfUpdate(cols: seq<Column>, i: nat, c: Column)
    requires i < |cols|
    ensures multiset(TasksOf(cols[i := c])) + multiset(cols[i].tasks) == multiset(TasksOf(cols)) + multiset(c.tasks)
    ensures |TasksOf(cols[i := c])| + |cols[i].tasks| == |TasksOf(cols)| + |c.tasks|
  {
    var u := cols[i := c];
    TasksOfSplit(cols, i);
    TasksOfSplit(u, i);
    assert u[..i] == cols[..i] && u[i + 1..] == cols[i + 1..];
    var pre, post := TasksOf(cols[..i]), TasksOf(cols[i + 1..]);
    assert multiset(TasksOf(u)) == multiset(pre) + multiset(c.tasks) + multiset(post);
    assert multiset(TasksOf(cols)) == multiset(pre) + multiset(cols[i].tasks) + multiset(post);
  }

  /** Replacing two distinct columns, the first by itself without one task
      and the second by itself with that task inserted, keeps every task. */
  lemma MoveBetweenColumnsKeepsTasks(cols: seq<Column>, cols': seq<Column>, si: nat, di: nat, s: nat, d: nat)
    requires si < |cols| && di < |cols| && si != di && |cols'| == |cols|
    requires s < |cols[si].tasks| && d <= |cols[di].tasks|
    requires cols'[si].tasks == Remove(cols[si].tasks, s)
    requires cols'[di].tasks == Insert(cols[di].tasks, d, cols[si].tasks[s])
    requires forall k :: 0 <= k < |cols| && k != si && k != di ==> cols'[k] == cols[k]
    ensures multiset(TasksOf(cols')) == multiset(TasksOf(cols))
    ensures |TasksOf(cols')| == |TasksOf(cols)|
  {
    var x := cols[si].tasks[s];
    var c1 := cols[si := cols'[si]];
    assert c1[di] == cols[di];
    assert cols' == c1[di := cols'[di]];
    var a, m, z := multiset(TasksOf(cols)), multiset(TasksOf(c1)), multiset(TasksOf(cols'));
    var s0, s1 := multiset(cols[si].tasks), multiset(cols'[si].tasks);
    var d0, d1 := multiset(cols[di].tasks), multiset(cols'[di].tasks);
    TasksOfUpdate(cols, si, cols'[si]);
    assert m + s0 == a + s1;
    TasksOfUpdate(c1, di, cols'[di]);
    assert z + d0 == m + d1;
    RemoveMultiset(cols[si].tasks, s);
    assert s1 + multiset{x} == s0;
    InsertMultiset(cols[di].tasks, d, x);
    assert d1 == d0 + multiset{x};
    TransferBalances(a, m, z, s0, s1, d0, d1, x);
    assert z == a;
  }

  /** The counting behind it: taking `x` out of one part and adding it to
      another leaves the whole unchanged. */
  lemma TransferBalances<T>(a: multiset<T>, m: multiset<T>, z: multiset<T>,
                           s0: multiset<T>, s1: multiset<T>, d0: multiset<T>, d1: multiset<T>, x: T)
    requires m + s0 == a + s1 && z + d0 == m + d1
    requires s1 + multiset{x} == s0 && d1 == d0 + multiset{x}
    ensures z == a
  {
    forall t ensures z[t] == a[t] {
      assert (m + s0)[t] == (a + s1)[t];
      assert (z + d0)[t] == (m + d1)[t];
      assert (s1 + multiset{x})[t] == s0[t];
      assert d1[t] == (d0 + multiset{x})[t];
    }
  }
}
