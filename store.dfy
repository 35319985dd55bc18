/** The persistent store the server actions read and write: one table per
    entity, the two many-to-many relations as sets of id pairs, and the
    shapes of what an action hands back to its caller. */
module Store {
  import opened Common

  /** A user; `passwordHash` is whatever the password hasher produced. */
  datatype User = User(id: int, username: string, passwordHash: string, isAdmin: bool, groupId: Option<string>)

  /** A group; `permissions` is the stored list of permission keys. */
  datatype Group = Group(name: string, permissions: seq<string>)

  datatype BoardRow = BoardRow(title: string, ownerId: int)
  datatype ColumnRow = ColumnRow(boardId: int, title: string, order: int)
  datatype TaskRow = TaskRow(columnId: int, title: string, order: int, isCompleted: bool, dueDate: Option<int>)
  datatype SubtaskRow = SubtaskRow(taskId: int, title: string, isCompleted: bool)
  datatype LabelRow = LabelRow(boardId: int, name: string, color: string)
  datatype ActivityRow = ActivityRow(action: string, taskId: Option<int>, userId: Option<int>)

  /** The signed-in caller, as the session cookie records it. */
  datatype Session = Session(userId: int, isAdmin: bool)

  /** What an action ends with: `{ error }` is `Failed`, `{ success: true }`
      is `Succeeded`, a plain return is `Done`, a thrown error is `Thrown`,
      and the framework's `redirect` is `RedirectTo`. */
  datatype Outcome =
    | Done
    | Succeeded
    | Failed(error: string)
    | Thrown(message: string)
    | RedirectTo(path: string)
    | RedirectToBoard(boardId: int)

  /** The store's error for an update or delete of a row that does not exist. */
  const RecordNotFound: string := "Record to update not found."

  /** The store's error for a second user with a taken username. */
  const UniqueViolation: string := "Unique constraint failed on the fields: (`username`)"

  class Db {
    var users: seq<User>              // in insertion order
    var groups: map<string, Group>
    var boards: map<int, BoardRow>
    var members: set<(int, int)>      // (userId, boardId): the user is a member of the board
    var columns: map<int, ColumnRow>
    var tasks: map<int, TaskRow>
    var blockedBy: set<(int, int)>    // (taskId, blockingTaskId): the task is blocked by the other
    var subtasks: map<int, SubtaskRow>
    var labels: map<int, LabelRow>
    var activity: seq<ActivityRow>

    /** Schema constraints: user ids and usernames are unique, and a
        dependency joins two existing tasks. */
    ghost predicate Valid()
      reads this
    {
      UniqueUsers(users) &&
      forall e :: e in blockedBy ==> e.0 in tasks && e.1 in tasks
    }

    constructor ()
      ensures Valid() && IsEmpty()
    {
      users, groups, boards, members := [], map[], map[], {};
      columns, tasks, blockedBy := map[], map[], {};
      subtasks, labels, activity := map[], map[], [];
    }

    /** Every table and relation is empty. */
    ghost predicate IsEmpty()
      reads this
    {
      users == [] && groups == map[] && boards == map[] && members == {} &&
      columns == map[] && tasks == map[] && blockedBy == {} &&
      subtasks == map[] && labels == map[] && activity == []
    }
  }

  predicate UniqueUsers(users: seq<User>) {
    forall i, j :: 0 <= i < j < |users| ==> users[i].id != users[j].id && users[i].username != users[j].username
  }

  predicate HasUserId(users: seq<User>, id: int) {
    exists i :: 0 <= i < |users| && users[i].id == id
  }

  predicate HasUsername(users: seq<User>, name: string) {
    exists i :: 0 <= i < |users| && users[i].username == name
  }

  /** Appending a user with a fresh id and a free username keeps the users unique. */
  lemma AppendUnique(users: seq<User>, u: User)
    requires UniqueUsers(users) && !HasUserId(users, u.id) && !HasUsername(users, u.username)
    ensures UniqueUsers(users + [u])
  {
    var r := users + [u];
    forall i, j | 0 <= i < j < |r| ensures r[i].id != r[j].id && r[i].username != r[j].username {
      if j == |users| {
        assert r[i] == users[i];
      }
    }
  }
}
