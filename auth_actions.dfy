/** Server actions for setup, sign-in and administration: users, groups,
    board membership and the full reset. Password hashing is outside the
    model: callers pass the hash, and sign-in takes the hasher's compare
    function as a parameter. */
module AuthActions {
  import opened Common
  import opened Store

  // -----------------------------------------------------------------------
  // checkSystemSetup, initialSetup
  // -----------------------------------------------------------------------

  /** `checkSystemSetup`: the system still needs its first user. */
  function NeedsSetup(users: seq<User>): (r: bool)
    ensures r <==> forall id :: !HasUserId(users, id)
  {
    if users == [] then true
    else
      assert HasUserId(users, users[0].id);
      false
  }

  /** `initialSetup`: creates the first user, always an administrator, and
      signs them in. An empty username or password counts as missing. */
  method InitialSetup(db: Db, username: string, password: string, passwordHash: string, userId: int)
    returns (out: Outcome, session: Option<Session>)
    requires db.Valid()
    modifies db`users
    ensures db.Valid()
    ensures (username == "" || password == "") ==> out == Thrown("Missing fields") && session.None? && unchanged(db)
    ensures username != "" && password != "" && !NeedsSetup(old(db.users)) ==>
      out == RedirectTo("/login") && session.None? && unchanged(db)
    ensures username != "" && password != "" && NeedsSetup(old(db.users)) ==>
      && db.users == [User(userId, username, passwordHash, true, None)]
      && session == Some(Session(userId, true))
      && out == RedirectTo("/")
      && !NeedsSetup(db.users)
  {
    if username == "" || password == "" {
      return Thrown("Missing fields"), None;
    }
    if db.users != [] {
      return RedirectTo("/login"), None;
    }
    db.users := [User(userId, username, passwordHash, true, None)];
    assert db.users[0].id == userId;
    assert HasUserId(db.users, userId);
    out, session := RedirectTo("/"), Some(Session(userId, true));
  }

  // -----------------------------------------------------------------------
  // login
  // -----------------------------------------------------------------------

  /** The index of the first user satisfying `p`, or -1. */
  function FirstIndex(users: seq<User>, p: User -> bool): (i: int)
    ensures -1 <= i < |users|
    ensures i == -1 <==> forall k :: 0 <= k < |users| ==> !p(users[k])
    ensures 0 <= i ==> p(users[i]) && forall k :: 0 <= k < i ==> !p(users[k])
  {
    if users == [] then -1
    else if p(users[0]) then 0
    else
      var j := FirstIndex(users[1..], p);
      assert forall k :: 1 <= k < |users| ==> users[k] == users[1..][k - 1];
      if j == -1 then -1 else j + 1
  }

  function ExactIndex(users: seq<User>, username: string): int {
    FirstIndex(users, (u: User) => u.username == username)
  }

  function FoldedIndex(users: seq<User>, username: string): int {
    FirstIndex(users, (u: User) => Lower(u.username) == Lower(username))
  }

  /** The account `login` tries: the exact username if there is one,
      otherwise the first user whose name matches ignoring case. */
  function LoginTarget(users: seq<User>, username: string): (r: Option<User>)
    ensures r.Some? ==> r.value in users && Lower(r.value.username) == Lower(username)
    ensures HasUsername(users, username) ==> r.Some? && r.value.username == username
    ensures r.None? <==> forall k :: 0 <= k < |users| ==> Lower(users[k].username) != Lower(username)
    ensures !HasUsername(users, username) && r.Some? ==>
      exists i :: 0 <= i < |users| && r.value == users[i] && Lower(users[i].username) == Lower(username) &&
        forall k :: 0 <= k < i ==> Lower(users[k].username) != Lower(username)
  {
    var e := ExactIndex(users, username);
    if e >= 0 then Some(users[e])
    else
      assert !HasUsername(users, username);
      var f := FoldedIndex(users, username);
      if f >= 0 then Some(users[f]) else None
  }

  /** `login`: a session for the target account if the password matches
      its hash, "Invalid credentials" otherwise. */
  method Login(db: Db, username: string, password: string, passwordMatches: (string, string) -> bool)
    returns (out: Outcome, session: Option<Session>)
    ensures LoginTarget(db.users, username).None? ==> out == Failed("Invalid credentials") && session.None?
    ensures LoginTarget(db.users, username).Some? ==>
      var u := LoginTarget(db.users, username).value;
      if passwordMatches(password, u.passwordHash) then
        out == RedirectTo("/") && session == Some(Session(u.id, u.isAdmin))
      else
        out == Failed("Invalid credentials") && session.None?
  {
    var users := db.users;
    // Exact match first.
    var i := 0;
    while i < |users| && users[i].username != username
      invariant 0 <= i <= |users|
      invariant forall k :: 0 <= k < i ==> users[k].username != username
    {
      i := i + 1;
    }
    var target: Option<User> := None;
    if i < |users| {
      target := Some(users[i]);
      assert ExactIndex(users, username) == i;
    } else {
      assert ExactIndex(users, username) == -1;
      // Fallback: first case-insensitive match.
      var j := 0;
      while j < |users| && Lower(users[j].username) != Lower(username)
        invariant 0 <= j <= |users|
        invariant forall k :: 0 <= k < j ==> Lower(users[k].username) != Lower(username)
      {
        j := j + 1;
      }
      if j < |users| {
        target := Some(users[j]);
        assert FoldedIndex(users, username) == j;
      } else {
        assert FoldedIndex(users, username) == -1;
      }
    }
    assert target == LoginTarget(users, username);
    if target.None? || !passwordMatches(password, target.value.passwordHash) {
      return Failed("Invalid credentials"), None;
    }
    out, session := RedirectTo("/"), Some(Session(target.value.id, target.value.isAdmin));
  }

  /** The exact match wins even when a differently-cased account comes
      first; without an exact match the first differently-cased one is used. */
  lemma LoginPrefersExactMatch()
    ensures var users := [User(1, "Bob", "h1", false, None), User(2, "bob", "h2", false, None)];
      LoginTarget(users, "bob") == Some(users[1]) && LoginTarget(users, "BOB") == Some(users[0])
  {
    var users := [User(1, "Bob", "h1", false, None), User(2, "bob", "h2", false, None)];
    assert "Bob"[0] != "bob"[0];
    assert ExactIndex(users, "bob") == 1;
    assert "Bob" != "BOB" && "bob" != "BOB";
    assert ExactIndex(users, "BOB") == -1;
    assert Lower("Bob") == "bob" && Lower("BOB") == "bob";
    assert FoldedIndex(users, "BOB") == 0;
  }

  // -----------------------------------------------------------------------
  // createUser, deleteGroup, createGroup, updateGroup
  // -----------------------------------------------------------------------

  /** The role a new user gets from the form's group field: "admin" makes an
      administrator with no group, anything else a plain member of that group. */
  function RoleFor(groupField: Option<string>): (r: (bool, Option<string>))
    ensures r.0 <==> groupField == Some("admin")
    ensures !(r.0 && r.1.Some?)
    ensures !r.0 ==> r.1 == groupField
  {
    if groupField == Some("admin") then (true, None) else (false, groupField)
  }

  const ForeignKeyViolation: string := "Foreign key constraint failed on the field: `groupId`"

  /** `createUser`: the username must be free and a named group must exist. */
  method CreateUser(db: Db, username: string, passwordHash: string, groupField: Option<string>, userId: int)
    returns (out: Outcome)
    requires db.Valid()
    requires !HasUserId(db.users, userId)
    modifies db`users
    ensures db.Valid()
    ensures HasUsername(old(db.users), username) ==> out == Thrown(UniqueViolation) && unchanged(db)
    ensures !HasUsername(old(db.users), username) && RoleFor(groupField).1.Some? &&
            RoleFor(groupField).1.value !in db.groups ==>
      out == Thrown(ForeignKeyViolation) && unchanged(db)
    ensures !HasUsername(old(db.users), username) &&
            (RoleFor(groupField).1.None? || RoleFor(groupField).1.value in db.groups) ==>
      && out == Done
      && db.users == old(db.users) + [User(userId, username, passwordHash, RoleFor(groupField).0, RoleFor(groupField).1)]
  {
    var i := 0;
    while i < |db.users|
      invariant 0 <= i <= |db.users|
      invariant forall k :: 0 <= k < i ==> db.users[k].username != username
    {
      if db.users[i].username == username {
        return Thrown(UniqueViolation);
      }
      i := i + 1;
    }
    var (isAdmin, groupId) := RoleFor(groupField);
    if groupId.Some? && groupId.value !in db.groups {
      return Thrown(ForeignKeyViolation);
    }
    var u := User(userId, username, passwordHash, isAdmin, groupId);
    AppendUnique(db.users, u);
    db.users := db.users + [u];
    out := Done;
  }

  /** No stored user is both an administrator and a member of a group. */
  predicate NoAdminInGroup(users: seq<User>) {
    forall i :: 0 <= i < |users| ==> !(users[i].isAdmin && users[i].groupId.Some?)
  }

  /** Every action that writes users keeps administrators out of groups:
      the first administrator of `initialSetup`, a user appended by
      `createUser`, and the users detached by `deleteGroup` and by the reset. */
  lemma RoleExclusive(users: seq<User>, userId: int, username: string, passwordHash: string,
                      groupField: Option<string>, groupId: string)
    requires NoAdminInGroup(users)
    ensures NoAdminInGroup([User(userId, username, passwordHash, true, None)])
    ensures NoAdminInGroup(users + [User(userId, username, passwordHash, RoleFor(groupField).0, RoleFor(groupField).1)])
    ensures NoAdminInGroup(WithoutGroup(users, groupId))
    ensures NoAdminInGroup(WithoutGroups(users))
  {
    var added := users + [User(userId, username, passwordHash, RoleFor(groupField).0, RoleFor(groupField).1)];
    forall i | 0 <= i < |added| ensures !(added[i].isAdmin && added[i].groupId.Some?) {
      if i < |users| {
        assert added[i] == users[i];
      }
    }
  }

  /** A group's permission check: is `key` among the stored values? */
  predicate GroupAllows(g: Group, key: string) {
    key in g.permissions
  }

  /** `createGroup`: stores the submitted permission values as given. */
  method CreateGroup(db: Db, groupId: string, name: string, permissions: seq<string>)
    requires db.Valid()
    requires groupId !in db.groups
    modifies db`groups
    ensures db.Valid()
    ensures db.groups == old(db.groups)[groupId := Group(name, permissions)]
    ensures forall key :: GroupAllows(db.groups[groupId], key) <==> key in permissions
  {
    db.groups := db.groups[groupId := Group(name, permissions)];
  }

  /** `updateGroup`: replaces name and permission list of an existing group. */
  method UpdateGroup(db: Db, groupId: string, name: string, permissions: seq<string>) returns (out: Outcome)
    requires db.Valid()
    modifies db`groups
    ensures db.Valid()
    ensures groupId !in old(db.groups) ==> out == Thrown(RecordNotFound) && unchanged(db)
    ensures groupId in old(db.groups) ==>
      && out == Done
      && db.groups == old(db.groups)[groupId := Group(name, permissions)]
      && forall key :: GroupAllows(db.groups[groupId], key) <==> key in permissions
  {
    if groupId !in db.groups {
      return Thrown(RecordNotFound);
    }
    db.groups := db.groups[groupId := Group(name, permissions)];
    out := Done;
  }

  /** The users after their group is deleted: its members lose the group. */
  function WithoutGroup(users: seq<User>, groupId: string): (r: seq<User>)
    ensures |r| == |users|
    ensures forall i :: 0 <= i < |users| ==>
      r[i].id == users[i].id && r[i].username == users[i].username && r[i].isAdmin == users[i].isAdmin &&
      r[i].groupId != Some(groupId) &&
      (users[i].groupId != Some(groupId) ==> r[i] == users[i])
  {
    seq(|users|, i requires 0 <= i < |users| =>
      if users[i].groupId == Some(groupId) then users[i].(groupId := None) else users[i])
  }

  /** `deleteGroup`: the group goes, its users stay without a group. */
  method DeleteGroup(db: Db, groupId: string) returns (out: Outcome)
    requires db.Valid()
    modifies db`groups, db`users
    ensures db.Valid()
    ensures groupId !in old(db.groups) ==> out == Thrown(RecordNotFound) && unchanged(db)
    ensures groupId in old(db.groups) ==>
      out == Done && db.groups == old(db.groups) - {groupId} && db.users == WithoutGroup(old(db.users), groupId)
  {
    if groupId !in db.groups {
      return Thrown(RecordNotFound);
    }
    db.groups := db.groups - {groupId};
    db.users := WithoutGroup(db.users, groupId);
    out := Done;
  }

  // -----------------------------------------------------------------------
  // updateUserBoards
  // -----------------------------------------------------------------------

  /** The boards `userId` is a member of. */
  function MemberBoardsOf(members: set<(int, int)>, userId: int): set<int> {
    set m | m in members && m.0 == userId :: m.1
  }

  /** The membership relation with `userId`'s boards replaced by `boardIds`. */
  function WithMemberBoards(members: set<(int, int)>, userId: int, boardIds: set<int>): set<(int, int)> {
    (set m | m in members && m.0 != userId) + (set b | b in boardIds :: (userId, b))
  }

  /** Afterwards the user is a member of exactly the submitted boards, and
      every other user's memberships are as before. */
  lemma MemberBoardsReplaced(members: set<(int, int)>, userId: int, boardIds: set<int>, other: int)
    requires other != userId
    ensures MemberBoardsOf(WithMemberBoards(members, userId, boardIds), userId) == boardIds
    ensures MemberBoardsOf(WithMemberBoards(members, userId, boardIds), other) == MemberBoardsOf(members, other)
  {
    var r := WithMemberBoards(members, userId, boardIds);
    forall b | b in boardIds ensures b in MemberBoardsOf(r, userId) {
      assert (userId, b) in r;
    }
    forall b | b in MemberBoardsOf(members, other) ensures b in MemberBoardsOf(r, other) {
      var m :| m in members && m.0 == other && m.1 == b;
      assert m in r;
    }
  }

  /** `updateUserBoards`: sets the user's member boards to exactly `boardIds`. */
  method UpdateUserBoards(db: Db, userId: int, boardIds: set<int>) returns (out: Outcome)
    requires db.Valid()
    modifies db`members
    ensures db.Valid()
    ensures (!HasUserId(db.users, userId) || !(boardIds <= db.boards.Keys)) ==>
      out == Thrown(RecordNotFound) && unchanged(db)
    ensures HasUserId(db.users, userId) && boardIds <= db.boards.Keys ==>
      out == Done && db.members == WithMemberBoards(old(db.members), userId, boardIds)
  {
    var found := false;
    var i := 0;
    while i < |db.users|
      invariant 0 <= i <= |db.users|
      invariant found <==> exists k :: 0 <= k < i && db.users[k].id == userId
    {
      if db.users[i].id == userId {
        found := true;
      }
      i := i + 1;
    }
    if !found || !(boardIds <= db.boards.Keys) {
      return Thrown(RecordNotFound);
    }
    db.members := WithMemberBoards(db.members, userId, boardIds);
    out := Done;
  }

  // -----------------------------------------------------------------------
  // resetDatabase
  // -----------------------------------------------------------------------

  /** Whether the deletion in step `k` (1 to 8) ran, when step `failsAt`
      (if any) is the one the store rejects. */
  predicate Reached(failsAt: Option<nat>, k: nat) {
    !(failsAt.Some? && 1 <= failsAt.value <= k)
  }

  /** `resetDatabase`: deletes activity, subtasks, labels, tasks, columns,
      boards, groups and users, in that order. Deleting the tasks drops
      their dependencies, deleting the boards their memberships, and deleting
      the groups detaches their users. If step `failsAt` fails, the steps
      before it stay done and the action throws "Reset failed". */
  method ResetDatabase(db: Db, failsAt: Option<nat>) returns (out: Outcome)
    requires db.Valid()
    modifies db
    ensures db.Valid()
    ensures Reached(failsAt, 8) ==> out == RedirectTo("/setup") && db.IsEmpty()
    ensures !Reached(failsAt, 8) ==> out == Thrown("Reset failed")
    ensures db.activity == if Reached(failsAt, 1) then [] else old(db.activity)
    ensures db.subtasks == if Reached(failsAt, 2) then map[] else old(db.subtasks)
    ensures db.labels == if Reached(failsAt, 3) then map[] else old(db.labels)
    ensures db.tasks == (if Reached(failsAt, 4) then map[] else old(db.tasks))
    ensures db.blockedBy == (if Reached(failsAt, 4) then {} else old(db.blockedBy))
    ensures db.columns == if Reached(failsAt, 5) then map[] else old(db.columns)
    ensures db.boards == (if Reached(failsAt, 6) then map[] else old(db.boards))
    ensures db.members == (if Reached(failsAt, 6) then {} else old(db.members))
    ensures db.groups == if Reached(failsAt, 7) then map[] else old(db.groups)
    ensures db.users == if Reached(failsAt, 8) then []
                        else if Reached(failsAt, 7) then WithoutGroups(old(db.users))
                        else old(db.users)
  {
    var done := StepsDone(failsAt);
    DeleteTaskData(db, done);
    DeleteBoardsAndAccounts(db, done);
    out := if done == 8 then RedirectTo("/setup") else Thrown("Reset failed");
  }

  /** Steps 1 to 4 of the reset, those among the first `done`: activity,
      subtasks, labels, then tasks with their dependencies. */
  method DeleteTaskData(db: Db, done: nat)
    requires db.Valid()
    modifies db`activity, db`subtasks, db`labels, db`tasks, db`blockedBy
    ensures db.Valid()
    ensures db.activity == if done >= 1 then [] else old(db.activity)
    ensures db.subtasks == if done >= 2 then map[] else old(db.subtasks)
    ensures db.labels == if done >= 3 then map[] else old(db.labels)
    ensures db.tasks == (if done >= 4 then map[] else old(db.tasks))
    ensures db.blockedBy == (if done >= 4 then {} else old(db.blockedBy))
  {
    if done >= 1 { db.activity := []; }
    if done >= 2 { db.subtasks := map[]; }
    if done >= 3 { db.labels := map[]; }
    if done >= 4 { db.tasks, db.blockedBy := map[], {}; }
  }

  /** Steps 5 to 8 of the reset, those among the first `done`: columns,
      boards with their memberships, groups (detaching their users), then
      users. */
  method DeleteBoardsAndAccounts(db: Db, done: nat)
    requires db.Valid()
    modifies db`columns, db`boards, db`members, db`groups, db`users
    ensures db.Valid()
    ensures db.columns == if done >= 5 then map[] else old(db.columns)
    ensures db.boards == (if done >= 6 then map[] else old(db.boards))
    ensures db.members == (if done >= 6 then {} else old(db.members))
    ensures db.groups == if done >= 7 then map[] else old(db.groups)
    ensures db.users == if done >= 8 then []
                        else if done >= 7 then WithoutGroups(old(db.users))
                        else old(db.users)
  {
    if done >= 5 { db.columns := map[]; }
    if done >= 6 { db.boards, db.members := map[], {}; }
    if done >= 7 {
      db.groups := map[];
      AllUsersUnique(db.users);
      db.users := WithoutGroups(db.users);
    }
    if done >= 8 { db.users := []; }
  }

  /** How many of the eight steps complete before the failing one. */
  function StepsDone(failsAt: Option<nat>): (n: nat)
    ensures n <= 8
    ensures forall k :: 1 <= k <= 8 ==> (Reached(failsAt, k) <==> k <= n)
  {
    if failsAt.Some? && 1 <= failsAt.value <= 8 then failsAt.value - 1 else 8
  }

  /** Every user detached from their group. */
  function WithoutGroups(users: seq<User>): (r: seq<User>)
    ensures |r| == |users|
    ensures forall i :: 0 <= i < |users| ==> r[i] == users[i].(groupId := None)
  {
    seq(|users|, i requires 0 <= i < |users| => users[i].(groupId := None))
  }

  /** Detaching users from their groups keeps ids and usernames unique. */
  lemma AllUsersUnique(users: seq<User>)
    requires UniqueUsers(users)
    ensures UniqueUsers(WithoutGroups(users))
  {
  }
}
