/** The `users` and `tasks` tables (core/models/user.py, core/models/task.py):
    rows, their column defaults, the relationship between them, the store's
    constraints, and the two ORM-level writes that are not route specific
    (setting the subscription flag, deleting a user with its tasks). */
module Models {
  import opened Common

  /** Primary keys are `String(36)` uuid4 texts; the model treats them as opaque strings. */
  type Id = string

  /** Column default of `Task.priority` (3 = low, 2 = medium, 1 = high). */
  const DefaultPriority: int := 3

  /** A `users` row. `createdAt`/`updatedAt` are ticks of the store's clock. */
  datatype User = User(
    id: Id,
    username: string,
    passwordHash: string,
    isSubscribed: bool,
    createdAt: nat,
    updatedAt: Option<nat>)

  /** A `tasks` row; `userId` and `priority` are nullable columns. */
  datatype Task = Task(
    id: Id,
    title: string,
    details: Option<string>,
    priority: Option<int>,
    userId: Option<Id>,
    createdAt: nat,
    updatedAt: Option<nat>)

  /** A snapshot of the database: both tables in row order and the clock that
      `func.now()` reads (the tick of the latest writing commit). */
  datatype Db = Db(users: seq<User>, tasks: seq<Task>, clock: nat)

  // Row filters, named so that the same filter is the same term everywhere.
  function IdIs(id: Id): User -> bool { (u: User) => u.id == id }
  function NotIdIs(id: Id): User -> bool { (u: User) => u.id != id }
  function NameIs(name: string): User -> bool { (u: User) => u.username == name }
  function TaskIdIs(id: Id): Task -> bool { (t: Task) => t.id == id }
  function OwnedBy(uid: Id): Task -> bool { (t: Task) => t.userId == Some(uid) }
  function NotOwnedBy(uid: Id): Task -> bool { (t: Task) => t.userId != Some(uid) }

  /** A new `users` row with its column defaults: not subscribed, never updated. */
  function NewUser(id: Id, username: string, passwordHash: string, now: nat): User {
    User(id, username, passwordHash, false, now, None)
  }

  /** A new `tasks` row. A priority that is omitted or `None` is left out of
      the INSERT by the ORM, so the column default applies. */
  function NewTask(id: Id, title: string, details: Option<string>, priority: Option<int>,
                   userId: Option<Id>, now: nat): (t: Task)
    ensures t.priority.Some?
    ensures priority.None? ==> t.priority == Some(DefaultPriority)
    ensures priority.Some? ==> t.priority == priority
  {
    Task(id, title, details, Some(match priority case Some(p) => p case None => DefaultPriority),
         userId, now, None)
  }

  // ---------------------------------------------------------------------------
  // Store constraints

  /** Primary key on `users.id` and UNIQUE on `users.username`. */
  predicate UniqueUsers(users: seq<User>) {
    forall i, j :: 0 <= i < j < |users| ==>
      users[i].id != users[j].id && users[i].username != users[j].username
  }

  /** Primary key on `tasks.id`. */
  predicate UniqueTaskIds(tasks: seq<Task>) {
    forall i, j :: 0 <= i < j < |tasks| ==> tasks[i].id != tasks[j].id
  }

  predicate HasUser(users: seq<User>, id: Id) {
    exists u :: u in users && u.id == id
  }

  /** Every non-null `tasks.user_id` names a user (kept by the cascade on delete). */
  predicate OwnersExist(users: seq<User>, tasks: seq<Task>) {
    forall t :: t in tasks && t.userId.Some? ==> HasUser(users, t.userId.value)
  }

  predicate StampedBy(clock: nat, createdAt: nat, updatedAt: Option<nat>) {
    createdAt <= clock && (updatedAt.Some? ==> updatedAt.value <= clock)
  }

  predicate Consistent(db: Db) {
    && UniqueUsers(db.users)
    && UniqueTaskIds(db.tasks)
    && OwnersExist(db.users, db.tasks)
    && (forall u :: u in db.users ==> StampedBy(db.clock, u.createdAt, u.updatedAt))
    && (forall t :: t in db.tasks ==> StampedBy(db.clock, t.createdAt, t.updatedAt))
  }

  // ---------------------------------------------------------------------------
  // The relationship `User.tasks` <-> `Task.owner`

  /** `task.owner`: the user whose id equals the task's `user_id`, if any. */
  function Owner(users: seq<User>, t: Task): Option<User> {
    match t.userId
    case None => None
    case Some(uid) =>
      match FindFirst(users, IdIs(uid))
      case None => None
      case Some(k) => Some(users[k])
  }

  /** `user.tasks`: the tasks whose `user_id` is the user's id, in row order. */
  function UserTasks(tasks: seq<Task>, uid: Id): seq<Task> {
    Filter(tasks, OwnedBy(uid))
  }

  /** The two sides of `back_populates` agree: a task is in `user.tasks`
      exactly when its `owner` is that user. */
  lemma OwnerMatchesUserTasks(users: seq<User>, tasks: seq<Task>, u: User, t: Task)
    requires UniqueUsers(users) && u in users && t in tasks
    ensures t in UserTasks(tasks, u.id) <==> Owner(users, t) == Some(u)
  {
    var j :| 0 <= j < |users| && users[j] == u;
    if t.userId == Some(u.id) {
      var k := FindFirst(users, IdIs(u.id));
      assert IdIs(u.id)(users[j]);
      assert k.Some? && users[k.value].id == users[j].id;
    }
  }

  // ---------------------------------------------------------------------------
  // ORM writes shared by several routes

  /** `user.is_subscribed = flag; db.commit()` on row `i`. SQLAlchemy emits no
      UPDATE when the value does not change, so then nothing (not even
      `updated_at`) changes; otherwise `updated_at` is the commit's tick. */
  function SetFlag(db: Db, i: nat, flag: bool): (r: Db)
    requires i < |db.users|
    ensures r.tasks == db.tasks && |r.users| == |db.users|
    ensures r.users[i].isSubscribed == flag
    ensures r.users[i] == db.users[i].(isSubscribed := flag, updatedAt := r.users[i].updatedAt)
    ensures forall j :: 0 <= j < |db.users| && j != i ==> r.users[j] == db.users[j]
    ensures db.users[i].isSubscribed == flag ==> r == db
    ensures db.users[i].isSubscribed != flag ==> r.users[i].updatedAt == Some(r.clock) && r.clock == db.clock + 1
    ensures Consistent(db) ==> Consistent(r)
  {
    var u := db.users[i];
    if u.isSubscribed == flag then db
    else
      var r := Db(db.users[i := u.(isSubscribed := flag, updatedAt := Some(db.clock + 1))], db.tasks, db.clock + 1);
      assert Consistent(db) ==> UniqueUsers(r.users) by {
        if Consistent(db) {
          forall a, b | 0 <= a < b < |r.users|
            ensures r.users[a].id != r.users[b].id && r.users[a].username != r.users[b].username
          {
            assert db.users[a].id != db.users[b].id && db.users[a].username != db.users[b].username;
          }
        }
      }
      assert Consistent(db) ==> OwnersExist(r.users, r.tasks) by {
        if Consistent(db) {
          forall t | t in r.tasks && t.userId.Some? ensures HasUser(r.users, t.userId.value) {
            var v :| v in db.users && v.id == t.userId.value;
            var k :| 0 <= k < |db.users| && db.users[k] == v;
            assert r.users[k].id == v.id;
          }
        }
      }
      r
  }

  /** Setting the flag twice is setting it once: a replayed webhook is harmless. */
  lemma SetFlagIdempotent(db: Db, i: nat, flag: bool)
    requires i < |db.users|
    ensures SetFlag(SetFlag(db, i, flag), i, flag) == SetFlag(db, i, flag)
  {
  }

  /** `db.delete(user)` with `cascade="all, delete-orphan"`: the user's row and
      every task owned by that user go; no other row changes. */
  function DeleteUserCascade(db: Db, uid: Id): (r: Db)
    ensures forall u :: u in r.users <==> u in db.users && u.id != uid
    ensures forall t :: t in r.tasks <==> t in db.tasks && t.userId != Some(uid)
    ensures r.clock == db.clock
    ensures Consistent(db) ==> Consistent(r)
  {
    var r := Db(Filter(db.users, NotIdIs(uid)), Filter(db.tasks, NotOwnedBy(uid)), db.clock);
    assert Consistent(db) ==> Consistent(r) by {
      if Consistent(db) {
        FilterKeepsUniqueUsers(db.users, NotIdIs(uid));
        FilterKeepsUniqueTaskIds(db.tasks, NotOwnedBy(uid));
        forall t | t in r.tasks && t.userId.Some? ensures HasUser(r.users, t.userId.value) {
          var v :| v in db.users && v.id == t.userId.value;
          assert v in r.users;
        }
      }
    }
    r
  }

  lemma {:induction false} FilterKeepsUniqueUsers(users: seq<User>, p: User -> bool)
    requires UniqueUsers(users)
    ensures UniqueUsers(Filter(users, p))
  {
    if |users| > 0 {
      assert UniqueUsers(users[1..]) by {
        forall a, b | 0 <= a < b < |users[1..]|
          ensures users[1..][a].id != users[1..][b].id && users[1..][a].username != users[1..][b].username
        {
          assert users[1..][a] == users[a + 1] && users[1..][b] == users[b + 1];
        }
      }
      FilterKeepsUniqueUsers(users[1..], p);
      var rest := Filter(users[1..], p);
      if p(users[0]) {
        var r := [users[0]] + rest;
        forall a, b | 0 <= a < b < |r| ensures r[a].id != r[b].id && r[a].username != r[b].username {
          if a == 0 {
            assert r[b] in users[1..];
            var k :| 0 <= k < |users[1..]| && users[1..][k] == r[b];
            assert users[k + 1] == r[b];
          } else {
            assert r[a] == rest[a - 1] && r[b] == rest[b - 1];
          }
        }
      }
    }
  }

  lemma {:induction false} FilterKeepsUniqueTaskIds(tasks: seq<Task>, p: Task -> bool)
    requires UniqueTaskIds(tasks)
    ensures UniqueTaskIds(Filter(tasks, p))
  {
    if |tasks| > 0 {
      assert UniqueTaskIds(tasks[1..]) by {
        forall a, b | 0 <= a < b < |tasks[1..]| ensures tasks[1..][a].id != tasks[1..][b].id {
          assert tasks[1..][a] == tasks[a + 1] && tasks[1..][b] == tasks[b + 1];
        }
      }
      FilterKeepsUniqueTaskIds(tasks[1..], p);
      var rest := Filter(tasks[1..], p);
      if p(tasks[0]) {
        var r := [tasks[0]] + rest;
        forall a, b | 0 <= a < b < |r| ensures r[a].id != r[b].id {
          if a == 0 {
            assert r[b] in tasks[1..];
            var k :| 0 <= k < |tasks[1..]| && tasks[1..][k] == r[b];
            assert tasks[k + 1] == r[b];
          } else {
            assert r[a] == rest[a - 1] && r[b] == rest[b - 1];
          }
        }
      }
    }
  }

  /** A row rewritten in place by a commit at tick `now` (same id and owner). */
  function ReplaceTaskRow(db: Db, i: nat, t: Task, now: nat): (r: Db)
    requires i < |db.tasks| && t.id == db.tasks[i].id && t.userId == db.tasks[i].userId
    requires db.clock <= now && StampedBy(now, t.createdAt, t.updatedAt)
    ensures Consistent(db) ==> Consistent(r)
  {
    var r := Db(db.users, db.tasks[i := t], now);
    assert Consistent(db) ==> Consistent(r) by {
      if Consistent(db) {
        forall a, b | 0 <= a < b < |r.tasks| ensures r.tasks[a].id != r.tasks[b].id {
          assert db.tasks[a].id != db.tasks[b].id;
        }
        forall x | x in r.tasks ensures StampedBy(now, x.createdAt, x.updatedAt)
          && (x.userId.Some? ==> HasUser(r.users, x.userId.value))
        {
          var k :| 0 <= k < |r.tasks| && r.tasks[k] == x;
          assert db.tasks[k] in db.tasks;
        }
      }
    }
    r
  }

  /** A row appended by a commit at tick `now`: a fresh id, an existing owner (or none). */
  function AppendTaskRow(db: Db, t: Task, now: nat): (r: Db)
    requires forall x :: x in db.tasks ==> x.id != t.id
    requires t.userId.Some? ==> HasUser(db.users, t.userId.value)
    requires db.clock <= now && StampedBy(now, t.createdAt, t.updatedAt)
    ensures Consistent(db) ==> Consistent(r)
  {
    var r := Db(db.users, db.tasks + [t], now);
    assert r.tasks[|db.tasks|] == t;
    assert Consistent(db) ==> Consistent(r) by {
      if Consistent(db) {
        forall a, b | 0 <= a < b < |r.tasks| ensures r.tasks[a].id != r.tasks[b].id {
          assert r.tasks[a] == db.tasks[a] && db.tasks[a] in db.tasks;
          if b < |db.tasks| {
            assert r.tasks[b] == db.tasks[b];
          }
        }
      }
    }
    r
  }

  /** Row `i` removed by a commit: the other rows keep their order. */
  function RemoveTaskRow(db: Db, i: nat): (r: Db)
    requires i < |db.tasks|
    ensures r == Db(db.users, db.tasks[..i] + db.tasks[i + 1..], db.clock)
    ensures |r.tasks| == |db.tasks| - 1
    ensures Consistent(db) ==> Consistent(r)
    ensures Consistent(db) ==> forall t :: t in r.tasks <==> t in db.tasks && t.id != db.tasks[i].id
  {
    var r := Db(db.users, db.tasks[..i] + db.tasks[i + 1..], db.clock);
    assert forall k :: 0 <= k < i ==> r.tasks[k] == db.tasks[k];
    assert forall k :: i <= k < |r.tasks| ==> r.tasks[k] == db.tasks[k + 1];
    assert forall t :: t in r.tasks ==> t in db.tasks by {
      forall t | t in r.tasks ensures t in db.tasks {
        var k :| 0 <= k < |r.tasks| && r.tasks[k] == t;
        if k < i { assert db.tasks[k] == t; } else { assert db.tasks[k + 1] == t; }
      }
    }
    assert Consistent(db) ==> Consistent(r) && forall t :: t in r.tasks <==> t in db.tasks && t.id != db.tasks[i].id by {
      if Consistent(db) {
        forall a, b | 0 <= a < b < |r.tasks| ensures r.tasks[a].id != r.tasks[b].id {
          var a', b' := if a < i then a else a + 1, if b < i then b else b + 1;
          assert r.tasks[a] == db.tasks[a'] && r.tasks[b] == db.tasks[b'];
        }
        forall t ensures t in r.tasks <==> t in db.tasks && t.id != db.tasks[i].id {
          if t in r.tasks {
            var k :| 0 <= k < |r.tasks| && r.tasks[k] == t;
            if k < i {
              assert db.tasks[k].id != db.tasks[i].id;
            } else {
              assert db.tasks[i].id != db.tasks[k + 1].id;
            }
          }
          if t in db.tasks && t.id != db.tasks[i].id {
            var k :| 0 <= k < |db.tasks| && db.tasks[k] == t;
            if k < i {
              assert r.tasks[k] == t;
            } else {
              assert k != i && r.tasks[k - 1] == t;
            }
          }
        }
      }
    }
    r
  }

  /** The database session every route and `MomentumLogic` works on. */
  class Database {
    var users: seq<User>
    var tasks: seq<Task>
    var clock: nat

    function Snapshot(): Db
      reads this
    {
      Db(users, tasks, clock)
    }

    ghost predicate Valid()
      reads this
    {
      Consistent(Snapshot())
    }

    constructor ()
      ensures Valid() && Snapshot() == Db([], [], 0)
    {
      users, tasks, clock := [], [], 0;
    }

    /** `user.is_subscribed = flag; db.commit()` for the user in row `i`. */
    method SetSubscribed(i: nat, flag: bool)
      requires Valid() && i < |users|
      modifies this
      ensures Valid()
      ensures Snapshot() == SetFlag(old(Snapshot()), i, flag)
    {
      var u := users[i];
      if u.isSubscribed != flag {
        clock := clock + 1;
        users := users[i := u.(isSubscribed := flag, updatedAt := Some(clock))];
      }
      assert Snapshot() == SetFlag(old(Snapshot()), i, flag);
    }

    /** `db.delete(user); db.commit()`: the user and, by the cascade, all of
        that user's tasks and no other task. */
    method DeleteUser(user: User)
      requires Valid() && user in users
      modifies this
      ensures Valid()
      ensures Snapshot() == DeleteUserCascade(old(Snapshot()), user.id)
      ensures user !in users && forall t :: t in tasks ==> t.userId != Some(user.id)
      ensures forall t :: t in old(tasks) && t.userId != Some(user.id) ==> t in tasks
    {
      var r := DeleteUserCascade(Snapshot(), user.id);
      users, tasks := r.users, r.tasks;
    }
  }
}
