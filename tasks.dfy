/** The owner-scoped task endpoints (api/routes/tasks.py), with the request
    shapes of api/schemas.py. Every endpoint first resolves the caller with the
    guard; every query is filtered by the caller's id, so another user's task
    is indistinguishable from a missing one. */
module TaskRoutes {
  import opened Common
  import opened Models
  import opened HttpErrors
  import opened Dependencies

  /** `TaskCreate` after schema defaults are filled in: title required,
      details default None, priority default 3 and never `null`. */
  datatype TaskCreate = TaskCreate(title: string, details: Option<string>, priority: int)

  /** A field of a partial update: left out of the body, or sent (possibly as `null`). */
  datatype Patch<T> = Unset | Set(value: T)

  /** `TaskUpdate`, where `exclude_unset` tells a field sent as `null` from one not sent. */
  datatype TaskUpdate = TaskUpdate(
    title: Patch<Option<string>>,
    details: Patch<Option<string>>,
    priority: Patch<Option<int>>)

  /** One `(field, value)` item of `task_update.model_dump(exclude_unset=True)`. */
  datatype FieldValue =
    | TitleValue(title: Option<string>)
    | DetailsValue(details: Option<string>)
    | PriorityValue(priority: Option<int>)

  // Row filters of the route queries.
  function OwnedTaskIs(id: Id, uid: Id): Task -> bool {
    (t: Task) => t.id == id && t.userId == Some(uid)
  }
  function OwnedTitleIs(title: string, uid: Id): Task -> bool {
    (t: Task) => t.title == title && t.userId == Some(uid)
  }
  function OtherOwnedTitleIs(title: string, uid: Id, id: Id): Task -> bool {
    (t: Task) => t.title == title && t.userId == Some(uid) && t.id != id
  }

  predicate OwnsTask(tasks: seq<Task>, id: Id, uid: Id) {
    exists t :: t in tasks && t.id == id && t.userId == Some(uid)
  }

  predicate OwnsTitle(tasks: seq<Task>, title: string, uid: Id) {
    exists t :: t in tasks && t.title == title && t.userId == Some(uid)
  }

  /** Another task (id other than `id`) of the same owner carries `title`. */
  predicate OtherOwnsTitle(tasks: seq<Task>, title: string, uid: Id, id: Id) {
    exists t :: t in tasks && t.title == title && t.userId == Some(uid) && t.id != id
  }

  /** `TaskResponse` declares `priority: int`: a row whose priority is NULL
      fails response validation, which FastAPI answers with a 500. */
  predicate FitsTaskResponse(t: Task) {
    t.priority.Some?
  }

  predicate HasTask(tasks: seq<Task>, id: Id) {
    exists t :: t in tasks && t.id == id
  }

  // ---------------------------------------------------------------------------
  // Read-only endpoints

  /** `GET /tasks/`: exactly the caller's tasks, in row order; one of them
      with a NULL priority makes the whole list fail validation. */
  function GetAllTasks(crypto: Crypto, token: string, db: Db): (r: Result<seq<Task>, ApiError>)
    ensures GetCurrentUser(crypto, token, db.users).Failure? ==> r == Failure(CredentialsInvalid)
    ensures GetCurrentUser(crypto, token, db.users).Success? ==>
      var user := GetCurrentUser(crypto, token, db.users).value;
      && (r.Failure? <==> exists t :: t in db.tasks && t.userId == Some(user.id) && !FitsTaskResponse(t))
      && (r.Failure? ==> r.error == ResponseInvalid)
      && (r.Success? ==> forall t :: t in r.value <==> t in db.tasks && t.userId == Some(user.id))
  {
    match GetCurrentUser(crypto, token, db.users)
    case Failure(e) => Failure(e)
    case Success(user) =>
      var tasks := Filter(db.tasks, OwnedBy(user.id));
      if forall t :: t in tasks ==> FitsTaskResponse(t) then Success(tasks) else Failure(ResponseInvalid)
  }

  /** `GET /tasks/{task_id}`: the caller's task with that id; one 404 whether
      the id is absent or belongs to someone else. */
  function GetTaskById(crypto: Crypto, token: string, db: Db, taskId: Id): (r: Result<Task, ApiError>)
    ensures GetCurrentUser(crypto, token, db.users).Failure? ==> r == Failure(CredentialsInvalid)
    ensures GetCurrentUser(crypto, token, db.users).Success? ==>
      var user := GetCurrentUser(crypto, token, db.users).value;
      && (r == Failure(TaskNotFound) <==> !OwnsTask(db.tasks, taskId, user.id))
      && (r.Failure? ==> r.error == TaskNotFound || r.error == ResponseInvalid)
      && (r.Success? ==> r.value in db.tasks && r.value.id == taskId && r.value.userId == Some(user.id))
      && (r.Success? ==> FitsTaskResponse(r.value))
      && (r == Failure(ResponseInvalid) ==>
            exists t :: t in db.tasks && t.id == taskId && t.userId == Some(user.id) && !FitsTaskResponse(t))
      && (OwnsTask(db.tasks, taskId, user.id) &&
          (forall t :: t in db.tasks && t.id == taskId && t.userId == Some(user.id) ==> FitsTaskResponse(t))
          ==> r.Success?)
  {
    match GetCurrentUser(crypto, token, db.users)
    case Failure(e) => Failure(e)
    case Success(user) =>
      match FindFirst(db.tasks, OwnedTaskIs(taskId, user.id))
      case None =>
        FindFirstNone(db.tasks, OwnedTaskIs(taskId, user.id));
        Failure(TaskNotFound)
      case Some(k) =>
        assert db.tasks[k] in db.tasks;
        if FitsTaskResponse(db.tasks[k]) then Success(db.tasks[k]) else Failure(ResponseInvalid)
  }

  /** A row whose priority was set to `null` can no longer be read: both
      `GET` endpoints answer the owner with a 500. */
  lemma NullPriorityRowIsUnreadable(crypto: Crypto, token: string, db: Db, u: User, t: Task)
    requires Consistent(db) && u in db.users && t in db.tasks
    requires t.userId == Some(u.id) && t.priority.None?
    requires TokenSubject(crypto, token) == Some(u.username)
    ensures GetTaskById(crypto, token, db, t.id) == Failure(ResponseInvalid)
    ensures GetAllTasks(crypto, token, db) == Failure(ResponseInvalid)
  {
    GetCurrentUserIsThatUser(crypto, token, db.users, u);
  }

  // ---------------------------------------------------------------------------
  // Create

  /** `POST /tasks/`. Checked in this order: the quota, then a title the
      caller already uses (other users' titles do not matter); then exactly
      one row is added, owned by the caller. `newId` is the uuid4 drawn by the
      column default; a collision is refused by the primary key at commit. */
  method CreateTask(db: Database, crypto: Crypto, token: string, data: TaskCreate, newId: Id)
    returns (r: Result<Task, ApiError>)
    requires db.Valid()
    modifies db
    ensures db.Valid()
    ensures db.users == old(db.users)
    ensures GetCurrentUser(crypto, token, old(db.users)).Failure? ==>
      r == Failure(CredentialsInvalid) && db.Snapshot() == old(db.Snapshot())
    ensures GetCurrentUser(crypto, token, old(db.users)).Success? ==>
      var user := GetCurrentUser(crypto, token, old(db.users)).value;
      var allowed := CheckSubscriptionLimits(user, old(db.tasks));
      var duplicate := OwnsTitle(old(db.tasks), data.title, user.id);
      && (!allowed ==> r == Failure(TaskLimitReached) && db.Snapshot() == old(db.Snapshot()))
      && (allowed && duplicate ==> r == Failure(DuplicateTitle) && db.Snapshot() == old(db.Snapshot()))
      && (allowed && !duplicate && HasTask(old(db.tasks), newId) ==>
            r == Failure(IntegrityError) && db.Snapshot() == old(db.Snapshot()))
      && (r.Success? <==> allowed && !duplicate && !HasTask(old(db.tasks), newId))
      && (r.Success? ==>
            var added := NewTask(newId, data.title, data.details, Some(data.priority), Some(user.id), old(db.clock) + 1);
            && db.tasks == old(db.tasks) + [added]
            && db.clock == old(db.clock) + 1
            && r.value == added)
      && (r.Success? ==> FitsTaskResponse(r.value))
      && (r.Success? && !user.isSubscribed ==> |UserTasks(db.tasks, user.id)| <= FreeTaskLimit)
  {
    var g := GetCurrentUser(crypto, token, db.users);
    if g.Failure? {
      return Failure(g.error);
    }
    var user := g.value;
    if !CheckSubscriptionLimits(user, db.tasks) {
      return Failure(TaskLimitReached);
    }
    var existing := FindFirst(db.tasks, OwnedTitleIs(data.title, user.id));
    if existing.Some? {
      assert db.tasks[existing.value] in db.tasks;
      return Failure(DuplicateTitle);
    }
    FindFirstNone(db.tasks, OwnedTitleIs(data.title, user.id));
    // db.add(new_task); db.commit(): the primary key refuses a colliding id
    var clash := FindFirst(db.tasks, TaskIdIs(newId));
    if clash.Some? {
      assert db.tasks[clash.value] in db.tasks;
      return Failure(IntegrityError);
    }
    FindFirstNone(db.tasks, TaskIdIs(newId));
    var now := db.clock + 1;
    var added := NewTask(newId, data.title, data.details, Some(data.priority), Some(user.id), now);
    assert HasUser(db.users, user.id);
    AdmittedCreateStaysWithinLimit(user, db.tasks, added);
    var next := AppendTaskRow(db.Snapshot(), added, now);
    db.tasks, db.clock := next.tasks, next.clock;
    r := Success(added);
  }

  // ---------------------------------------------------------------------------
  // Update

  /** `task_update.model_dump(exclude_unset=True)`: the sent fields, in declaration order. */
  function ModelDump(patch: TaskUpdate): (fields: seq<FieldValue>)
    ensures fields == [] <==> patch.title.Unset? && patch.details.Unset? && patch.priority.Unset?
    ensures |fields| <= 3
  {
    (if patch.title.Set? then [TitleValue(patch.title.value)] else [])
    + (if patch.details.Set? then [DetailsValue(patch.details.value)] else [])
    + (if patch.priority.Set? then [PriorityValue(patch.priority.value)] else [])
  }

  /** `after` is `before` with exactly the sent fields of `patch` set: the
      other columns, the id, the owner and the timestamps are untouched. */
  predicate PatchApplied(before: Task, after: Task, patch: TaskUpdate)
    requires patch.title != Set(None)
  {
    && after.id == before.id && after.userId == before.userId
    && after.createdAt == before.createdAt && after.updatedAt == before.updatedAt
    && after.title == (if patch.title.Set? then patch.title.value.value else before.title)
    && after.details == (if patch.details.Set? then patch.details.value else before.details)
    && after.priority == (if patch.priority.Set? then patch.priority.value else before.priority)
  }

  /** The loop at the heart of update: apply every sent field to the task.
      Exactly the sent fields change; id, owner and timestamps do not. */
  method ApplyUpdate(task: Task, patch: TaskUpdate) returns (t: Task)
    requires patch.title != Set(None)
    ensures PatchApplied(task, t, patch)
  {
    var updateData := ModelDump(patch);
    t := task;
    var i := 0;
    while i < |updateData|
      invariant 0 <= i <= |updateData|
      invariant t.id == task.id && t.userId == task.userId
      invariant t.createdAt == task.createdAt && t.updatedAt == task.updatedAt
      invariant t.title == (if patch.title.Set? && TitleValue(patch.title.value) in updateData[..i]
                            then patch.title.value.value else task.title)
      invariant t.details == (if patch.details.Set? && DetailsValue(patch.details.value) in updateData[..i]
                              then patch.details.value else task.details)
      invariant t.priority == (if patch.priority.Set? && PriorityValue(patch.priority.value) in updateData[..i]
                               then patch.priority.value else task.priority)
    {
      var field := updateData[i];
      assert updateData[..i + 1] == updateData[..i] + [field];
      match field {
        case TitleValue(title) => t := t.(title := title.value);
        case DetailsValue(details) => t := t.(details := details);
        case PriorityValue(priority) => t := t.(priority := priority);
      }
      i := i + 1;
    }
    assert updateData[..i] == updateData;
  }

  /** The commit of an update: SQLAlchemy writes (and `onupdate` stamps
      `updated_at`) only when some column really changed. */
  predicate ContentChanged(before: Task, after: Task) {
    before.title != after.title || before.details != after.details || before.priority != after.priority
  }

  /** `PUT /tasks/{task_id}`. Checked in this order: the caller owns the task
      (404 otherwise); a sent title is not used by another of the caller's
      tasks (resubmitting the task's own title is fine); something was sent.
      Then exactly the sent fields are set and, if that changed the row,
      `updated_at` moves to the commit's tick, strictly later than before.
      The row is committed before the response is validated, so a `null`
      priority is stored and the caller still gets a 500. */
  method UpdateTask(db: Database, crypto: Crypto, token: string, taskId: Id, patch: TaskUpdate)
    returns (r: Result<Task, ApiError>)
    requires db.Valid()
    modifies db
    ensures db.Valid()
    ensures db.users == old(db.users)
    ensures GetCurrentUser(crypto, token, old(db.users)).Failure? ==>
      r == Failure(CredentialsInvalid) && db.Snapshot() == old(db.Snapshot())
    ensures GetCurrentUser(crypto, token, old(db.users)).Success? ==>
      var user := GetCurrentUser(crypto, token, old(db.users)).value;
      var owned := OwnsTask(old(db.tasks), taskId, user.id);
      var clash := patch.title.Set? && patch.title.value.Some? &&
                   OtherOwnsTitle(old(db.tasks), patch.title.value.value, user.id, taskId);
      var empty := ModelDump(patch) == [];
      var written := owned && !clash && !empty && patch.title != Set(None);
      && (!owned ==> r == Failure(TaskNotFound) && db.Snapshot() == old(db.Snapshot()))
      && (owned && clash ==> r == Failure(DuplicateTitle) && db.Snapshot() == old(db.Snapshot()))
      && (owned && !clash && empty ==> r == Failure(NoUpdateData) && db.Snapshot() == old(db.Snapshot()))
      && (owned && !clash && !empty && patch.title == Set(None) ==>
            r == Failure(IntegrityError) && db.Snapshot() == old(db.Snapshot()))
      && (written <==> r.Success? || r == Failure(ResponseInvalid))
      && (written ==>
            var i := FindFirst(old(db.tasks), OwnedTaskIs(taskId, user.id)).value;
            var before := old(db.tasks)[i];
            && before.id == taskId && before.userId == Some(user.id)
            && |db.tasks| == |old(db.tasks)|
            && (var after := db.tasks[i];
                && db.tasks == old(db.tasks)[i := after]
                && (r.Success? <==> FitsTaskResponse(after))
                && (r.Success? ==> r.value == after)
                && (patch.priority == Set(None) ==> r == Failure(ResponseInvalid))
                && (ContentChanged(before, after) ==>
                      && PatchApplied(before, after.(updatedAt := before.updatedAt), patch)
                      && db.clock == old(db.clock) + 1 && after.updatedAt == Some(db.clock)
                      && (before.updatedAt.Some? ==> before.updatedAt.value < db.clock)
                      && before.createdAt < db.clock)
                && (!ContentChanged(before, after) ==>
                      PatchApplied(before, after, patch) && after == before && db.clock == old(db.clock))))
  {
    var g := GetCurrentUser(crypto, token, db.users);
    if g.Failure? {
      return Failure(g.error);
    }
    var user := g.value;
    var found := FindFirst(db.tasks, OwnedTaskIs(taskId, user.id));
    if found.None? {
      FindFirstNone(db.tasks, OwnedTaskIs(taskId, user.id));
      return Failure(TaskNotFound);
    }
    var i := found.value;
    var task := db.tasks[i];
    if patch.title.Set? && patch.title.value.Some? {
      var existing := FindFirst(db.tasks, OtherOwnedTitleIs(patch.title.value.value, user.id, taskId));
      if existing.Some? {
        assert db.tasks[existing.value] in db.tasks;
        return Failure(DuplicateTitle);
      }
      FindFirstNone(db.tasks, OtherOwnedTitleIs(patch.title.value.value, user.id, taskId));
    }
    var updateData := ModelDump(patch);
    if updateData == [] {
      return Failure(NoUpdateData);
    }
    if patch.title == Set(None) {
      // setattr(task, "title", None); db.commit() violates NOT NULL and is rolled back
      return Failure(IntegrityError);
    }
    var updated := ApplyUpdate(task, patch);
    if ContentChanged(task, updated) {
      // db.commit(): the UPDATE fires `onupdate` and stamps `updated_at`
      var now := db.clock + 1;
      assert task in db.tasks;
      updated := updated.(updatedAt := Some(now));
      var next := ReplaceTaskRow(db.Snapshot(), i, updated, now);
      db.tasks, db.clock := next.tasks, next.clock;
    } else {
      assert db.tasks == db.tasks[i := updated];
    }
    // db.refresh(task); return task: validated against `TaskResponse`
    if FitsTaskResponse(updated) {
      r := Success(updated);
    } else {
      r := Failure(ResponseInvalid);
    }
  }

  // ---------------------------------------------------------------------------
  // Delete

  /** `DELETE /tasks/{task_id}`: removes exactly the caller's task with that id
      (404 otherwise); afterwards a `GET` of it is a 404. */
  method DeleteTask(db: Database, crypto: Crypto, token: string, taskId: Id)
    returns (r: Result<(), ApiError>)
    requires db.Valid()
    modifies db
    ensures db.Valid()
    ensures db.users == old(db.users) && db.clock == old(db.clock)
    ensures GetCurrentUser(crypto, token, old(db.users)).Failure? ==>
      r == Failure(CredentialsInvalid) && db.tasks == old(db.tasks)
    ensures GetCurrentUser(crypto, token, old(db.users)).Success? ==>
      var user := GetCurrentUser(crypto, token, old(db.users)).value;
      && (!OwnsTask(old(db.tasks), taskId, user.id) ==> r == Failure(TaskNotFound) && db.tasks == old(db.tasks))
      && (r.Success? <==> OwnsTask(old(db.tasks), taskId, user.id))
      && (r.Success? ==>
            && |db.tasks| == |old(db.tasks)| - 1
            && (forall t :: t in db.tasks <==> t in old(db.tasks) && t.id != taskId)
            && GetTaskById(crypto, token, db.Snapshot(), taskId) == Failure(TaskNotFound))
  {
    var g := GetCurrentUser(crypto, token, db.users);
    if g.Failure? {
      return Failure(g.error);
    }
    var user := g.value;
    var found := FindFirst(db.tasks, OwnedTaskIs(taskId, user.id));
    if found.None? {
      FindFirstNone(db.tasks, OwnedTaskIs(taskId, user.id));
      return Failure(TaskNotFound);
    }
    var next := RemoveTaskRow(db.Snapshot(), found.value);
    db.tasks := next.tasks;
    assert !OwnsTask(db.tasks, taskId, user.id);
    r := Success(());
  }
}
