/** The desktop client's task logic (core/logic.py): `MomentumLogic` works on
    the same `tasks` table as the API, through a session it holds, and answers
    every command with a `(flag, message)` pair. The flag does not mean the
    same thing everywhere: `save_task` and `delete_task` report an error with
    `True`, `update_task` reports success with `True`. */
module DesktopLogic {
  import opened Common
  import opened Models

  /** The `dict` handed to `save_task`/`update_task`, reduced to the three
      columns it names. The outer `Option` is whether the key is present, the
      inner one a `None` value. */
  datatype TaskDict = TaskDict(
    title: Option<Option<string>>,
    details: Option<Option<string>>,
    priority: Option<Option<int>>)

  /** `not d`: a dict with no keys. */
  predicate IsEmpty(d: TaskDict) {
    d.title.None? && d.details.None? && d.priority.None?
  }

  /** The `(bool, str)` tuple the commands return. */
  datatype Reply = Reply(flag: bool, message: string)

  /** A command either returns its tuple or lets a `KeyError` escape for a
      missing key it indexes outside its `try`. */
  datatype Outcome = Returned(reply: Reply) | KeyErrorRaised(key: string)

  function TitleIs(title: string): Task -> bool { (t: Task) => t.title == title }
  function TaskIdIsNot(id: Id): Task -> bool { (t: Task) => t.id != id }

  /** `query(Task).filter(Task.title == title).first()` finds a row. Comparing
      with `None` becomes `IS NULL`, which no row satisfies (the column is NOT NULL). */
  predicate TitleTaken(tasks: seq<Task>, title: Option<string>) {
    title.Some? && exists t :: t in tasks && t.title == title.value
  }

  predicate TaskIdTaken(tasks: seq<Task>, id: Id) {
    exists t :: t in tasks && t.id == id
  }

  /** `update_task` goes on to write unless the sent title equals the stored
      one and (a `details` key is missing, or) the sent details equal the stored ones. */
  predicate WouldWrite(t: Task, d: TaskDict) {
    d.title.Some? && (d.title.value != Some(t.title) || (d.details.Some? && d.details.value != t.details))
  }

  /** The row after `query(...).update(d)`: every key present in `d` is written,
      and the `onupdate` stamp is set to the commit's tick. */
  function Patched(t: Task, d: TaskDict, now: nat): (p: Task)
    requires d.title.Some? && d.title.value.Some?
    ensures p.id == t.id && p.userId == t.userId && p.createdAt == t.createdAt
    ensures p.title == d.title.value.value
    ensures d.details.Some? ==> p.details == d.details.value
    ensures d.details.None? ==> p.details == t.details
    ensures d.priority.Some? ==> p.priority == d.priority.value
    ensures d.priority.None? ==> p.priority == t.priority
    ensures p.updatedAt == Some(now)
  {
    t.(title := d.title.value.value,
       details := if d.details.Some? then d.details.value else t.details,
       priority := if d.priority.Some? then d.priority.value else t.priority,
       updatedAt := Some(now))
  }

  const InvalidOperation: string := "Invalid Operation: Task ID and Task Info Cannot Be Empty"

  /** The messages `update_task` can return are pairwise different, and differ
      from the two messages of its unreachable checks. */
  lemma UpdateMessagesDiffer(taskId: Id)
    ensures "Task Updated Successfully" != InvalidOperation
    ensures "Task Updated Successfully" != "No Task Found By Id: " + taskId
    ensures "Task Updated Successfully" != "Failed to Update Task"
    ensures "Task Updated Successfully" != "No Changes Made"
    ensures "Task Id Cannot Be Empty" != InvalidOperation
    ensures "Task Id Cannot Be Empty" != "No Task Found By Id: " + taskId
    ensures "Task Id Cannot Be Empty" != "Task Updated Successfully"
    ensures "Task Object Cannot Be Empty" != InvalidOperation
    ensures "Task Object Cannot Be Empty" != "No Task Found By Id: " + taskId
    ensures "Task Object Cannot Be Empty" != "Task Updated Successfully"
  {
    assert "Task Updated Successfully"[5] == 'U';
    assert "Task Id Cannot Be Empty"[5] == 'I';
    assert "Task Object Cannot Be Empty"[5] == 'O';
    assert ("No Task Found By Id: " + taskId)[0] == 'N';
  }

  /** Rewriting the first row with a given id, keeping its id, leaves it the
      first row with that id. */
  lemma RewrittenRowStaysFirst(tasks: seq<Task>, i: nat, p: Task, id: Id)
    requires FindFirst(tasks, TaskIdIs(id)) == Some(i)
    requires p.id == id
    ensures FindFirst(tasks[i := p], TaskIdIs(id)) == Some(i)
  {
    var after := tasks[i := p];
    assert TaskIdIs(id)(after[i]);
    assert forall j :: 0 <= j < i ==> after[j] == tasks[j];
  }

  /** `MomentumLogic(db)`. `commitFails`/`queryFails` stand for the session
      raising inside a command's `try`; the command then rolls back. `newId`
      is the uuid4 the id column draws for a new row. */
  class MomentumLogic {
    const db: Database

    constructor (db: Database)
      ensures this.db == db
    {
      this.db := db;
    }

    /** `save_task`. Checked in order: an empty dict; the `title` key; a task
        of ANY owner already holding the title; the `details` and `priority`
        keys; then the insert, which fails for a `None` title (NOT NULL), an
        id already in use, or a failing commit. A saved task has no owner, and
        a `None` priority is left to the column default. */
    method SaveTask(newTask: TaskDict, newId: Id, commitFails: bool) returns (r: Outcome)
      requires db.Valid()
      modifies db
      ensures db.Valid()
      ensures r != Returned(Reply(false, "Task Saved Successfully")) ==> db.Snapshot() == old(db.Snapshot())
      ensures IsEmpty(newTask) ==> r == Returned(Reply(true, "Task Object Cannot Be Empty"))
      ensures !IsEmpty(newTask) && newTask.title.None? ==> r == KeyErrorRaised("title")
      ensures newTask.title.Some? ==>
        var title := newTask.title.value;
        && (TitleTaken(old(db.tasks), title) ==> r == Returned(Reply(true, "Title Already Exists")))
        && (!TitleTaken(old(db.tasks), title) && newTask.details.None? ==> r == KeyErrorRaised("details"))
        && (!TitleTaken(old(db.tasks), title) && newTask.details.Some? && newTask.priority.None? ==>
              r == KeyErrorRaised("priority"))
        && (!TitleTaken(old(db.tasks), title) && newTask.details.Some? && newTask.priority.Some? ==>
              var fails := commitFails || title.None? || TaskIdTaken(old(db.tasks), newId);
              && (fails ==> r == Returned(Reply(true, "Failed to Save Task")))
              && (!fails ==>
                    && r == Returned(Reply(false, "Task Saved Successfully"))
                    && db.tasks == old(db.tasks) + [NewTask(newId, title.value, newTask.details.value,
                                                            newTask.priority.value, None, old(db.clock) + 1)]
                    && db.users == old(db.users)
                    && db.clock == old(db.clock) + 1))
      // saving the same title again is refused
      ensures r == Returned(Reply(false, "Task Saved Successfully")) ==> TitleTaken(db.tasks, newTask.title.value)
    {
      if IsEmpty(newTask) {
        return Returned(Reply(true, "Task Object Cannot Be Empty"));
      }
      if newTask.title.None? {
        return KeyErrorRaised("title");
      }
      var title := newTask.title.value;
      var foundTitle := if title.Some? then FindFirst(db.tasks, TitleIs(title.value)) else None;
      if foundTitle.Some? {
        assert db.tasks[foundTitle.value] in db.tasks;
        return Returned(Reply(true, "Title Already Exists"));
      }
      if title.Some? {
        FindFirstNone(db.tasks, TitleIs(title.value));
      }
      if newTask.details.None? {
        return KeyErrorRaised("details");
      }
      if newTask.priority.None? {
        return KeyErrorRaised("priority");
      }
      // try: db.add(task_to_save); db.commit()
      var clash := FindFirst(db.tasks, TaskIdIs(newId));
      if clash.Some? {
        assert db.tasks[clash.value] in db.tasks;
      } else {
        FindFirstNone(db.tasks, TaskIdIs(newId));
      }
      if commitFails || title.None? || clash.Some? {
        return Returned(Reply(true, "Failed to Save Task"));
      }
      var now := db.clock + 1;
      var added := NewTask(newId, title.value, newTask.details.value, newTask.priority.value, None, now);
      var next := AppendTaskRow(db.Snapshot(), added, now);
      db.tasks, db.clock := next.tasks, next.clock;
      assert db.tasks[|db.tasks| - 1] == added;
      r := Returned(Reply(false, "Task Saved Successfully"));
    }

    /** `update_task`. An empty id or empty dict is refused with one combined
        message, so the two separate messages after it can never be returned.
        An unknown id is reported with the id. Reading `title`, then (only when
        the title is unchanged) `details`, may raise `KeyError`. Equal title and
        details mean "No Changes Made", whatever the priority says. Otherwise
        the row is rewritten with every sent key; a `None` title (NOT NULL) or a
        failing commit rolls back. */
    method UpdateTask(taskId: Id, updatedTask: TaskDict, commitFails: bool) returns (r: Outcome)
      requires db.Valid()
      modifies db
      ensures db.Valid()
      ensures r != Returned(Reply(true, "Task Updated Successfully")) ==> db.Snapshot() == old(db.Snapshot())
      ensures r != Returned(Reply(true, "Task Id Cannot Be Empty")) && r != Returned(Reply(true, "Task Object Cannot Be Empty"))
      ensures taskId == "" || IsEmpty(updatedTask) ==> r == Returned(Reply(true, InvalidOperation))
      ensures taskId != "" && !IsEmpty(updatedTask) ==>
        var found := FindFirst(old(db.tasks), TaskIdIs(taskId));
        && (found.None? ==> r == Returned(Reply(true, "No Task Found By Id: " + taskId)))
        && (found.Some? ==>
              var t := old(db.tasks)[found.value];
              && (updatedTask.title.None? ==> r == KeyErrorRaised("title"))
              && (updatedTask.title == Some(Some(t.title)) && updatedTask.details.None? ==> r == KeyErrorRaised("details"))
              && (updatedTask.title == Some(Some(t.title)) && updatedTask.details == Some(t.details) ==>
                    r == Returned(Reply(false, "No Changes Made")))
              && (WouldWrite(t, updatedTask) && (commitFails || updatedTask.title.value.None?) ==>
                    r == Returned(Reply(false, "Failed to Update Task")))
              && (WouldWrite(t, updatedTask) && !commitFails && updatedTask.title.value.Some? ==>
                    && r == Returned(Reply(true, "Task Updated Successfully"))
                    && db.tasks == old(db.tasks)[found.value := Patched(t, updatedTask, old(db.clock) + 1)]
                    && db.users == old(db.users)
                    && db.clock == old(db.clock) + 1))
      ensures r == Returned(Reply(true, "Task Updated Successfully")) ==>
        var found := GetTaskById(taskId, false);
        && found.Some?
        && updatedTask.title == Some(Some(found.value.title))
        && (updatedTask.details.Some? ==> found.value.details == updatedTask.details.value)
        && (updatedTask.priority.Some? ==> found.value.priority == updatedTask.priority.value)
    {
      UpdateMessagesDiffer(taskId);
      if taskId == "" || IsEmpty(updatedTask) {
        return Returned(Reply(true, InvalidOperation));
      }
      // the separate checks for an empty id and an empty dict cannot be reached
      var foundTask := FindFirst(db.tasks, TaskIdIs(taskId));
      if foundTask.None? {
        return Returned(Reply(true, "No Task Found By Id: " + taskId));
      }
      var i := foundTask.value;
      var t := db.tasks[i];
      if updatedTask.title.None? {
        return KeyErrorRaised("title");
      }
      if updatedTask.title.value == Some(t.title) {
        if updatedTask.details.None? {
          return KeyErrorRaised("details");
        }
        if updatedTask.details.value == t.details {
          return Returned(Reply(false, "No Changes Made"));
        }
      }
      // try: query(Task).filter(Task.id == task_id).update(updated_task); db.commit()
      if commitFails || updatedTask.title.value.None? {
        return Returned(Reply(false, "Failed to Update Task"));
      }
      var now := db.clock + 1;
      var patched := Patched(t, updatedTask, now);
      var next := ReplaceTaskRow(db.Snapshot(), i, patched, now);
      db.tasks, db.clock := next.tasks, next.clock;
      RewrittenRowStaysFirst(old(db.tasks), i, patched, taskId);
      r := Returned(Reply(true, "Task Updated Successfully"));
    }

    /** `delete_task`: every row with that id goes, and the answer is the same
        whether or not one existed. Only a failing commit is reported. */
    method DeleteTask(taskId: Id, commitFails: bool) returns (r: Outcome)
      requires db.Valid()
      modifies db
      ensures db.Valid()
      ensures commitFails ==> r == Returned(Reply(true, "Failed to Delete Task")) && db.Snapshot() == old(db.Snapshot())
      ensures !commitFails ==>
        && r == Returned(Reply(false, "Task Deleted Successfully"))
        && db.users == old(db.users)
        && db.clock == old(db.clock)
        && (forall t :: t in db.tasks <==> t in old(db.tasks) && t.id != taskId)
      ensures !commitFails ==> GetTaskById(taskId, false).None?
    {
      if commitFails {
        return Returned(Reply(true, "Failed to Delete Task"));
      }
      var kept := Filter(db.tasks, TaskIdIsNot(taskId));
      FilterKeepsUniqueTaskIds(db.tasks, TaskIdIsNot(taskId));
      db.tasks := kept;
      r := Returned(Reply(false, "Task Deleted Successfully"));
    }

    /** `get_all_tasks`: every stored task, of every owner and of none (the
        desktop does not scope by user), in row order; `None` when the query fails. */
    function GetAllTasks(queryFails: bool): (r: Option<seq<Task>>)
      reads db
      ensures r.None? <==> queryFails
      ensures r.Some? ==> |r.value| == |db.tasks| && forall t :: t in r.value <==> t in db.tasks
    {
      if queryFails then None else Some(db.tasks)
    }

    /** `get_task_by_id`: the row with that id. `None` stands both for "no
        such task" and for a failed query; the caller cannot tell them apart. */
    function GetTaskById(taskId: Id, queryFails: bool): (r: Option<Task>)
      reads db
      ensures queryFails ==> r.None?
      ensures r.Some? ==> r.value in db.tasks && r.value.id == taskId
      ensures !queryFails ==> (r.Some? <==> TaskIdTaken(db.tasks, taskId))
    {
      if queryFails then None
      else
        match FindFirst(db.tasks, TaskIdIs(taskId))
        case None =>
          FindFirstNone(db.tasks, TaskIdIs(taskId));
          None
        case Some(i) => Some(db.tasks[i])
    }
  }
}
