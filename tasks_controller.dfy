/** The task endpoints: each one is a query or an update of the task
    collection, scoped to the calling user. */
module TasksController {
  import opened Wrappers
  import opened Store

  /** `value || null` for an optional string: missing, null and the empty
      string all become null. */
  function OrNull(v: Option<string>): (r: Option<string>)
    ensures r.None? <==> v.None? || v.value == ""
    ensures r.Some? ==> r == v
  {
    if v.Some? && v.value != "" then v else None
  }

  /** createTask: a new document with a fresh id, the caller as its user,
      the current instant as its date, not completed, and no project or
      description unless one was sent; answered with 201 and the document,
      which the caller can then find by its id. */
  method CreateTask(db: Database, title: string, description: Option<string>, projectId: Option<nat>,
                    user: nat, now: int) returns (reply: Reply<TaskDoc>)
    requires db.Valid()
    modifies db
    ensures db.Valid()
    ensures reply.status == 201 && reply.message.None? && reply.body.Some?
    ensures reply.body.value == TaskDoc(old(db.nextId), title, OrNull(description), now, false, user, projectId)
    ensures db.tasks == old(db.tasks) + [reply.body.value]
    ensures db.projects == old(db.projects) && db.nextId == old(db.nextId) + 1
    ensures Lookup(db.tasks, reply.body.value.id, user) == Some(|old(db.tasks)|)
  {
    var task := TaskDoc(db.nextId, title, OrNull(description), now, false, user, projectId);
    var before := db.tasks;
    var after := before + [task];
    assert forall j :: 0 <= j < |before| ==> after[j] == before[j] && !Identifies(after[j], task.id, user);
    assert Identifies(after[|before|], task.id, user);
    assert Lookup(after, task.id, user) == Some(|before|);
    db.tasks := after;
    db.nextId := db.nextId + 1;
    reply := Reply(201, None, Some(task));
  }

  /** getUserTasks: every task of the caller and no other, newest first. */
  function GetUserTasks(db: Database, user: nat): (r: seq<TaskDoc>)
    reads db
    ensures forall t :: t in r <==> t in db.tasks && t.user == user
    ensures forall t :: multiset(r)[t] == if t.user == user then multiset(db.tasks)[t] else 0
    ensures Descending(r, TaskDate)
  {
    SortDesc(OwnedBy(db.tasks, TaskUser, user), TaskDate)
  }

  /** `{ isCompleted: !task.isCompleted }`: only the completion flag
      changes, and it is negated. */
  function Toggle(t: TaskDoc): (r: TaskDoc)
    ensures r.isCompleted == !t.isCompleted
    ensures r.(isCompleted := t.isCompleted) == t
  {
    t.(isCompleted := !t.isCompleted)
  }

  /** The collection after toggleTask: the selected task has its completion
      negated; every task the filter does not select is as it was. */
  function ToggledTasks(tasks: seq<TaskDoc>, id: nat, user: nat): (r: seq<TaskDoc>)
    ensures |r| == |tasks|
    ensures forall i :: 0 <= i < |tasks| ==> r[i].id == tasks[i].id && r[i].user == tasks[i].user
    ensures forall i :: 0 <= i < |tasks| && !Identifies(tasks[i], id, user) ==> r[i] == tasks[i]
    ensures UniqueIds(tasks) ==>
      forall i :: 0 <= i < |tasks| && Identifies(tasks[i], id, user) ==> r[i] == Toggle(tasks[i])
    ensures Lookup(tasks, id, user).None? ==> r == tasks
  {
    LookupIsOnly(tasks, id, user);
    match Lookup(tasks, id, user)
    case None => tasks
    case Some(i) => tasks[i := Toggle(tasks[i])]
  }

  /** The search only looks at ids and users. */
  lemma {:induction false} LookupSameKeys(a: seq<TaskDoc>, b: seq<TaskDoc>, id: nat, user: nat)
    requires |a| == |b|
    requires forall i :: 0 <= i < |a| ==> a[i].id == b[i].id && a[i].user == b[i].user
    ensures Lookup(a, id, user) == Lookup(b, id, user)
    decreases |a|
  {
    if a != [] {
      LookupSameKeys(a[1..], b[1..], id, user);
    }
  }

  /** Toggling the same task twice restores the collection. */
  lemma ToggleTwice(tasks: seq<TaskDoc>, id: nat, user: nat)
    ensures ToggledTasks(ToggledTasks(tasks, id, user), id, user) == tasks
  {
    var once := ToggledTasks(tasks, id, user);
    LookupSameKeys(tasks, once, id, user);
  }

  /** toggleTask: with a task of this id and user, it is toggled and sent
      back as updated; without one the answer is 404 and nothing changes. */
  method ToggleTask(db: Database, id: nat, user: nat) returns (reply: Reply<TaskDoc>)
    requires db.Valid()
    modifies db
    ensures db.Valid()
    ensures db.tasks == ToggledTasks(old(db.tasks), id, user)
    ensures db.projects == old(db.projects) && db.nextId == old(db.nextId)
    ensures Lookup(old(db.tasks), id, user).None? ==> reply == Reply(404, Some("Task not found"), None)
    ensures Lookup(old(db.tasks), id, user).Some? ==>
      reply == Reply(200, None, Some(db.tasks[Lookup(old(db.tasks), id, user).value]))
  {
    var index := db.FindTask(id, user);
    if index.None? {
      return Reply(404, Some("Task not found"), None);
    }
    var i := index.value;
    db.tasks := db.tasks[i := Toggle(db.tasks[i])];
    reply := Reply(200, None, Some(db.tasks[i]));
  }

  /** The collection after deleteTask: the selected task is gone and every
      other task is kept; with unique ids no task of that id and user is
      left, so deleting again finds nothing. */
  function DeletedTasks(tasks: seq<TaskDoc>, id: nat, user: nat): (r: seq<TaskDoc>)
    ensures Lookup(tasks, id, user).None? ==> r == tasks
    ensures Lookup(tasks, id, user).Some? ==> |r| == |tasks| - 1
    ensures forall t :: t in r ==> t in tasks
    ensures forall t :: t in tasks && !Identifies(t, id, user) ==> t in r
    ensures UniqueIds(tasks) ==> UniqueIds(r) && Lookup(r, id, user).None?
  {
    match Lookup(tasks, id, user)
    case None => tasks
    case Some(i) =>
      var r := tasks[..i] + tasks[i + 1..];
      assert forall k :: 0 <= k < i ==> r[k] == tasks[k];
      assert forall k :: i <= k < |r| ==> r[k] == tasks[k + 1];
      assert forall t :: t in tasks && !Identifies(t, id, user) ==> t in r by {
        forall t | t in tasks && !Identifies(t, id, user) ensures t in r {
          var k :| 0 <= k < |tasks| && tasks[k] == t;
          if k < i { assert r[k] == t; } else { assert r[k - 1] == t; }
        }
      }
      r
  }

  /** deleteTask: with a task of this id and user it is removed and sent
      back with a confirmation; without one the answer is 404 and nothing
      changes. */
  method DeleteTask(db: Database, id: nat, user: nat) returns (reply: Reply<TaskDoc>)
    requires db.Valid()
    modifies db
    ensures db.Valid()
    ensures db.tasks == DeletedTasks(old(db.tasks), id, user)
    ensures db.projects == old(db.projects) && db.nextId == old(db.nextId)
    ensures Lookup(old(db.tasks), id, user).None? ==> reply == Reply(404, Some("Task not found"), None)
    ensures Lookup(old(db.tasks), id, user).Some? ==>
      reply == Reply(200, Some("Task deleted successfully"), Some(old(db.tasks)[Lookup(old(db.tasks), id, user).value]))
  {
    var index := db.FindTask(id, user);
    if index.None? {
      return Reply(404, Some("Task not found"), None);
    }
    var i := index.value;
    var task := db.tasks[i];
    db.tasks := DeletedTasks(db.tasks, id, user);
    reply := Reply(200, Some("Task deleted successfully"), Some(task));
  }

  /** deleteAllTasks: the caller's completed tasks, and only those, are
      removed; when there were none the answer is 404. */
  method DeleteAllTasks(db: Database, user: nat) returns (reply: Reply<nat>)
    requires db.Valid()
    modifies db
    ensures db.Valid()
    ensures db.tasks == Remaining(old(db.tasks), user, None)
    ensures db.projects == old(db.projects) && db.nextId == old(db.nextId)
    ensures NoneSelected(old(db.tasks), user, None) ==>
      reply == Reply(404, Some("No completed tasks!"), None) && db.tasks == old(db.tasks)
    ensures !NoneSelected(old(db.tasks), user, None) ==>
      reply == Reply(200, Some("Tasks completed deleted successfully"), None)
  {
    var before := db.tasks;
    var deletedCount := db.DeleteMany(user, None);
    RemainingLength(before, user, None);
    if deletedCount == 0 {
      RemainingUnselected(before, user, None);
      return Reply(404, Some("No completed tasks!"), None);
    }
    reply := Reply(200, Some("Tasks completed deleted successfully"), None);
  }

  /** deleteCompletedTasksForProject: a project the caller does not own is
      404 and nothing is deleted; otherwise the caller's completed tasks in
      that project, and only those, are removed, their number is reported,
      and when there were none the answer is 404. */
  method DeleteCompletedTasksForProject(db: Database, projectId: nat, user: nat) returns (reply: Reply<nat>)
    requires db.Valid()
    modifies db
    ensures db.Valid()
    ensures db.projects == old(db.projects) && db.nextId == old(db.nextId)
    ensures !HasProject(old(db.projects), projectId, user) ==>
      reply == Reply(404, Some("Project not found"), None) && db.tasks == old(db.tasks)
    ensures HasProject(old(db.projects), projectId, user) ==>
      db.tasks == Remaining(old(db.tasks), user, Some(projectId))
    ensures HasProject(old(db.projects), projectId, user) && NoneSelected(old(db.tasks), user, Some(projectId)) ==>
      reply == Reply(404, Some("No completed tasks found for this project!"), None) && db.tasks == old(db.tasks)
    ensures HasProject(old(db.projects), projectId, user) && !NoneSelected(old(db.tasks), user, Some(projectId)) ==>
      && reply == Reply(200, Some("Completed tasks deleted successfully"), Some(|old(db.tasks)| - |db.tasks|))
      && reply.body.value > 0
  {
    var owned := db.FindProject(projectId, user);
    if !owned {
      return Reply(404, Some("Project not found"), None);
    }
    var before := db.tasks;
    var deletedCount := db.DeleteMany(user, Some(projectId));
    RemainingLength(before, user, Some(projectId));
    if deletedCount == 0 {
      RemainingUnselected(before, user, Some(projectId));
      return Reply(404, Some("No completed tasks found for this project!"), None);
    }
    reply := Reply(200, Some("Completed tasks deleted successfully"), Some(deletedCount));
  }
}
