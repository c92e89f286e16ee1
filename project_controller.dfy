/** The project endpoints: creating a project for the caller, listing the
    caller's projects, and counting them. */
module ProjectController {
  import opened Wrappers
  import opened Store

  /** The colour the schema gives a project created without one. */
  const DefaultColor: string := "blue"

  const Unauthorized: string := "Unauthorized: User not found"

  /** createProject: a new document with a fresh id, the sent name, the
      caller as owner, the sent colour or blue, and the current instant as
      its creation time; answered with 201 and the document, which is then
      among the caller's projects. */
  method CreateProject(db: Database, name: string, color: Option<string>, owner: nat, now: int)
    returns (reply: Reply<ProjectDoc>)
    requires db.Valid()
    modifies db
    ensures db.Valid()
    ensures reply.status == 201 && reply.message.None? && reply.body.Some?
    ensures reply.body.value == ProjectDoc(old(db.nextId), name, owner, color.GetOr(DefaultColor), now)
    ensures db.projects == old(db.projects) + [reply.body.value]
    ensures db.tasks == old(db.tasks) && db.nextId == old(db.nextId) + 1
    ensures HasProject(db.projects, reply.body.value.id, owner)
  {
    var project := ProjectDoc(db.nextId, name, owner, color.GetOr(DefaultColor), now);
    var after := db.projects + [project];
    assert after[|db.projects|] == project;
    db.projects := after;
    db.nextId := db.nextId + 1;
    reply := Reply(201, None, Some(project));
  }

  /** getUserProjects: without a user, 401; otherwise every project the
      caller owns and no other, newest first. */
  function GetUserProjects(db: Database, user: Option<nat>): (r: Reply<seq<ProjectDoc>>)
    reads db
    ensures user.None? ==> r == Reply(401, Some(Unauthorized), None)
    ensures user.Some? ==> r.status == 200 && r.message.None? && r.body.Some?
    ensures user.Some? ==> forall p :: p in r.body.value <==> p in db.projects && p.owner == user.value
    ensures user.Some? ==>
      forall p :: multiset(r.body.value)[p] == if p.owner == user.value then multiset(db.projects)[p] else 0
    ensures user.Some? ==> Descending(r.body.value, ProjectCreatedAt)
  {
    if user.None? then Reply(401, Some(Unauthorized), None)
    else Reply(200, None, Some(SortDesc(OwnedBy(db.projects, ProjectOwner, user.value), ProjectCreatedAt)))
  }

  /** getProjectCount: without a user, 401; otherwise the tally of the
      caller's projects, which is the length of the list getUserProjects
      answers with. */
  function GetProjectCount(db: Database, user: Option<nat>): (r: Reply<nat>)
    reads db
    ensures user.None? ==> r == Reply(401, Some(Unauthorized), None)
    ensures user.Some? ==> r.status == 200 && r.message.None?
    ensures user.Some? ==> r.body == Some(|GetUserProjects(db, user).body.value|)
  {
    if user.None? then Reply(401, Some(Unauthorized), None)
    else
      CountIsLength(db.projects, ProjectOwner, user.value);
      Reply(200, None, Some(CountOwnedBy(db.projects, ProjectOwner, user.value)))
  }
}
