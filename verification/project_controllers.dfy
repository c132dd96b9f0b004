/** The project handlers: create, the paged list, "my projects", delete and update. */
module ProjectControllers {
  import opened Common
  import opened Strings
  import opened Collections
  import opened Models
  import opened Store
  import opened Pagination

  const UserNotFound := "User not found"
  const ProjectNotFound := "Project not found"
  const ProjectDeleted := "Project deleted successfully"
  const ProjectUpdated := "Project updated successfully"

  /** A body field the handler passes on as it is: an absent one reaches the schema as
      `undefined`, which `required` refuses like the empty string. */
  function Given(s: Option<string>): string {
    if s.None? then "" else s.value
  }

  /** `createProject`: the project belongs to the authenticated user (`createdBy`) and to
      that user's company as stored; a missing or blank name or description, or a user
      without a company, fails the schema and gets a 500. */
  method CreateProject(db: Db, userId: Id, name: Option<string>, description: Option<string>) returns (res: Reply)
    requires db.Valid()
    modifies db
    ensures db.Valid()
    ensures db.users == old(db.users) && db.companies == old(db.companies) && db.tasks == old(db.tasks)
    ensures res != Reply(201, NoMessage) ==> db.projects == old(db.projects) && db.nextId == old(db.nextId)
    ensures var k := Find(old(db.users), UserWithId(userId));
      && (k.None? ==> res == Reply(404, UserNotFound))
      && (k.Some? && old(db.users)[k.value].companyId.None? ==> res == Reply(500, InternalServerError))
      && (k.Some? && old(db.users)[k.value].companyId.Some? ==>
            var p := Project(old(db.nextId), Trim(Given(name)), Trim(Given(description)),
                             userId, old(db.users)[k.value].companyId.value);
            if ProjectOk(p) then res == Reply(201, NoMessage) && db.projects == old(db.projects) + [p]
            else res == Reply(500, InternalServerError))
    ensures res == Reply(201, NoMessage) ==>
      && |db.projects| == |old(db.projects)| + 1
      && var p := db.projects[|db.projects| - 1];
         p.createdBy == userId &&
         exists i :: 0 <= i < |db.users| && db.users[i].id == userId && db.users[i].companyId == Some(p.companyId)
  {
    var k := Find(db.users, UserWithId(userId));
    if k.None? {
      return Reply(404, UserNotFound);
    }
    var user := db.users[k.value];
    if user.companyId.None? {
      return Reply(500, InternalServerError);
    }
    var made := db.CreateProject(Given(name), Given(description), userId, user.companyId.value);
    if made.None? {
      return Reply(500, InternalServerError);
    }
    return Reply(201, NoMessage);
  }

  /** `getAllProjects`: one page of projects in natural order. */
  method GetAllProjects(db: Db, page: Option<nat>, limit: Option<nat>) returns (info: Page, items: seq<Project>)
    requires db.Valid()
    ensures info == Paginate(|db.projects|, page, limit)
    ensures |items| == (if info.skip >= |db.projects| then 0 else Min(info.limit, |db.projects| - info.skip))
    ensures forall j :: 0 <= j < |items| ==>
      info.skip + j < |db.projects| && items[j] == db.projects[info.skip + j]
  {
    info := Paginate(|db.projects|, page, limit);
    items := Window(db.projects, info.skip, info.limit);
  }

  function CreatedBy(id: Id): Project -> bool {
    (p: Project) => p.createdBy == id
  }

  /** `getProjectsByUser`: the projects the authenticated user created, in natural order;
      always a 200, with an empty list when there are none. */
  method GetProjectsByUser(db: Db, userId: Id) returns (res: Reply, projects: seq<Project>)
    requires db.Valid()
    ensures res == Reply(200, NoMessage)
    ensures projects == Filter(db.projects, CreatedBy(userId))
    ensures forall p :: p in projects <==> p in db.projects && p.createdBy == userId
  {
    projects := Filter(db.projects, CreatedBy(userId));
    return Reply(200, NoMessage), projects;
  }

  /** Whoever created a project finds it among their own. */
  lemma {:induction false} CreatorSeesOwnProject(projects: seq<Project>, k: nat)
    requires k < |projects|
    ensures projects[k] in Filter(projects, CreatedBy(projects[k].createdBy))
  {
    assert projects[k] in projects;
  }

  /** `deleteProject`: 404 when no project has the id, otherwise the project is removed;
      its tasks stay. */
  method DeleteProject(db: Db, projectId: Id) returns (res: Reply)
    requires db.Valid()
    modifies db
    ensures db.Valid()
    ensures db.users == old(db.users) && db.companies == old(db.companies) && db.tasks == old(db.tasks)
    ensures db.nextId == old(db.nextId)
    ensures var k := Find(old(db.projects), ProjectWithId(projectId));
      && (k.None? ==> res == Reply(404, ProjectNotFound) && db.projects == old(db.projects))
      && (k.Some? ==> res == Reply(200, ProjectDeleted) && db.projects == RemoveAt(old(db.projects), k.value))
  {
    var k := Find(db.projects, ProjectWithId(projectId));
    if k.None? {
      return Reply(404, ProjectNotFound);
    }
    db.DeleteProjectAt(k.value);
    return Reply(200, ProjectDeleted);
  }

  /** The record `updateProject` saves: `name || project.name` and the same for the
      description, each through the trim setter; owner, company and id stay. */
  function ApplyProjectUpdate(p: Project, name: Option<string>, description: Option<string>): (r: Project)
    ensures r.id == p.id && r.createdBy == p.createdBy && r.companyId == p.companyId
    ensures r.name == if Supplied(name) then Trim(name.value) else Trim(p.name)
    ensures r.description == if Supplied(description) then Trim(description.value) else Trim(p.description)
  {
    p.(name := Trim(if Supplied(name) then name.value else p.name),
       description := Trim(if Supplied(description) then description.value else p.description))
  }

  /** On a stored project, an update that supplies nothing changes nothing. */
  lemma EmptyProjectUpdateKeepsProject(p: Project)
    requires ProjectOk(p)
    ensures ApplyProjectUpdate(p, None, None) == p
  {
  }

  /** `updateProject`: 404 when no project has the id; a supplied name or description that
      trims to nothing fails the schema and gets a 500 with nothing saved. */
  method UpdateProject(db: Db, projectId: Id, name: Option<string>, description: Option<string>) returns (res: Reply)
    requires db.Valid()
    modifies db
    ensures db.Valid()
    ensures db.users == old(db.users) && db.companies == old(db.companies) && db.tasks == old(db.tasks)
    ensures db.nextId == old(db.nextId)
    ensures res != Reply(200, ProjectUpdated) ==> db.projects == old(db.projects)
    ensures var k := Find(old(db.projects), ProjectWithId(projectId));
      && (k.None? ==> res == Reply(404, ProjectNotFound))
      && (k.Some? ==>
            var after := ApplyProjectUpdate(old(db.projects)[k.value], name, description);
            if after.name != "" && after.description != ""
            then res == Reply(200, ProjectUpdated) && db.projects == old(db.projects)[k.value := after]
            else res == Reply(500, InternalServerError))
  {
    var k := Find(db.projects, ProjectWithId(projectId));
    if k.None? {
      return Reply(404, ProjectNotFound);
    }
    var after := ApplyProjectUpdate(db.projects[k.value], name, description);
    var saved := db.SaveProject(k.value, after);
    if !saved {
      return Reply(500, InternalServerError);
    }
    return Reply(200, ProjectUpdated);
  }
}
