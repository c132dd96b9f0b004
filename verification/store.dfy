/** The MongoDB collections the handlers read and write, held in memory in natural order.
    Each write runs the schema's setters and validation first; a write that fails
    validation (or the unique index on email) changes nothing. */
module Store {
  import opened Common
  import opened Strings
  import opened Collections
  import opened Models

  class Db {
    var users: seq<User>
    var companies: seq<Company>
    var projects: seq<Project>
    var tasks: seq<Task>
    /** The next ObjectId to hand out; every stored id is below it. */
    var nextId: Id

    ghost predicate Valid()
      reads this
    {
      && UsersOk(users, nextId)
      && CompaniesOk(companies, nextId)
      && ProjectsOk(projects, nextId)
      && TasksOk(tasks, nextId)
    }

    constructor ()
      ensures Valid()
      ensures users == [] && companies == [] && projects == [] && tasks == []
    {
      users, companies, projects, tasks := [], [], [], [];
      nextId := 0;
    }

    /** `User.create`: trims the name, lowercases the email, then validates; a blank name or
        an email already held is refused. */
    method CreateUser(userName: string, email: string, password: PasswordHash, role: int, companyId: Option<Id>)
      returns (made: Option<User>)
      requires Valid()
      modifies this
      ensures Valid()
      ensures companies == old(companies) && projects == old(projects) && tasks == old(tasks)
      ensures var u := User(old(nextId), Trim(userName), Lower(email), password, role, companyId, None);
        if UserOk(u) && (forall i :: 0 <= i < |old(users)| ==> old(users)[i].email != u.email)
        then made == Some(u) && users == old(users) + [u] && nextId == old(nextId) + 1
        else made.None? && users == old(users) && nextId == old(nextId)
    {
      var u := User(nextId, Trim(userName), Lower(email), password, role, companyId, None);
      var holder := Find(users, UserWithEmail(u.email));
      if !UserOk(u) || holder.Some? {
        return None;
      }
      UsersAppend(users, nextId, u);
      CompaniesGrow(companies, nextId, nextId + 1);
      ProjectsGrow(projects, nextId, nextId + 1);
      TasksGrow(tasks, nextId, nextId + 1);
      users, nextId := users + [u], nextId + 1;
      return Some(u);
    }

    /** `user.save()` of the record at `k` (same id): refused when it fails validation or
        another user holds its email. */
    method SaveUser(k: nat, u: User) returns (saved: bool)
      requires Valid() && k < |users| && u.id == users[k].id
      modifies this
      ensures Valid()
      ensures companies == old(companies) && projects == old(projects) && tasks == old(tasks)
      ensures nextId == old(nextId)
      ensures saved <==> UserOk(u) && (forall i :: 0 <= i < |old(users)| && i != k ==> old(users)[i].email != u.email)
      ensures users == if saved then old(users)[k := u] else old(users)
    {
      if !UserOk(u) {
        return false;
      }
      var holder := Find(users, UserWithEmail(u.email));
      if holder.Some? && holder.value != k {
        return false;
      }
      if holder.Some? {
        forall i | 0 <= i < |users| && users[i].email == u.email ensures i == k {
          EmailDeterminesUser(users, nextId, i, holder.value);
        }
      }
      UsersReplace(users, nextId, k, u);
      users := users[k := u];
      return true;
    }

    /** Delete the user at `k`. */
    method DeleteUserAt(k: nat)
      requires Valid() && k < |users|
      modifies this
      ensures Valid()
      ensures companies == old(companies) && projects == old(projects) && tasks == old(tasks)
      ensures nextId == old(nextId)
      ensures users == RemoveAt(old(users), k)
    {
      UsersRemove(users, nextId, k);
      users := RemoveAt(users, k);
    }

    /** `Company.create`: trims both fields, then validates. */
    method CreateCompany(companyName: string, domain: string) returns (made: Option<Company>)
      requires Valid()
      modifies this
      ensures Valid()
      ensures users == old(users) && projects == old(projects) && tasks == old(tasks)
      ensures var c := Company(old(nextId), Trim(companyName), Trim(domain));
        if CompanyOk(c)
        then made == Some(c) && companies == old(companies) + [c] && nextId == old(nextId) + 1
        else made.None? && companies == old(companies) && nextId == old(nextId)
    {
      var c := Company(nextId, Trim(companyName), Trim(domain));
      if !CompanyOk(c) {
        return None;
      }
      CompaniesAppend(companies, nextId, c);
      UsersGrow(users, nextId, nextId + 1);
      ProjectsGrow(projects, nextId, nextId + 1);
      TasksGrow(tasks, nextId, nextId + 1);
      companies, nextId := companies + [c], nextId + 1;
      return Some(c);
    }

    /** `Project.create`: trims name and description, then validates. */
    method CreateProject(name: string, description: string, createdBy: Id, companyId: Id)
      returns (made: Option<Project>)
      requires Valid()
      modifies this
      ensures Valid()
      ensures users == old(users) && companies == old(companies) && tasks == old(tasks)
      ensures made.Some? <==> ProjectOk(Project(old(nextId), Trim(name), Trim(description), createdBy, companyId))
      ensures made.Some? ==> made.value == Project(old(nextId), Trim(name), Trim(description), createdBy, companyId)
      ensures made.Some? ==> projects == old(projects) + [made.value] && nextId == old(nextId) + 1
      ensures made.None? ==> projects == old(projects) && nextId == old(nextId)
    {
      var p := Project(nextId, Trim(name), Trim(description), createdBy, companyId);
      if !ProjectOk(p) {
        return None;
      }
      ProjectsAppend(projects, nextId, p);
      UsersGrow(users, nextId, nextId + 1);
      CompaniesGrow(companies, nextId, nextId + 1);
      TasksGrow(tasks, nextId, nextId + 1);
      projects, nextId := projects + [p], nextId + 1;
      return Some(p);
    }

    /** `project.save()` of the record at `k` (same id). */
    method SaveProject(k: nat, p: Project) returns (saved: bool)
      requires Valid() && k < |projects| && p.id == projects[k].id
      modifies this
      ensures Valid()
      ensures users == old(users) && companies == old(companies) && tasks == old(tasks)
      ensures nextId == old(nextId)
      ensures saved <==> ProjectOk(p)
      ensures projects == if saved then old(projects)[k := p] else old(projects)
    {
      if !ProjectOk(p) {
        return false;
      }
      ProjectsReplace(projects, nextId, k, p);
      projects := projects[k := p];
      return true;
    }

    /** Delete the project at `k`. */
    method DeleteProjectAt(k: nat)
      requires Valid() && k < |projects|
      modifies this
      ensures Valid()
      ensures users == old(users) && companies == old(companies) && tasks == old(tasks)
      ensures nextId == old(nextId)
      ensures projects == RemoveAt(old(projects), k)
    {
      ProjectsRemove(projects, nextId, k);
      projects := RemoveAt(projects, k);
    }

    /** `Task.create`: trims title and description, then validates (status in 1..3). */
    method CreateTask(title: string, description: string, status: int, assignedTo: Id, projectId: Id)
      returns (made: Option<Task>)
      requires Valid()
      modifies this
      ensures Valid()
      ensures users == old(users) && companies == old(companies) && projects == old(projects)
      ensures var t := Task(old(nextId), Trim(title), Trim(description), status, assignedTo, projectId);
        if TaskOk(t)
        then made == Some(t) && tasks == old(tasks) + [t] && nextId == old(nextId) + 1
        else made.None? && tasks == old(tasks) && nextId == old(nextId)
    {
      var t := Task(nextId, Trim(title), Trim(description), status, assignedTo, projectId);
      if !TaskOk(t) {
        return None;
      }
      TasksAppend(tasks, nextId, t);
      UsersGrow(users, nextId, nextId + 1);
      CompaniesGrow(companies, nextId, nextId + 1);
      ProjectsGrow(projects, nextId, nextId + 1);
      tasks, nextId := tasks + [t], nextId + 1;
      return Some(t);
    }

    /** `task.save()` of the record at `k` (same id). */
    method SaveTask(k: nat, t: Task) returns (saved: bool)
      requires Valid() && k < |tasks| && t.id == tasks[k].id
      modifies this
      ensures Valid()
      ensures users == old(users) && companies == old(companies) && projects == old(projects)
      ensures nextId == old(nextId)
      ensures saved <==> TaskOk(t)
      ensures tasks == if saved then old(tasks)[k := t] else old(tasks)
    {
      if !TaskOk(t) {
        return false;
      }
      TasksReplace(tasks, nextId, k, t);
      tasks := tasks[k := t];
      return true;
    }

    /** Delete the task at `k`. */
    method DeleteTaskAt(k: nat)
      requires Valid() && k < |tasks|
      modifies this
      ensures Valid()
      ensures users == old(users) && companies == old(companies) && projects == old(projects)
      ensures nextId == old(nextId)
      ensures tasks == RemoveAt(old(tasks), k)
    {
      TasksRemove(tasks, nextId, k);
      tasks := RemoveAt(tasks, k);
    }
  }
}
