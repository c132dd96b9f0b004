/** The task handlers: create, the paged list, search, delete, "my tasks", the assignee's
    status update and the full update. */
module TaskControllers {
  import opened Common
  import opened Strings
  import opened Collections
  import opened Models
  import opened Store
  import opened Pagination

  const AllFieldsRequired := "All fields are required"
  const UserNotFound := "User not found"
  const ProjectNotFound := "Project not found"
  const FilterUserNotFound := "User not found for assignedTo filter"
  const InvalidStatus := "Invalid status. Allowed: 1, 2, 3"
  const TaskNotFound := "Task not found"
  const TaskDeleted := "Task deleted successfully"
  const NoTasksForUser := "No tasks found for this user"
  const NotAssignee := "You are not authorized to update this task"
  const StatusUpdated := "Task status updated successfully"
  const AssignedUserNotFound := "Assigned user not found"
  const TaskUpdated := "Task updated successfully"

  /** `User.findOne({ userName })`; the trim setter also applies to the filter. */
  function FindUserByName(users: seq<User>, userName: string): (r: Option<nat>)
    ensures r.Some? ==> r.value < |users| && users[r.value].userName == Trim(userName)
    ensures r.Some? ==> forall j :: 0 <= j < r.value ==> users[j].userName != Trim(userName)
    ensures r.None? <==> forall j :: 0 <= j < |users| ==> users[j].userName != Trim(userName)
  {
    Find(users, UserWithName(Trim(userName)))
  }

  /** `Project.findOne({ name })`; the trim setter also applies to the filter. */
  function FindProjectByName(projects: seq<Project>, name: string): (r: Option<nat>)
    ensures r.Some? ==> r.value < |projects| && projects[r.value].name == Trim(name)
    ensures r.Some? ==> forall j :: 0 <= j < r.value ==> projects[j].name != Trim(name)
    ensures r.None? <==> forall j :: 0 <= j < |projects| ==> projects[j].name != Trim(name)
  {
    Find(projects, ProjectWithName(Trim(name)))
  }

  // ---------------------------------------------------------------------------
  // Create

  /** The body of a create request; `status` is the number the schema casts it to. */
  datatype TaskBody = TaskBody(
    title: Option<string>,
    description: Option<string>,
    status: Option<int>,
    userName: Option<string>,
    projectName: Option<string>)

  predicate Complete(b: TaskBody) {
    Supplied(b.title) && Supplied(b.description) && SuppliedNumber(b.status) &&
    Supplied(b.userName) && Supplied(b.projectName)
  }

  /** `createTask`: all five fields are required, the assignee and the project are looked up
      by name, and the new task points at both; a task failing the schema gets a 500. */
  method CreateTask(db: Db, b: TaskBody) returns (res: Reply)
    requires db.Valid()
    modifies db
    ensures db.Valid()
    ensures db.users == old(db.users) && db.companies == old(db.companies) && db.projects == old(db.projects)
    ensures res != Reply(201, NoMessage) ==> db.tasks == old(db.tasks) && db.nextId == old(db.nextId)
    ensures !Complete(b) ==> res == Reply(400, AllFieldsRequired)
    ensures Complete(b) ==>
      var u := FindUserByName(old(db.users), b.userName.value);
      var p := FindProjectByName(old(db.projects), b.projectName.value);
      && (u.None? ==> res == Reply(404, UserNotFound))
      && (u.Some? && p.None? ==> res == Reply(404, ProjectNotFound))
      && (u.Some? && p.Some? ==>
            var t := Task(old(db.nextId), Trim(b.title.value), Trim(b.description.value), b.status.value,
                          old(db.users)[u.value].id, old(db.projects)[p.value].id);
            if TaskOk(t) then res == Reply(201, NoMessage) && db.tasks == old(db.tasks) + [t]
            else res == Reply(500, InternalServerError))
    ensures res == Reply(201, NoMessage) ==>
      && |db.tasks| == |old(db.tasks)| + 1
      && (exists i :: 0 <= i < |db.users| && db.users[i].id == db.tasks[|db.tasks| - 1].assignedTo)
      && (exists i :: 0 <= i < |db.projects| && db.projects[i].id == db.tasks[|db.tasks| - 1].projectId)
  {
    if !Complete(b) {
      return Reply(400, AllFieldsRequired);
    }
    var u := FindUserByName(db.users, b.userName.value);
    if u.None? {
      return Reply(404, UserNotFound);
    }
    var p := FindProjectByName(db.projects, b.projectName.value);
    if p.None? {
      return Reply(404, ProjectNotFound);
    }
    var made := db.CreateTask(b.title.value, b.description.value, b.status.value,
                              db.users[u.value].id, db.projects[p.value].id);
    if made.None? {
      return Reply(500, InternalServerError);
    }
    return Reply(201, NoMessage);
  }

  // ---------------------------------------------------------------------------
  // List and search

  /** `getAllTasks`: one page of all tasks, newest first. */
  method GetAllTasks(db: Db, page: Option<nat>, limit: Option<nat>) returns (info: Page, items: seq<Task>)
    requires db.Valid()
    ensures info == Paginate(|db.tasks|, page, limit)
    ensures |items| == (if info.skip >= |db.tasks| then 0 else Min(info.limit, |db.tasks| - info.skip))
    ensures forall j :: 0 <= j < |items| ==>
      info.skip + j < |db.tasks| && items[j] == db.tasks[|db.tasks| - 1 - (info.skip + j)]
  {
    info := Paginate(|db.tasks|, page, limit);
    items := Window(Reverse(db.tasks), info.skip, info.limit);
  }

  /** Ids grow with creation, so a page of `getAllTasks` lists strictly decreasing ids. */
  lemma {:induction false} AllTasksNewestFirst(tasks: seq<Task>, next: Id, skip: nat, limit: nat)
    requires TasksOk(tasks, next)
    ensures var items := Window(Reverse(tasks), skip, limit);
      forall j, j' :: 0 <= j < j' < |items| ==> items[j].id > items[j'].id
  {
    var items := Window(Reverse(tasks), skip, limit);
    forall j, j' | 0 <= j < j' < |items| ensures items[j].id > items[j'].id {
      assert items[j] == tasks[|tasks| - 1 - (skip + j)];
      assert items[j'] == tasks[|tasks| - 1 - (skip + j')];
    }
  }

  /** The status filter of a search: the query string must be exactly "1", "2" or "3". */
  function StatusCode(s: string): (r: Option<int>)
    ensures r.Some? ==> ValidStatus(r.value)
    ensures r.Some? <==> s in ["1", "2", "3"]
  {
    if s == "1" then Some(ToDo) else if s == "2" then Some(InProgress) else if s == "3" then Some(Done) else None
  }

  /** The query a search builds: an optional assignee and an optional status. */
  datatype Query = Query(assignee: Option<Id>, status: Option<int>)

  function Matches(q: Query): Task -> bool {
    (t: Task) => (q.assignee.None? || t.assignedTo == q.assignee.value) && (q.status.None? || t.status == q.status.value)
  }

  datatype QueryResult = Built(query: Query) | Refused(reply: Reply)

  /** The filter part of `searchTasks`: the assignee is looked up by name first (404 when
      there is none), then the status string is checked (400 unless "1", "2" or "3"). */
  function BuildQuery(users: seq<User>, userName: Option<string>, status: Option<string>): (r: QueryResult)
    ensures Supplied(userName) && FindUserByName(users, userName.value).None? ==>
      r == Refused(Reply(404, FilterUserNotFound))
    ensures !(Supplied(userName) && FindUserByName(users, userName.value).None?) &&
            Supplied(status) && StatusCode(status.value).None? ==>
      r == Refused(Reply(400, InvalidStatus))
    ensures r.Built? <==>
      !(Supplied(userName) && FindUserByName(users, userName.value).None?) &&
      !(Supplied(status) && StatusCode(status.value).None?)
    ensures r.Built? ==>
      && (r.query.assignee.Some? <==> Supplied(userName))
      && (r.query.assignee.Some? ==>
            exists i :: 0 <= i < |users| && users[i].id == r.query.assignee.value &&
                        users[i].userName == Trim(userName.value))
      && (r.query.status.Some? <==> Supplied(status))
      && (r.query.status.Some? ==> ValidStatus(r.query.status.value))
    ensures r.Built? ==> r.query == Query(
      if Supplied(userName) then Some(users[FindUserByName(users, userName.value).value].id) else None,
      if Supplied(status) then StatusCode(status.value) else None)
  {
    var u := if Supplied(userName) then FindUserByName(users, userName.value) else None;
    var code := if Supplied(status) then StatusCode(status.value) else None;
    if Supplied(userName) && u.None? then Refused(Reply(404, FilterUserNotFound))
    else if Supplied(status) && code.None? then Refused(Reply(400, InvalidStatus))
    else Built(Query(if u.Some? then Some(users[u.value].id) else None, code))
  }

  /** A search result: `totalPages` is `None` where `Math.ceil(total / 0)` is not a finite
      number (it is sent as `null`). */
  datatype TaskPage = TaskPage(totalTasks: nat, totalPages: Option<nat>, currentPage: nat, tasks: seq<Task>)

  const NoResult := TaskPage(0, None, 0, [])

  /** `searchTasks`, with `page` and `limit` as the numbers their query strings denote
      (defaults 1 and 10 when absent). Matches are counted, ordered newest first and cut to
      the page; a page of 0 asks the store for a negative skip, which it refuses, and a
      limit of 0 is no limit. */
  method SearchTasks(db: Db, userName: Option<string>, status: Option<string>, page: Option<nat>, limit: Option<nat>)
    returns (res: Reply, found: TaskPage)
    requires db.Valid()
    ensures var q := BuildQuery(db.users, userName, status);
      && (q.Refused? ==> res == q.reply && found == NoResult)
      && (q.Built? ==>
            var matching := Filter(db.tasks, Matches(q.query));
            var pg := if page.None? then 1 else page.value;
            var lim := if limit.None? then 10 else limit.value;
            if lim == 0 then
              res == Reply(200, NoMessage) && found == TaskPage(|matching|, None, pg, Reverse(matching))
            else if pg == 0 then
              res == Reply(500, InternalServerError) && found == NoResult
            else
              && res == Reply(200, NoMessage)
              && found == TaskPage(|matching|, Some(CeilDiv(|matching|, lim)), pg,
                                   Window(Reverse(matching), (pg - 1) * lim, lim)))
  {
    var q := BuildQuery(db.users, userName, status);
    if q.Refused? {
      return q.reply, NoResult;
    }
    var pg := if page.None? then 1 else page.value;
    var lim := if limit.None? then 10 else limit.value;
    var matching := Filter(db.tasks, Matches(q.query));
    if lim == 0 {
      return Reply(200, NoMessage), TaskPage(|matching|, None, pg, Reverse(matching));
    }
    if pg == 0 {
      return Reply(500, InternalServerError), NoResult;
    }
    var items := Window(Reverse(matching), (pg - 1) * lim, lim);
    return Reply(200, NoMessage), TaskPage(|matching|, Some(CeilDiv(|matching|, lim)), pg, items);
  }

  /** A search with neither filter counts every task. */
  lemma UnfilteredSearchCountsAll(users: seq<User>, tasks: seq<Task>, userName: Option<string>, status: Option<string>)
    requires !Supplied(userName) && !Supplied(status)
    ensures BuildQuery(users, userName, status) == Built(Query(None, None))
    ensures Filter(tasks, Matches(Query(None, None))) == tasks
  {
    FilterKeepsAll(tasks, Matches(Query(None, None)));
  }

  /** Every task a search returns satisfies both filters of its query. */
  lemma SearchResultsMatch(tasks: seq<Task>, q: Query, skip: nat, lim: nat)
    ensures forall t :: t in Window(Reverse(Filter(tasks, Matches(q))), skip, lim) ==>
      t in tasks &&
      (q.assignee.None? || t.assignedTo == q.assignee.value) &&
      (q.status.None? || t.status == q.status.value)
  {
    var matching := Filter(tasks, Matches(q));
    var items := Window(Reverse(matching), skip, lim);
    forall t | t in items
      ensures t in tasks && (q.assignee.None? || t.assignedTo == q.assignee.value) &&
              (q.status.None? || t.status == q.status.value)
    {
      var j :| 0 <= j < |items| && items[j] == t;
      var m := |matching| - 1 - (skip + j);
      assert Reverse(matching)[skip + j] == matching[m];
      assert matching[m] in matching;
      assert Matches(q)(t);
    }
  }

  predicate IdBefore(a: Task, b: Task) {
    a.id < b.id
  }

  /** A page of search results lists strictly decreasing ids: matches keep the store's
      creation order, and the page reverses it. */
  lemma {:induction false} SearchNewestFirst(tasks: seq<Task>, next: Id, q: Query, skip: nat, limit: nat)
    requires TasksOk(tasks, next)
    ensures var items := Window(Reverse(Filter(tasks, Matches(q))), skip, limit);
      forall j, j' :: 0 <= j < j' < |items| ==> items[j].id > items[j'].id
  {
    var matching := Filter(tasks, Matches(q));
    FilterKeepsOrder(tasks, Matches(q), IdBefore);
    var items := Window(Reverse(matching), skip, limit);
    forall j, j' | 0 <= j < j' < |items| ensures items[j].id > items[j'].id {
      var m, m' := |matching| - 1 - (skip + j'), |matching| - 1 - (skip + j);
      assert items[j] == matching[m'] && items[j'] == matching[m];
      assert IdBefore(matching[m], matching[m']);
    }
  }

  // ---------------------------------------------------------------------------
  // Delete and "my tasks"

  /** `deleteTask`: `findByIdAndDelete`, 404 when no task has the id. */
  method DeleteTask(db: Db, taskId: Id) returns (res: Reply)
    requires db.Valid()
    modifies db
    ensures db.Valid()
    ensures db.users == old(db.users) && db.companies == old(db.companies) && db.projects == old(db.projects)
    ensures db.nextId == old(db.nextId)
    ensures var k := Find(old(db.tasks), TaskWithId(taskId));
      && (k.None? ==> res == Reply(404, TaskNotFound) && db.tasks == old(db.tasks))
      && (k.Some? ==> res == Reply(200, TaskDeleted) && db.tasks == RemoveAt(old(db.tasks), k.value))
  {
    var k := Find(db.tasks, TaskWithId(taskId));
    if k.None? {
      return Reply(404, TaskNotFound);
    }
    db.DeleteTaskAt(k.value);
    return Reply(200, TaskDeleted);
  }

  function AssignedTo(id: Id): Task -> bool {
    (t: Task) => t.assignedTo == id
  }

  /** `getUserTasks`: the tasks assigned to the authenticated user, in natural order; an
      empty result is answered with 404 rather than an empty list. */
  method GetUserTasks(db: Db, user: User) returns (res: Reply, tasks: seq<Task>)
    requires db.Valid()
    ensures tasks == Filter(db.tasks, AssignedTo(user.id))
    ensures forall t :: t in tasks <==> t in db.tasks && t.assignedTo == user.id
    ensures res == (if tasks == [] then Reply(404, NoTasksForUser) else Reply(200, NoMessage))
  {
    tasks := Filter(db.tasks, AssignedTo(user.id));
    if |tasks| == 0 {
      return Reply(404, NoTasksForUser), tasks;
    }
    return Reply(200, NoMessage), tasks;
  }

  /** A user with a task assigned never gets the 404. */
  lemma {:induction false} AssigneeSeesOwnTask(tasks: seq<Task>, user: User, k: nat)
    requires k < |tasks| && tasks[k].assignedTo == user.id
    ensures tasks[k] in Filter(tasks, AssignedTo(user.id))
    ensures Filter(tasks, AssignedTo(user.id)) != []
  {
    assert tasks[k] in tasks;
  }

  // ---------------------------------------------------------------------------
  // Updates

  /** `updateTaskStatus`: only the task's assignee may change its status, and nothing but
      the status changes; a status outside 1..3 fails the schema and gets a 500. */
  method UpdateTaskStatus(db: Db, user: User, taskId: Id, status: int) returns (res: Reply)
    requires db.Valid()
    modifies db
    ensures db.Valid()
    ensures db.users == old(db.users) && db.companies == old(db.companies) && db.projects == old(db.projects)
    ensures db.nextId == old(db.nextId)
    ensures res != Reply(200, StatusUpdated) ==> db.tasks == old(db.tasks)
    ensures var k := Find(old(db.tasks), TaskWithId(taskId));
      && (k.None? ==> res == Reply(404, TaskNotFound))
      && (k.Some? && old(db.tasks)[k.value].assignedTo != user.id ==> res == Reply(403, NotAssignee))
      && (k.Some? && old(db.tasks)[k.value].assignedTo == user.id ==>
            if ValidStatus(status)
            then res == Reply(200, StatusUpdated) &&
                 db.tasks == old(db.tasks)[k.value := old(db.tasks)[k.value].(status := status)]
            else res == Reply(500, InternalServerError))
  {
    var k := Find(db.tasks, TaskWithId(taskId));
    if k.None? {
      return Reply(404, TaskNotFound);
    }
    var task := db.tasks[k.value];
    if task.assignedTo != user.id {
      return Reply(403, NotAssignee);
    }
    var saved := db.SaveTask(k.value, task.(status := status));
    if !saved {
      return Reply(500, InternalServerError);
    }
    return Reply(200, StatusUpdated);
  }

  /** The record `updateTask` saves: each supplied field replaces the stored one (text
      through the trim setter); the id never changes. */
  function ApplyTaskUpdate(t: Task, title: Option<string>, description: Option<string>, status: Option<int>,
                           assignee: Option<Id>, project: Option<Id>): (r: Task)
    ensures r.id == t.id
    ensures r.title == if Supplied(title) then Trim(title.value) else t.title
    ensures r.description == if Supplied(description) then Trim(description.value) else t.description
    ensures r.status == if SuppliedNumber(status) then status.value else t.status
    ensures r.assignedTo == if assignee.Some? then assignee.value else t.assignedTo
    ensures r.projectId == if project.Some? then project.value else t.projectId
  {
    var t1 := if assignee.Some? then t.(assignedTo := assignee.value) else t;
    var t2 := if project.Some? then t1.(projectId := project.value) else t1;
    var t3 := if Supplied(title) then t2.(title := Trim(title.value)) else t2;
    var t4 := if Supplied(description) then t3.(description := Trim(description.value)) else t3;
    if SuppliedNumber(status) then t4.(status := status.value) else t4
  }

  /** An update that supplies nothing saves the task as it was. */
  lemma EmptyTaskUpdateKeepsTask(t: Task)
    ensures ApplyTaskUpdate(t, None, None, None, None, None) == t
  {
  }

  /** `updateTask`: a new assignee and a new project are looked up by name (404 when
      missing), then the supplied fields are applied and the task is saved; a task failing
      the schema gets a 500 and is left as it was. */
  method UpdateTask(db: Db, taskId: Id, b: TaskBody) returns (res: Reply)
    requires db.Valid()
    modifies db
    ensures db.Valid()
    ensures db.users == old(db.users) && db.companies == old(db.companies) && db.projects == old(db.projects)
    ensures db.nextId == old(db.nextId)
    ensures res != Reply(200, TaskUpdated) ==> db.tasks == old(db.tasks)
    ensures var k := Find(old(db.tasks), TaskWithId(taskId));
      var u := if Supplied(b.userName) then FindUserByName(db.users, b.userName.value) else None;
      var p := if Supplied(b.projectName) then FindProjectByName(db.projects, b.projectName.value) else None;
      && (k.None? ==> res == Reply(404, TaskNotFound))
      && (k.Some? && Supplied(b.userName) && u.None? ==> res == Reply(404, AssignedUserNotFound))
      && (k.Some? && !(Supplied(b.userName) && u.None?) && Supplied(b.projectName) && p.None? ==>
            res == Reply(404, ProjectNotFound))
      && (k.Some? && (Supplied(b.userName) ==> u.Some?) && (Supplied(b.projectName) ==> p.Some?) ==>
            var after := ApplyTaskUpdate(old(db.tasks)[k.value], b.title, b.description, b.status,
                                         if u.Some? then Some(db.users[u.value].id) else None,
                                         if p.Some? then Some(db.projects[p.value].id) else None);
            if TaskOk(after)
            then res == Reply(200, TaskUpdated) && db.tasks == old(db.tasks)[k.value := after]
            else res == Reply(500, InternalServerError))
  {
    var k := Find(db.tasks, TaskWithId(taskId));
    if k.None? {
      return Reply(404, TaskNotFound);
    }
    var assignee: Option<Id> := None;
    if Supplied(b.userName) {
      var u := FindUserByName(db.users, b.userName.value);
      if u.None? {
        return Reply(404, AssignedUserNotFound);
      }
      assignee := Some(db.users[u.value].id);
    }
    var project: Option<Id> := None;
    if Supplied(b.projectName) {
      var p := FindProjectByName(db.projects, b.projectName.value);
      if p.None? {
        return Reply(404, ProjectNotFound);
      }
      project := Some(db.projects[p.value].id);
    }
    var after := ApplyTaskUpdate(db.tasks[k.value], b.title, b.description, b.status, assignee, project);
    var saved := db.SaveTask(k.value, after);
    if !saved {
      return Reply(500, InternalServerError);
    }
    return Reply(200, TaskUpdated);
  }
}
