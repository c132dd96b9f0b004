/** The four stored records (users, companies, projects, tasks), their enumerations and
    the validation each schema applies when a record is saved. */
module Models {
  import opened Common
  import opened Strings

  /** An ObjectId; the store hands them out from a counter, so they grow with creation time. */
  type Id = nat

  // The `Roles` enumeration of the user schema.
  const Admin: int := 1
  const Manager: int := 2
  const Member: int := 3
  const DefaultRole: int := Member

  predicate ValidRole(r: int) {
    r == Admin || r == Manager || r == Member
  }

  // The task schema's status enumeration: to-do, in progress, done.
  const ToDo: int := 1
  const InProgress: int := 2
  const Done: int := 3
  const DefaultStatus: int := ToDo

  predicate ValidStatus(s: int) {
    s == ToDo || s == InProgress || s == Done
  }

  /** A bcrypt digest. The model treats bcrypt as an ideal one-way function: only
      `Compare` looks inside a digest, and a digest matches exactly one password. */
  const BcryptCost: nat := 10
  datatype PasswordHash = Bcrypt(cost: nat, salt: nat, secret: string)

  function Hash(password: string, salt: nat): (h: PasswordHash)
    ensures h.cost == BcryptCost
    ensures Compare(password, h)
    ensures forall q :: Compare(q, h) ==> q == password
  {
    Bcrypt(BcryptCost, salt, password)
  }

  predicate Compare(password: string, h: PasswordHash) {
    h.secret == password
  }

  /** The oracle's contract: a digest accepts the password it was made from and no other. */
  lemma HashCompare(p: string, q: string, salt: nat)
    ensures Compare(p, Hash(p, salt))
    ensures Compare(q, Hash(p, salt)) ==> q == p
  {
  }

  datatype Company = Company(id: Id, companyName: string, domain: string)

  datatype User = User(
    id: Id,
    userName: string,
    email: string,
    password: PasswordHash,
    role: int,
    companyId: Option<Id>,
    token: Option<string>)

  datatype Project = Project(id: Id, name: string, description: string, createdBy: Id, companyId: Id)

  datatype Task = Task(id: Id, title: string, description: string, status: int, assignedTo: Id, projectId: Id)

  /** A `required: true, trim: true` string as stored: already trimmed and not empty. */
  predicate RequiredTrimmed(s: string) {
    s != "" && IsTrimmed(s)
  }

  predicate UserOk(u: User) {
    RequiredTrimmed(u.userName) && u.email != "" && IsLowercase(u.email) && ValidRole(u.role)
  }

  predicate CompanyOk(c: Company) {
    RequiredTrimmed(c.companyName) && RequiredTrimmed(c.domain)
  }

  predicate ProjectOk(p: Project) {
    RequiredTrimmed(p.name) && RequiredTrimmed(p.description)
  }

  predicate TaskOk(t: Task) {
    RequiredTrimmed(t.title) && RequiredTrimmed(t.description) && ValidStatus(t.status)
  }

  // Query filters, one per key the handlers look records up by.

  function UserWithId(id: Id): User -> bool {
    (u: User) => u.id == id
  }

  function UserWithEmail(email: string): User -> bool {
    (u: User) => u.email == email
  }

  function UserWithName(userName: string): User -> bool {
    (u: User) => u.userName == userName
  }

  function CompanyWithKey(companyName: string, domain: string): Company -> bool {
    (c: Company) => c.companyName == companyName && c.domain == domain
  }

  function ProjectWithId(id: Id): Project -> bool {
    (p: Project) => p.id == id
  }

  function ProjectWithName(name: string): Project -> bool {
    (p: Project) => p.name == name
  }

  function TaskWithId(id: Id): Task -> bool {
    (t: Task) => t.id == id
  }

  // Table invariants: every record passes its schema, ids are below the id counter and
  // grow with insertion order, and (for users) the unique index on email holds.

  ghost predicate UsersOk(users: seq<User>, next: Id) {
    && (forall i :: 0 <= i < |users| ==> UserOk(users[i]) && users[i].id < next)
    && (forall i, j :: 0 <= i < j < |users| ==> users[i].id < users[j].id)
    && (forall i, j :: 0 <= i < j < |users| ==> users[i].email != users[j].email)
  }

  ghost predicate CompaniesOk(companies: seq<Company>, next: Id) {
    && (forall i :: 0 <= i < |companies| ==> CompanyOk(companies[i]) && companies[i].id < next)
    && (forall i, j :: 0 <= i < j < |companies| ==> companies[i].id < companies[j].id)
  }

  ghost predicate ProjectsOk(projects: seq<Project>, next: Id) {
    && (forall i :: 0 <= i < |projects| ==> ProjectOk(projects[i]) && projects[i].id < next)
    && (forall i, j :: 0 <= i < j < |projects| ==> projects[i].id < projects[j].id)
  }

  ghost predicate TasksOk(tasks: seq<Task>, next: Id) {
    && (forall i :: 0 <= i < |tasks| ==> TaskOk(tasks[i]) && tasks[i].id < next)
    && (forall i, j :: 0 <= i < j < |tasks| ==> tasks[i].id < tasks[j].id)
  }

  /** Emails are unique, so a lookup by email can only ever find one record. */
  lemma {:induction false} EmailDeterminesUser(users: seq<User>, next: Id, i: nat, j: nat)
    requires UsersOk(users, next)
    requires i < |users| && j < |users|
    requires users[i].email == users[j].email
    ensures i == j
  {
  }

  // How each table invariant survives the writes the handlers make.

  lemma UsersGrow(users: seq<User>, next: Id, next': Id)
    requires UsersOk(users, next) && next <= next'
    ensures UsersOk(users, next')
  {
  }

  /** `User.create` with a fresh id and an email nobody holds. */
  lemma UsersAppend(users: seq<User>, next: Id, u: User)
    requires UsersOk(users, next) && UserOk(u) && u.id == next
    requires forall i :: 0 <= i < |users| ==> users[i].email != u.email
    ensures UsersOk(users + [u], next + 1)
  {
  }

  /** `user.save()` on an existing user: same id, and an email no other user holds. */
  lemma UsersReplace(users: seq<User>, next: Id, k: nat, u: User)
    requires UsersOk(users, next) && k < |users| && UserOk(u) && u.id == users[k].id
    requires forall i :: 0 <= i < |users| && i != k ==> users[i].email != u.email
    ensures UsersOk(users[k := u], next)
  {
  }

  lemma UsersRemove(users: seq<User>, next: Id, k: nat)
    requires UsersOk(users, next) && k < |users|
    ensures UsersOk(users[..k] + users[k + 1..], next)
  {
    var r := users[..k] + users[k + 1..];
    forall i, j | 0 <= i < j < |r| ensures r[i].id < r[j].id && r[i].email != r[j].email {
      var i' := if i < k then i else i + 1;
      var j' := if j < k then j else j + 1;
      assert r[i] == users[i'] && r[j] == users[j'];
    }
  }

  lemma CompaniesGrow(companies: seq<Company>, next: Id, next': Id)
    requires CompaniesOk(companies, next) && next <= next'
    ensures CompaniesOk(companies, next')
  {
  }

  lemma CompaniesAppend(companies: seq<Company>, next: Id, c: Company)
    requires CompaniesOk(companies, next) && CompanyOk(c) && c.id == next
    ensures CompaniesOk(companies + [c], next + 1)
  {
  }

  lemma ProjectsGrow(projects: seq<Project>, next: Id, next': Id)
    requires ProjectsOk(projects, next) && next <= next'
    ensures ProjectsOk(projects, next')
  {
  }

  lemma ProjectsAppend(projects: seq<Project>, next: Id, p: Project)
    requires ProjectsOk(projects, next) && ProjectOk(p) && p.id == next
    ensures ProjectsOk(projects + [p], next + 1)
  {
  }

  lemma ProjectsReplace(projects: seq<Project>, next: Id, k: nat, p: Project)
    requires ProjectsOk(projects, next) && k < |projects| && ProjectOk(p) && p.id == projects[k].id
    ensures ProjectsOk(projects[k := p], next)
  {
  }

  lemma ProjectsRemove(projects: seq<Project>, next: Id, k: nat)
    requires ProjectsOk(projects, next) && k < |projects|
    ensures ProjectsOk(projects[..k] + projects[k + 1..], next)
  {
    var r := projects[..k] + projects[k + 1..];
    forall i, j | 0 <= i < j < |r| ensures r[i].id < r[j].id {
      var i' := if i < k then i else i + 1;
      var j' := if j < k then j else j + 1;
      assert r[i] == projects[i'] && r[j] == projects[j'];
    }
  }

  lemma TasksGrow(tasks: seq<Task>, next: Id, next': Id)
    requires TasksOk(tasks, next) && next <= next'
    ensures TasksOk(tasks, next')
  {
  }

  lemma TasksAppend(tasks: seq<Task>, next: Id, t: Task)
    requires TasksOk(tasks, next) && TaskOk(t) && t.id == next
    ensures TasksOk(tasks + [t], next + 1)
  {
  }

  lemma TasksReplace(tasks: seq<Task>, next: Id, k: nat, t: Task)
    requires TasksOk(tasks, next) && k < |tasks| && TaskOk(t) && t.id == tasks[k].id
    ensures TasksOk(tasks[k := t], next)
  {
  }

  lemma TasksRemove(tasks: seq<Task>, next: Id, k: nat)
    requires TasksOk(tasks, next) && k < |tasks|
    ensures TasksOk(tasks[..k] + tasks[k + 1..], next)
  {
    var r := tasks[..k] + tasks[k + 1..];
    forall i, j | 0 <= i < j < |r| ensures r[i].id < r[j].id {
      var i' := if i < k then i else i + 1;
      var j' := if j < k then j else j + 1;
      assert r[i] == tasks[i'] && r[j] == tasks[j'];
    }
  }
}
