/** The auth handlers: registration, login, logout, the paged user list, delete and update. */
module UserControllers {
  import opened Common
  import opened Strings
  import opened Collections
  import opened Models
  import opened Store
  import opened Pagination
  import AM = AuthMiddleware

  const AllFieldsRequired := "All fields are required: userName, email, password, role, companyName, domain"
  const InvalidRole := "Invalid role. Use admin, manager, or member"
  const EmailRegistered := "Email already registered"
  const InvalidCredentials := "Invalid email or password"
  const NotAuthorized := "Not authorized"
  const LoggedOut := "Logged out successfully"
  const UserNotFound := "User not found"
  const UserDeleted := "User deleted successfully"
  const UserUpdated := "User updated successfully"

  // ---------------------------------------------------------------------------
  // Role strings

  /** `roleMap[role.toLowerCase()]` over the map's own three keys: a role name in any case. */
  function ParseRole(role: string): (r: Option<int>)
    ensures r.Some? ==> ValidRole(r.value)
  {
    var key := Lower(role);
    if key == "admin" then Some(Admin)
    else if key == "manager" then Some(Manager)
    else if key == "member" then Some(Member)
    else None
  }

  /** `ParseRole` accepts exactly the three role names, in any case, and refuses the rest. */
  lemma ParseRoleAcceptsRoleNames(role: string)
    ensures ParseRole(role) == Some(Admin) <==> Lower(role) == "admin"
    ensures ParseRole(role) == Some(Manager) <==> Lower(role) == "manager"
    ensures ParseRole(role) == Some(Member) <==> Lower(role) == "member"
    ensures ParseRole(role).None? <==> Lower(role) !in ["admin", "manager", "member"]
  {
  }

  /** The lowercase name of a role, the inverse of `ParseRole`. */
  function RoleName(r: int): string
    requires ValidRole(r)
  {
    if r == Admin then "admin" else if r == Manager then "manager" else "member"
  }

  lemma ParseRoleName(r: int)
    requires ValidRole(r)
    ensures ParseRole(RoleName(r)) == Some(r)
  {
    LowerOfLowercase(RoleName(r));
  }

  /** Parsing ignores case: a role string and its lowercase form parse alike. */
  lemma ParseRoleIgnoresCase(role: string)
    ensures ParseRole(Lower(role)) == ParseRole(role)
  {
    LowerIdempotent(role);
  }

  // The role lookup as written: `roleMap` is a plain object literal, so indexing it also
  // reaches the members every object inherits. After lowercasing, the inherited members
  // that can still be named are `constructor` and `__proto__`.

  /** The JavaScript values `roleMap[key]` can produce. */
  datatype JsValue = Undefined | Number(n: int) | ObjectValue

  function RoleMapLookup(key: string): (r: JsValue)
    ensures r.Number? <==> key in ["admin", "manager", "member"]
    ensures r.Number? ==> ParseRole(key) == Some(r.n)
    ensures r.ObjectValue? ==> ParseRole(key).None?
  {
    if key == "admin" then Number(Admin)
    else if key == "manager" then Number(Manager)
    else if key == "member" then Number(Member)
    else if key == "constructor" || key == "__proto__" then ObjectValue
    else Undefined
  }

  /** The guard `if (!roleNumber)` lets a truthy value through. */
  predicate Truthy(v: JsValue) {
    match v
    case Undefined => false
    case Number(n) => n != 0
    case ObjectValue => true
  }

  /** The written guard admits every role string that lowercases to an inherited key, such
      as "constructor" or "Constructor", although it names no role: a role the corrected
      `ParseRole` refuses with 400 gets past the check. */
  lemma InheritedKeyPassesRoleGuard(role: string)
    requires Lower(role) == "constructor" || Lower(role) == "__proto__"
    ensures Truthy(RoleMapLookup(Lower(role)))
    ensures !RoleMapLookup(Lower(role)).Number?
    ensures ParseRole(role).None?
  {
  }

  /** "constructor" itself is such a string. */
  lemma ConstructorLowercasesToItself()
    ensures Lower("constructor") == "constructor"
  {
    LowerOfLowercase("constructor");
  }

  /** The written lookup and `ParseRole` agree except on the inherited keys. */
  lemma RoleLookupAgreesOnOwnKeys(role: string)
    ensures ParseRole(role).Some? <==> RoleMapLookup(Lower(role)).Number?
    ensures RoleMapLookup(Lower(role)).Number? ==> ParseRole(role) == Some(RoleMapLookup(Lower(role)).n)
    ensures Truthy(RoleMapLookup(Lower(role))) && ParseRole(role).None? ==>
      Lower(role) == "constructor" || Lower(role) == "__proto__"
  {
  }

  // ---------------------------------------------------------------------------
  // Lookups

  /** `User.findOne({ email })`; the schema's lowercase setter also applies to the filter. */
  function FindByEmail(users: seq<User>, email: string): (r: Option<nat>)
    ensures r.Some? ==> r.value < |users| && users[r.value].email == Lower(email)
    ensures r.None? <==> forall j :: 0 <= j < |users| ==> users[j].email != Lower(email)
  {
    Find(users, UserWithEmail(Lower(email)))
  }

  /** With unique emails, `FindByEmail` finds the one user holding a stored (lowercase) email. */
  lemma {:induction false} FindByStoredEmail(users: seq<User>, next: Id, k: nat)
    requires UsersOk(users, next) && k < |users|
    ensures FindByEmail(users, users[k].email) == Some(k)
  {
    LowerOfLowercase(users[k].email);
    var r := FindByEmail(users, users[k].email);
    EmailDeterminesUser(users, next, r.value, k);
  }

  // ---------------------------------------------------------------------------
  // Register

  /** The body of a registration request; an absent field is `None`. */
  datatype RegisterBody = RegisterBody(
    userName: Option<string>,
    email: Option<string>,
    password: Option<string>,
    role: Option<string>,
    companyName: Option<string>,
    domain: Option<string>)

  predicate Complete(b: RegisterBody) {
    Supplied(b.userName) && Supplied(b.email) && Supplied(b.password) && Supplied(b.role) &&
    Supplied(b.companyName) && Supplied(b.domain)
  }

  /** The 400 answers `registerUser` gives before it writes anything, checked in its order:
      missing fields, then an unknown role, then an email already registered. */
  function RegistrationRefusal(users: seq<User>, b: RegisterBody): (r: Option<Reply>)
    ensures r.Some? ==> r.value.Reply? && r.value.status == 400
    ensures r.None? <==>
      Complete(b) && ParseRole(b.role.value).Some? &&
      forall i :: 0 <= i < |users| ==> users[i].email != Lower(b.email.value)
    ensures !Complete(b) ==> r == Some(Reply(400, AllFieldsRequired))
    ensures Complete(b) && ParseRole(b.role.value).None? ==> r == Some(Reply(400, InvalidRole))
    ensures Complete(b) && ParseRole(b.role.value).Some? && r.Some? ==> r == Some(Reply(400, EmailRegistered))
  {
    if !Complete(b) then Some(Reply(400, AllFieldsRequired))
    else if ParseRole(b.role.value).None? then Some(Reply(400, InvalidRole))
    else if FindByEmail(users, b.email.value).Some? then Some(Reply(400, EmailRegistered))
    else None
  }

  /** `Company.findOne({ companyName, domain })`, with the schema's trim setters on the filter. */
  function FindCompany(companies: seq<Company>, companyName: string, domain: string): (r: Option<nat>)
    ensures r.Some? ==>
      && r.value < |companies|
      && companies[r.value].companyName == Trim(companyName)
      && companies[r.value].domain == Trim(domain)
    ensures r.None? <==> forall j :: 0 <= j < |companies| ==>
      !(companies[j].companyName == Trim(companyName) && companies[j].domain == Trim(domain))
  {
    Find(companies, CompanyWithKey(Trim(companyName), Trim(domain)))
  }

  /** The companies table after the company step of `registerUser`: unchanged when a company
      with this (trimmed) name and domain exists or either is blank, otherwise grown by
      exactly that company under the next id. */
  function CompaniesAfter(companies: seq<Company>, next: Id, companyName: string, domain: string): (r: seq<Company>)
    ensures companies <= r && |r| <= |companies| + 1
    ensures FindCompany(r, companyName, domain).Some? <==>
      FindCompany(companies, companyName, domain).Some? || (Trim(companyName) != "" && Trim(domain) != "")
    ensures |r| == |companies| + 1 ==> r[|companies|] == Company(next, Trim(companyName), Trim(domain))
  {
    if FindCompany(companies, companyName, domain).Some? || Trim(companyName) == "" || Trim(domain) == ""
    then companies
    else
      var r := companies + [Company(next, Trim(companyName), Trim(domain))];
      assert r[|companies|].companyName == Trim(companyName) && r[|companies|].domain == Trim(domain);
      r
  }

  /** The company step of `registerUser`: reuse the company with this (trimmed) name and
      domain, or create it; a blank name or domain makes `Company.create` throw. */
  method CompanyFor(db: Db, companyName: string, domain: string) returns (cid: Option<Id>)
    requires db.Valid()
    modifies db
    ensures db.Valid()
    ensures db.users == old(db.users) && db.projects == old(db.projects) && db.tasks == old(db.tasks)
    ensures var found := FindCompany(old(db.companies), companyName, domain);
      if found.Some? then
        && cid == Some(old(db.companies)[found.value].id)
        && db.companies == old(db.companies) && db.nextId == old(db.nextId)
      else if Trim(companyName) != "" && Trim(domain) != "" then
        && cid == Some(old(db.nextId))
        && db.companies == old(db.companies) + [Company(old(db.nextId), Trim(companyName), Trim(domain))]
        && db.nextId == old(db.nextId) + 1
      else
        cid.None? && db.companies == old(db.companies) && db.nextId == old(db.nextId)
    ensures db.companies == CompaniesAfter(old(db.companies), old(db.nextId), companyName, domain)
  {
    var found := FindCompany(db.companies, companyName, domain);
    if found.Some? {
      return Some(db.companies[found.value].id);
    }
    var company := db.CreateCompany(companyName, domain);
    if company.None? {
      assert !RequiredTrimmed(Trim(companyName)) || !RequiredTrimmed(Trim(domain));
      return None;
    }
    return Some(company.value.id);
  }

  /** Once the checks of `registerUser` pass, the user it creates is valid exactly when the
      trimmed name is not blank, and its email is free. */
  lemma AcceptedUserValid(users: seq<User>, b: RegisterBody, id: Id, password: PasswordHash, cid: Option<Id>)
    requires RegistrationRefusal(users, b).None?
    ensures var u := User(id, Trim(b.userName.value), Lower(b.email.value), password, ParseRole(b.role.value).value, cid, None);
      && (UserOk(u) <==> Trim(b.userName.value) != "")
      && forall i :: 0 <= i < |users| ==> users[i].email != u.email
  {
    assert |Lower(b.email.value)| == |b.email.value| > 0;
  }

  /** The writes of `registerUser` once its checks have passed: the company step, then
      `User.create` with the bcrypt digest and the parsed role. There is no `catch`, so a
      failed `create` leaves the request unanswered, and a company created before a failed
      user `create` stays. */
  method CreateAccount(db: Db, b: RegisterBody, salt: nat) returns (res: Reply)
    requires db.Valid() && RegistrationRefusal(db.users, b).None?
    modifies db
    ensures db.Valid()
    ensures db.projects == old(db.projects) && db.tasks == old(db.tasks)
    ensures res == Reply(201, NoMessage) || (res.Unhandled? && db.users == old(db.users))
    ensures db.companies == CompaniesAfter(old(db.companies), old(db.nextId), b.companyName.value, b.domain.value)
    ensures res == Reply(201, NoMessage) <==>
      Trim(b.userName.value) != "" &&
      (FindCompany(old(db.companies), b.companyName.value, b.domain.value).Some? ||
       (Trim(b.companyName.value) != "" && Trim(b.domain.value) != ""))
    ensures res == Reply(201, NoMessage) ==>
      var found := FindCompany(old(db.companies), b.companyName.value, b.domain.value);
      var cid := if found.Some? then old(db.companies)[found.value].id else old(db.nextId);
      var uid := if found.Some? then old(db.nextId) else old(db.nextId) + 1;
      && db.users == old(db.users) + [User(uid, Trim(b.userName.value), Lower(b.email.value),
                                           Hash(b.password.value, salt), ParseRole(b.role.value).value,
                                           Some(cid), None)]
      && db.nextId == uid + 1
  {
    var cid := CompanyFor(db, b.companyName.value, b.domain.value);
    if cid.None? {
      return Unhandled;
    }
    AcceptedUserValid(db.users, b, db.nextId, Hash(b.password.value, salt), cid);
    var user := db.CreateUser(b.userName.value, b.email.value, Hash(b.password.value, salt),
                              ParseRole(b.role.value).value, cid);
    if user.None? {
      return Unhandled;
    }
    return Reply(201, NoMessage);
  }

  /** `registerUser`: the 400 refusals, checked before anything is written, then the writes
      of `CreateAccount`. */
  method RegisterUser(db: Db, b: RegisterBody, salt: nat) returns (res: Reply)
    requires db.Valid()
    modifies db
    ensures db.Valid()
    ensures db.projects == old(db.projects) && db.tasks == old(db.tasks)
    ensures var refusal := RegistrationRefusal(old(db.users), b);
      refusal.Some? ==> res == refusal.value && unchanged(db)
    ensures res.Reply? ==> res.status == 400 || res == Reply(201, NoMessage)
    ensures res.Unhandled? ==> db.users == old(db.users)
    ensures RegistrationRefusal(old(db.users), b).None? ==>
      db.companies == CompaniesAfter(old(db.companies), old(db.nextId), b.companyName.value, b.domain.value)
    ensures RegistrationRefusal(old(db.users), b).None? ==>
      (res == Reply(201, NoMessage) <==>
        Trim(b.userName.value) != "" &&
        (FindCompany(old(db.companies), b.companyName.value, b.domain.value).Some? ||
         (Trim(b.companyName.value) != "" && Trim(b.domain.value) != "")))
    ensures res == Reply(201, NoMessage) ==>
      && RegistrationRefusal(old(db.users), b).None?
      && var found := FindCompany(old(db.companies), b.companyName.value, b.domain.value);
         var cid := if found.Some? then old(db.companies)[found.value].id else old(db.nextId);
         var uid := if found.Some? then old(db.nextId) else old(db.nextId) + 1;
         && db.users == old(db.users) + [User(uid, Trim(b.userName.value), Lower(b.email.value),
                                              Hash(b.password.value, salt), ParseRole(b.role.value).value,
                                              Some(cid), None)]
         && db.nextId == uid + 1
  {
    var refusal := RegistrationRefusal(db.users, b);
    if refusal.Some? {
      return refusal.value;
    }
    res := CreateAccount(db, b, salt);
  }

  // ---------------------------------------------------------------------------
  // Login and logout

  /** `User.findOne({ email })` for the login body; a body without an email matches nobody. */
  function LoginLookup(users: seq<User>, email: Option<string>): (r: Option<nat>)
    ensures r.Some? ==> email.Some? && r.value < |users| && users[r.value].email == Lower(email.value)
    ensures r.None? <==> email.None? || forall j :: 0 <= j < |users| ==> users[j].email != Lower(email.value)
  {
    if email.None? then None else FindByEmail(users, email.value)
  }

  /** `loginUser`: an unknown email and a wrong password get the same 400 and change
      nothing; a good password replaces the user's stored token with the issued one. */
  method LoginUser(db: Db, email: Option<string>, password: Option<string>, issued: string)
    returns (res: Reply, token: Option<string>)
    requires db.Valid()
    modifies db
    ensures db.Valid()
    ensures db.companies == old(db.companies) && db.projects == old(db.projects)
    ensures db.tasks == old(db.tasks) && db.nextId == old(db.nextId)
    ensures (res.Reply? && res.status == 400) ==> res == Reply(400, InvalidCredentials) && db.users == old(db.users)
    ensures var k := LoginLookup(old(db.users), email);
      && (k.None? ==> res == Reply(400, InvalidCredentials) && token.None? && db.users == old(db.users))
      && (k.Some? && password.None? ==>
            res == Reply(500, ServerError) && token.None? && db.users == old(db.users))
      && (k.Some? && password.Some? && !Compare(password.value, old(db.users)[k.value].password) ==>
            res == Reply(400, InvalidCredentials) && token.None? && db.users == old(db.users))
      && (k.Some? && password.Some? && Compare(password.value, old(db.users)[k.value].password) ==>
            res == Reply(200, NoMessage) && token == Some(issued) &&
            db.users == AM.SetToken(old(db.users), k.value, Some(issued)))
  {
    var k := LoginLookup(db.users, email);
    if k.None? {
      return Reply(400, InvalidCredentials), None;
    }
    if password.None? {
      // bcrypt.compare rejects an undefined password; the catch answers 500
      return Reply(500, ServerError), None;
    }
    var user := db.users[k.value];
    if !Compare(password.value, user.password) {
      return Reply(400, InvalidCredentials), None;
    }
    AM.SetTokenKeepsInvariant(db.users, db.nextId, k.value, Some(issued));
    db.users := AM.SetToken(db.users, k.value, Some(issued));
    return Reply(200, NoMessage), Some(issued);
  }

  /** `logoutUser`, given the `req.user` and `req.token` that `protect` attached: it clears
      the stored token only if it is still the presented one. */
  method LogoutUser(db: Db, user: User, token: string) returns (res: Reply)
    requires db.Valid()
    modifies db
    ensures db.Valid()
    ensures db.companies == old(db.companies) && db.projects == old(db.projects)
    ensures db.tasks == old(db.tasks) && db.nextId == old(db.nextId)
    ensures var k := FindByEmail(old(db.users), user.email);
      && (k.None? || old(db.users)[k.value].token != Some(token) ==>
            res == Reply(401, NotAuthorized) && db.users == old(db.users))
      && (k.Some? && old(db.users)[k.value].token == Some(token) ==>
            res == Reply(200, LoggedOut) && db.users == AM.SetToken(old(db.users), k.value, None))
  {
    var k := FindByEmail(db.users, user.email);
    if k.None? || db.users[k.value].token != Some(token) {
      return Reply(401, NotAuthorized);
    }
    AM.SetTokenKeepsInvariant(db.users, db.nextId, k.value, None);
    db.users := AM.SetToken(db.users, k.value, None);
    return Reply(200, LoggedOut);
  }

  /** A request `protect` admitted always logs out: its user is found again by email and
      still holds the presented token. */
  lemma {:induction false} AdmittedRequestLogsOut(users: seq<User>, next: Id, u: User, t: string)
    requires UsersOk(users, next)
    requires u in users && u.token == Some(t)
    ensures var k := FindByEmail(users, u.email); k.Some? && users[k.value] == u
  {
    var i :| 0 <= i < |users| && users[i] == u;
    FindByStoredEmail(users, next, i);
  }

  // ---------------------------------------------------------------------------
  // List, delete, update

  /** A user as listed: `.select('-password -token')` drops the digest and the session token. */
  datatype UserView = UserView(id: Id, userName: string, email: string, role: int, companyId: Option<Id>)

  function View(u: User): UserView {
    UserView(u.id, u.userName, u.email, u.role, u.companyId)
  }

  /** `getAllUsers`: one page of users in natural order, without passwords or tokens. */
  method GetAllUsers(db: Db, page: Option<nat>, limit: Option<nat>) returns (info: Page, items: seq<UserView>)
    requires db.Valid()
    ensures info == Paginate(|db.users|, page, limit)
    ensures |items| <= info.limit
    ensures |items| == (if info.skip >= |db.users| then 0 else Min(info.limit, |db.users| - info.skip))
    ensures forall j :: 0 <= j < |items| ==>
      info.skip + j < |db.users| && items[j] == View(db.users[info.skip + j])
  {
    info := Paginate(|db.users|, page, limit);
    var window := Window(db.users, info.skip, info.limit);
    items := seq(|window|, j requires 0 <= j < |window| => View(window[j]));
  }

  /** Removing the record a lookup by id found removes exactly the users with that id (ids
      are unique, so one) and keeps every other user. */
  lemma {:induction false} RemovingFoundUser(users: seq<User>, next: Id, id: Id, k: nat)
    requires UsersOk(users, next) && Find(users, UserWithId(id)) == Some(k)
    ensures forall u :: u in RemoveAt(users, k) <==> u in users && u.id != id
  {
    var r := RemoveAt(users, k);
    forall u | u in users && u.id != id ensures u in r {
      var i :| 0 <= i < |users| && users[i] == u;
      if i < k { assert r[i] == u; } else { assert r[i - 1] == u; }
    }
    forall u | u in r ensures u in users && u.id != id {
      var i :| 0 <= i < |r| && r[i] == u;
      var j := if i < k then i else i + 1;
      assert users[j] == u && j != k;
    }
  }

  /** `deleteUser`: removes the user with that id and nothing else; projects and tasks that
      point at the user stay as they are. */
  method DeleteUser(db: Db, id: Id) returns (res: Reply)
    requires db.Valid()
    modifies db
    ensures db.Valid()
    ensures db.companies == old(db.companies) && db.projects == old(db.projects)
    ensures db.tasks == old(db.tasks) && db.nextId == old(db.nextId)
    ensures var k := Find(old(db.users), UserWithId(id));
      && (k.None? ==> res == Reply(404, UserNotFound) && db.users == old(db.users))
      && (k.Some? ==> res == Reply(200, UserDeleted) && db.users == RemoveAt(old(db.users), k.value))
    ensures forall u :: u in db.users <==> u in old(db.users) && u.id != id
  {
    var k := Find(db.users, UserWithId(id));
    if k.None? {
      return Reply(404, UserNotFound);
    }
    RemovingFoundUser(db.users, db.nextId, id, k.value);
    db.DeleteUserAt(k.value);
    return Reply(200, UserDeleted);
  }

  /** The record `updateUser` saves: only the supplied name, email and role change. */
  function ApplyUserUpdate(u: User, userName: Option<string>, email: Option<string>, role: Option<int>): (r: User)
    ensures r.id == u.id && r.password == u.password && r.companyId == u.companyId && r.token == u.token
    ensures r.userName == if Supplied(userName) then Trim(userName.value) else u.userName
    ensures r.email == if Supplied(email) then Lower(email.value) else u.email
    ensures r.role == if role.Some? then role.value else u.role
  {
    var u1 := if role.Some? then u.(role := role.value) else u;
    var u2 := if Supplied(userName) then u1.(userName := Trim(userName.value)) else u1;
    if Supplied(email) then u2.(email := Lower(email.value)) else u2
  }

  /** Some user other than number `k` already holds this email. */
  ghost predicate EmailHeldByOther(users: seq<User>, k: nat, email: string) {
    exists j :: 0 <= j < |users| && j != k && users[j].email == email
  }

  /** `updateUser`: nothing is saved on a 404, a bad role, a blank name or a duplicate email;
      otherwise the patched record replaces the old one and `companyId` is left alone. */
  method UpdateUser(db: Db, id: Id, userName: Option<string>, email: Option<string>, role: Option<string>)
    returns (res: Reply)
    requires db.Valid()
    modifies db
    ensures db.Valid()
    ensures db.companies == old(db.companies) && db.projects == old(db.projects)
    ensures db.tasks == old(db.tasks) && db.nextId == old(db.nextId)
    ensures res != Reply(200, UserUpdated) ==> db.users == old(db.users)
    ensures var k := Find(old(db.users), UserWithId(id));
      && (k.None? ==> res == Reply(404, UserNotFound))
      && (k.Some? && Supplied(role) && ParseRole(role.value).None? ==> res == Reply(400, InvalidRole))
      && (k.Some? && !(Supplied(role) && ParseRole(role.value).None?) ==>
            var after := ApplyUserUpdate(old(db.users)[k.value], userName, email,
                                         if Supplied(role) then ParseRole(role.value) else None);
            if after.userName == "" || EmailHeldByOther(old(db.users), k.value, after.email)
            then res == Reply(500, ServerError)
            else res == Reply(200, UserUpdated) && db.users == old(db.users)[k.value := after])
  {
    var k := Find(db.users, UserWithId(id));
    if k.None? {
      return Reply(404, UserNotFound);
    }
    var roleNumber: Option<int> := None;
    if Supplied(role) {
      roleNumber := ParseRole(role.value);
      if roleNumber.None? {
        return Reply(400, InvalidRole);
      }
    }
    var user := ApplyUserUpdate(db.users[k.value], userName, email, roleNumber);
    // save(): schema validation first, then the unique index on email
    var saved := db.SaveUser(k.value, user);
    if !saved {
      return Reply(500, ServerError);
    }
    return Reply(200, UserUpdated);
  }
}
