/** The four routers as a constant policy table: for each endpoint, the middleware chain
    that runs before its handler, and what running a chain decides. */
module Routes {
  import opened Common
  import opened Models
  import AP = AuthPermission
  import AM = AuthMiddleware

  /** A middleware in a chain: `protect`, `isAdmin` or `isAdminOrManager`. */
  datatype Step = Protect | IsAdmin | IsAdminOrManager

  datatype Verb = GET | POST | PUT | PATCH | DELETE

  datatype Route = Route(verb: Verb, path: string, chain: seq<Step>)

  // The four chain shapes the routers use.
  const Open: seq<Step> := []
  const SessionOnly: seq<Step> := [Protect]
  const AdminOnly: seq<Step> := [Protect, IsAdmin]
  const AdminOrManagerOnly: seq<Step> := [Protect, IsAdminOrManager]

  // The auth router.
  const UserRegister := Route(POST, "/register", AdminOnly)
  const UserGetAll := Route(GET, "/getAllUser", AdminOnly)
  const UserDelete := Route(DELETE, "/delete/:id", AdminOnly)
  const UserLogin := Route(POST, "/login", Open)
  const UserLogout := Route(POST, "/logout", SessionOnly)
  const UserUpdate := Route(PUT, "/update/:id", AdminOnly)
  const UserRoutes := [UserRegister, UserGetAll, UserDelete, UserLogin, UserLogout, UserUpdate]

  // The task router.
  const TaskCreate := Route(POST, "/create", AdminOrManagerOnly)
  const TaskGetAll := Route(GET, "/getAllTasks", AdminOrManagerOnly)
  const TaskSearch := Route(GET, "/search", SessionOnly)
  const TaskDelete := Route(DELETE, "/delete/:taskId", AdminOrManagerOnly)
  const TaskMine := Route(GET, "/my-tasks", SessionOnly)
  const TaskUpdateStatus := Route(PATCH, "/update-status/:taskId", SessionOnly)
  const TaskUpdate := Route(PUT, "/update/:taskId", AdminOrManagerOnly)
  const TaskRoutes := [TaskCreate, TaskGetAll, TaskSearch, TaskDelete, TaskMine, TaskUpdateStatus, TaskUpdate]

  // The project router.
  const ProjectCreate := Route(POST, "/create", AdminOrManagerOnly)
  const ProjectGetAll := Route(GET, "/getAllProject", AdminOrManagerOnly)
  const ProjectMine := Route(GET, "/my-projects", SessionOnly)
  const ProjectDelete := Route(DELETE, "/delete/:id", AdminOrManagerOnly)
  const ProjectUpdate := Route(PUT, "/update/:id", AdminOrManagerOnly)
  const ProjectRoutes := [ProjectCreate, ProjectGetAll, ProjectMine, ProjectDelete, ProjectUpdate]

  // The company router.
  const CompanyCreate := Route(POST, "/create", AdminOnly)
  const CompanyViewAll := Route(GET, "/viewAllCompany", AdminOnly)
  const CompanyViewById := Route(GET, "/viewById/:id", AdminOnly)
  const CompanyDelete := Route(DELETE, "/delete/:id", AdminOnly)
  const CompanyUpdate := Route(PUT, "/update/:id", AdminOnly)
  const CompanyRoutes := [CompanyCreate, CompanyViewAll, CompanyViewById, CompanyDelete, CompanyUpdate]

  /** Express's default answer when a middleware throws. */
  const ExpressError := "Internal Server Error"

  /** Where a chain leaves a request: at the handler (with `req.user` if `protect` set it),
      or stopped with a reply. */
  datatype Decision = Reached(user: Option<User>) | Stopped(reply: Reply)

  /** Run a chain. `protect` reads only the store and the request, so its result is given
      once as `auth`. A role gate reading `req.user` before `protect` set it throws. */
  function Run(chain: seq<Step>, auth: AM.AuthResult, user: Option<User>): Decision {
    if chain == [] then Reached(user)
    else match chain[0]
      case Protect =>
        if auth.Rejected? then Stopped(auth.reply) else Run(chain[1..], auth, Some(auth.user))
      case IsAdmin =>
        if user.None? then Stopped(Reply(500, ExpressError))
        else if AP.IsAdmin(user.value).Deny? then Stopped(AP.IsAdmin(user.value).reply)
        else Run(chain[1..], auth, user)
      case IsAdminOrManager =>
        if user.None? then Stopped(Reply(500, ExpressError))
        else if AP.IsAdminOrManager(user.value).Deny? then Stopped(AP.IsAdminOrManager(user.value).reply)
        else Run(chain[1..], auth, user)
  }

  /** A handler behind a chain is reached only by the user `protect` admitted, and only if
      that user passes every role gate in the chain. */
  lemma {:induction false} ReachedOnlyIfAuthorized(chain: seq<Step>, auth: AM.AuthResult, user: Option<User>, u: User)
    requires user.Some? ==> auth.Admitted? && user.value == auth.user
    requires Run(chain, auth, user) == Reached(Some(u))
    ensures auth.Admitted? && u == auth.user
    ensures user.None? ==> Protect in chain
    ensures IsAdmin in chain ==> u.role == Admin
    ensures IsAdminOrManager in chain ==> u.role == Admin || u.role == Manager
  {
    if chain != [] {
      var next := if chain[0] == Protect then Some(auth.user) else user;
      ReachedOnlyIfAuthorized(chain[1..], auth, next, u);
      assert chain == [chain[0]] + chain[1..];
    }
  }

  /** A chain that starts with `protect` stops a request `protect` refuses with `protect`'s reply. */
  lemma ProtectFirstStopsRejected(chain: seq<Step>, auth: AM.AuthResult)
    requires chain != [] && chain[0] == Protect && auth.Rejected?
    ensures Run(chain, auth, None) == Stopped(auth.reply)
  {
  }

  /** What each chain shape decides: the open chain reaches the handler without a user,
      the session chain admits whoever `protect` admits, and the gated chains further
      require the role their gate names, answering with the gate's 403 otherwise. */
  lemma ChainDecisions(auth: AM.AuthResult)
    ensures Run(Open, auth, None) == Reached(None)
    ensures Run(SessionOnly, auth, None) ==
      if auth.Rejected? then Stopped(auth.reply) else Reached(Some(auth.user))
    ensures Run(AdminOnly, auth, None) ==
      if auth.Rejected? then Stopped(auth.reply)
      else if auth.user.role == Admin then Reached(Some(auth.user))
      else Stopped(Reply(403, AP.AdminsOnly))
    ensures Run(AdminOrManagerOnly, auth, None) ==
      if auth.Rejected? then Stopped(auth.reply)
      else if auth.user.role == Admin || auth.user.role == Manager then Reached(Some(auth.user))
      else Stopped(Reply(403, AP.AdminsOrManagersOnly))
  {
    assert AdminOnly[1..] == [IsAdmin] && [IsAdmin][1..] == [];
    assert AdminOrManagerOnly[1..] == [IsAdminOrManager] && [IsAdminOrManager][1..] == [];
    if auth.Admitted? {
      assert Run(AdminOnly, auth, None) == Run([IsAdmin], auth, Some(auth.user));
      assert Run(AdminOrManagerOnly, auth, None) == Run([IsAdminOrManager], auth, Some(auth.user));
    }
  }

  /** `/login` is the one auth route without `protect`; `/logout` needs only a session, and
      the other four need an admin. */
  lemma UserRouterPolicy()
    ensures forall r :: r in UserRoutes ==> (r.chain == Open <==> r.path == "/login")
    ensures forall r :: r in UserRoutes ==> (r.chain == SessionOnly <==> r.path == "/logout")
    ensures forall r :: r in UserRoutes && r.path != "/login" && r.path != "/logout" ==> r.chain == AdminOnly
  {
  }

  /** Task search, "my tasks" and the status update need only a session (the status
      update's ownership rule lives in its handler); the other task routes need an admin
      or manager. */
  lemma TaskRouterPolicy()
    ensures forall r :: r in TaskRoutes ==>
      (r.chain == SessionOnly <==> r.path in ["/search", "/my-tasks", "/update-status/:taskId"])
    ensures forall r :: r in TaskRoutes ==> r.chain == SessionOnly || r.chain == AdminOrManagerOnly
  {
  }

  /** Every project route is behind `protect`; all but "my projects" need an admin or manager. */
  lemma ProjectRouterPolicy()
    ensures forall r :: r in ProjectRoutes ==> (r.chain == SessionOnly <==> r.path == "/my-projects")
    ensures forall r :: r in ProjectRoutes ==> r.chain == SessionOnly || r.chain == AdminOrManagerOnly
  {
  }

  /** Every company route needs an admin. */
  lemma CompanyRouterPolicy()
    ensures forall r :: r in CompanyRoutes ==> r.chain == AdminOnly
  {
  }

  /** No chain runs a role gate before `protect` has set `req.user`. */
  lemma ProtectPrecedesEveryGate(chain: seq<Step>)
    requires chain in [Open, SessionOnly, AdminOnly, AdminOrManagerOnly]
    ensures forall k :: 0 <= k < |chain| && chain[k] != Protect ==> Protect in chain[..k]
  {
    if chain == AdminOnly || chain == AdminOrManagerOnly {
      assert chain[..1] == [Protect];
    }
  }

  /** A member is turned away from project creation with the fixed 403. */
  lemma MemberCannotCreateProject(auth: AM.AuthResult)
    requires auth.Admitted? && auth.user.role == Member
    ensures Run(ProjectCreate.chain, auth, None) == Stopped(Reply(403, AP.AdminsOrManagersOnly))
  {
    ChainDecisions(auth);
  }

  /** A manager is refused on every company route. */
  lemma ManagerDeniedEveryCompanyRoute(auth: AM.AuthResult)
    requires auth.Admitted? && auth.user.role == Manager
    ensures forall r :: r in CompanyRoutes ==> Run(r.chain, auth, None) == Stopped(Reply(403, AP.AdminsOnly))
  {
    ChainDecisions(auth);
    CompanyRouterPolicy();
  }

  /** Any authenticated user reaches the status-update handler, whatever their role. */
  lemma StatusUpdateHasNoRoleGate(auth: AM.AuthResult)
    requires auth.Admitted?
    ensures Run(TaskUpdateStatus.chain, auth, None) == Reached(Some(auth.user))
  {
    ChainDecisions(auth);
  }
}
