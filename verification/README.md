# Project-management API: authorization and session core

This project models, in Dafny, the authorization and session core of a small Express +
Mongoose project-management service. In that service companies own users, users create
projects, and tasks are assigned to users inside projects. The model covers:

- **`protect`** (`AuthMiddleware.Protect`). This middleware reads the
  `Authorization: Bearer <token>` header and verifies the JWT. It then looks up the user
  by the email claim. It admits the request only if the presented token is the token
  stored on that user. Login overwrites the stored token and logout clears it, so a user
  has at most one live session. Module `AuthMiddleware` proves this, together with login
  and logout in `UserControllers`.
- **The role gates** `isAdmin` and `isAdminOrManager` (module `AuthPermission`).
- **The four routers** (module `Routes`). Each route is given as the middleware chain in
  front of its handler, together with what running a chain decides.
- **The user, task and project handlers** (modules `UserControllers`, `TaskControllers`
  and `ProjectControllers`). They run over an in-memory store, `Store.Db`. The store has
  one `seq` per collection, in natural (insertion) order, and an ObjectId counter.
  - Every write goes through a `Db` method. It first applies the schema's setters
    (`trim`, `lowercase`), then its validation (`required`, `enum`, the unique index on
    `email`).
  - A write that fails changes nothing.
  - Each `Db` method keeps the table invariants in `Models`: every record passes its
    schema, ids are below the counter and grow in insertion order, and emails are unique.
- **Shared helpers.** The page arithmetic shared by the listing handlers is in
  `Pagination`. The string operations the setters and the header parsing need are in
  `Strings`. The `findOne`/`find`/delete primitives are in `Collections`.

How the handlers are modelled:

- Each handler is a method over `Db`.
- It returns a `Reply(status, message)`, or `Unhandled` where the handler throws
  outside any `catch`. Under Express 4 the request is then never answered; see
  "## Left out" for this assumption.
- It states the whole new store state for every outcome.
- Replies that carry data rather than a message have the message `""`.

External services are parameters:

- **JWT verification** is a `Verifier`. This map sends each token that currently
  verifies (good signature, not expired) to its email claim.
- **The token issued at login** is a parameter of `LoginUser`.
- **bcrypt** is `Models.Hash`/`Models.Compare`, with the salt as a parameter.

## Model

| member | source | states |
|---|---|---|
| Strings.Lower | models/user.js:15-20 | the lowercase setter: the result has the input's length, holds no upper-case letter, and maps each character through `LowerChar` |
| Strings.LowerOfLowercase | models/user.js:19 | lowercasing an already lowercase string returns it unchanged |
| Strings.LowerIdempotent | models/user.js:19 | lowercasing twice is lowercasing once |
| Strings.Trim | models/user.js:10-14 | the trim setter: the result is trimmed, is empty exactly when the input is all white space, is no longer than the input, and leaves an already trimmed string as it is |
| Strings.TrimCutsSpace | models/user.js:10-14 | what `Trim` returns is the input cut after a run of leading whitespace and before a run of trailing whitespace, so trimming removes whitespace and nothing else |
| Strings.Split | middlewares/authMiddleware.js:11 | `split(' ')` always yields at least one field |
| Strings.UpTo | middlewares/authMiddleware.js:11 | the text before the first separator: a separator-free prefix of the input, followed in the input by the separator or the end |
| Strings.SplitFirstField | middlewares/authMiddleware.js:11 | the first field of a split is the text before the first separator |
| Strings.SplitAfterWord | middlewares/authMiddleware.js:11 | splitting `word + sep + rest` peels off `word` as the first field and splits `rest` |
| Collections.Find | controllers/userControllers.js:73 | `findOne`: the first index whose record matches, and `None` exactly when no record matches |
| Collections.Filter | controllers/taskControllers.js:146 | `find`: exactly the records that match |
| Collections.FilterKeepsOrder | controllers/taskControllers.js:146 | `find` keeps natural order: any relation between every earlier and later record of the collection still holds between the records it returns |
| Collections.FilterKeepsAll | controllers/taskControllers.js:98-100 | a filter every record passes returns the whole collection |
| Collections.RemoveAt | controllers/userControllers.js:156 | a delete: the records before `k`, then the records after it |
| Collections.Reverse | controllers/taskControllers.js:58 | `sort({ createdAt: -1 })` over records stored in creation order: item `j` is item `n-1-j` of the input |
| Models.Hash | controllers/userControllers.js:42 | `bcrypt.hash(password, 10)`: a cost-10 digest that `Compare` accepts for the hashed password and for no other |
| Models.HashCompare | controllers/userControllers.js:79 | `bcrypt.compare` accepts the password a digest was made from and no other |
| Models.UserOk | models/user.js:9-38 | the user schema: a `required`, trimmed, non-empty name, a `required` lowercase email, and a role in the `enum` 1, 2, 3 |
| Models.CompanyOk | models/company.js:4-15 | the company schema: name and domain `required`, trimmed and non-empty |
| Models.ProjectOk | models/project.js:3-29 | the project schema: name and description `required`, trimmed and non-empty |
| Models.TaskOk | models/task.js:3-32 | the task schema: title and description `required`, trimmed and non-empty, and a status in the `enum` 1, 2, 3 |
| Models.UsersOk | models/user.js:15-20 | the users invariant: every user passes its schema, ids lie below the id counter and grow in insertion order, and no two users share an email (the `unique` index) |
| Models.CompaniesOk | models/company.js:4-15 | the companies invariant: every company passes its schema, and ids lie below the counter and grow in insertion order |
| Models.ProjectsOk | models/project.js:3-29 | the projects invariant: every project passes its schema, and ids lie below the counter and grow in insertion order |
| Models.TasksOk | models/task.js:3-32 | the tasks invariant: every task passes its schema, and ids lie below the counter and grow in insertion order |
| Models.EmailDeterminesUser | models/user.js:15-20 | under the unique index, two users with the same email are the same user |
| Models.UsersAppend | models/user.js:9-38 | adding a valid user with a fresh id and an unused email keeps the users invariant |
| Models.UsersReplace | models/user.js:9-38 | replacing a user by a valid record with the same id and an email no other user holds keeps the invariant |
| Models.UsersRemove | models/user.js:9-38 | deleting a user keeps the invariant |
| Models.CompaniesAppend | models/company.js:4-15 | adding a valid company with a fresh id keeps the companies invariant |
| Models.ProjectsAppend | models/project.js:3-29 | adding a valid project with a fresh id keeps the projects invariant |
| Models.ProjectsReplace | models/project.js:3-29 | replacing a project by a valid record with the same id keeps the invariant |
| Models.ProjectsRemove | models/project.js:3-29 | deleting a project keeps the invariant |
| Models.TasksAppend | models/task.js:3-32 | adding a valid task with a fresh id keeps the tasks invariant |
| Models.TasksReplace | models/task.js:3-32 | replacing a task by a valid record with the same id keeps the invariant |
| Models.TasksRemove | models/task.js:3-32 | deleting a task keeps the invariant |
| Store.Db.CreateUser | models/user.js:9-38 | `User.create` stores the trimmed name and the lowercased email under the next id. It succeeds exactly when that record passes the schema and no user holds the email; otherwise nothing changes |
| Store.Db.SaveUser | models/user.js:15-20 | `user.save()` replaces the record exactly when it passes the schema and no other user holds its email; otherwise nothing changes |
| Store.Db.DeleteUserAt | controllers/userControllers.js:156 | removes exactly that user and keeps the store invariant |
| Store.Db.CreateCompany | models/company.js:4-15 | `Company.create` stores the trimmed name and domain exactly when neither is blank |
| Store.Db.CreateProject | models/project.js:3-29 | `Project.create` stores the trimmed name and description exactly when both are non-blank |
| Store.Db.SaveProject | models/project.js:3-29 | `project.save()` replaces the record exactly when it passes the schema |
| Store.Db.DeleteProjectAt | controllers/projectControllers.js:91 | removes exactly that project |
| Store.Db.CreateTask | models/task.js:3-32 | `Task.create` stores the trimmed texts exactly when both are non-blank and the status is 1, 2 or 3 |
| Store.Db.SaveTask | models/task.js:3-32 | `task.save()` replaces the record exactly when it passes the schema |
| Store.Db.DeleteTaskAt | controllers/taskControllers.js:126 | removes exactly that task |
| AuthPermission.IsAdmin | middlewares/authPermission.js:4-9 | passes exactly role 1; otherwise 403 "Access denied. Admins only." |
| AuthPermission.IsAdminOrManager | middlewares/authPermission.js:12-17 | passes exactly roles 1 and 2; otherwise 403 "Access denied. Admins or Managers only." |
| AuthPermission.AdminGateImpliesAdminOrManagerGate | middlewares/authPermission.js:4-17 | whoever passes `isAdmin` passes `isAdminOrManager` |
| AuthPermission.MemberDeniedByBothGates | middlewares/authPermission.js:4-17 | a member (role 3) gets each gate's 403 |
| AuthPermission.GatesOverRoleDomain | middlewares/authPermission.js:4-17 | over the schema's roles, `isAdminOrManager` refuses exactly members and `isAdmin` exactly managers and members |
| AuthMiddleware.BearerToken | middlewares/authMiddleware.js:5-11 | no token exactly when the header is absent or does not start with `Bearer `; otherwise the text after `Bearer ` up to the next space |
| AuthMiddleware.BearerTokenShape | middlewares/authMiddleware.js:11 | the token holds no space and the header begins with `Bearer ` followed by the token |
| AuthMiddleware.LiveSession | middlewares/authMiddleware.js:13-19 | a token is live when it verifies and the user its email claim names holds it as the stored token |
| AuthMiddleware.Protect | middlewares/authMiddleware.js:4-27 | 401 "No token provided", then "Invalid token" for an empty token or one that does not verify, then "Unauthorized user or token mismatch". It admits exactly when the token is non-empty, verifies and is the token stored on the user its claim names, and the admitted user is that stored user |
| AuthMiddleware.SetToken | controllers/userControllers.js:92-93 | storing or clearing one user's token changes that field only; every email and every other user stay |
| AuthMiddleware.SetTokenKeepsInvariant | controllers/userControllers.js:92-93 | writing a token keeps the users invariant |
| AuthMiddleware.ReplacedTokenRejected | middlewares/authMiddleware.js:16-19 | once a user's stored token is replaced or cleared, every other token claiming that user is refused, however valid its signature |
| AuthMiddleware.StoredTokenLive | controllers/userControllers.js:85-93 | the token just stored is live (`LiveSession`) while it verifies with that user's email as claim; `Protect` admits it when it is also non-empty |
| AuthMiddleware.OtherSessionsUnaffected | middlewares/authMiddleware.js:16-19 | changing one user's token leaves every session of every other user as it was |
| AuthMiddleware.AtMostOneLiveToken | models/user.js:15-37 | at any moment at most one token is live per user |
| Routes.Run | routes/userRoutes.js:7-12 | how Express runs `router.METHOD(path, ...chain, handler)`: each step passes the request on or answers it. `protect` answers its own refusal and sets the user; a gate answers 403 for a role it refuses, and a gate reached with no user throws (500); a chain that runs out reaches the handler |
| Routes.ReachedOnlyIfAuthorized | routes/userRoutes.js:7-12 | a handler is reached with a user only if `protect` admitted that user and the user passes every gate in the chain. A chain that reaches a handler without a prior user contains `protect` |
| Routes.ProtectFirstStopsRejected | routes/taskRoutes.js:7-13 | a chain starting with `protect` answers a refused request with `protect`'s own 401 |
| Routes.ChainDecisions | routes/projectRoutes.js:7-11 | the four chain shapes decide, respectively: always reach; reach with `protect`'s user; reach only with an admin, else 403; reach only with an admin or manager, else 403 |
| Routes.UserRouterPolicy | routes/userRoutes.js:7-12 | `/login` is the only open auth route and `/logout` the only session-only one; the other four need an admin |
| Routes.TaskRouterPolicy | routes/taskRoutes.js:7-13 | search, "my tasks" and the status update need only a session; every other task route needs an admin or manager |
| Routes.ProjectRouterPolicy | routes/projectRoutes.js:7-11 | every project route is behind `protect`; all but "my projects" need an admin or manager |
| Routes.CompanyRouterPolicy | routes/companyRoutes.js:10-14 | every company route needs an admin |
| Routes.ProtectPrecedesEveryGate | routes/taskRoutes.js:7-13 | in every chain the routers use, `protect` runs before any role gate reads `req.user` |
| Routes.MemberCannotCreateProject | routes/projectRoutes.js:7 | a member is refused project creation with the admins-or-managers 403 |
| Routes.ManagerDeniedEveryCompanyRoute | routes/companyRoutes.js:10-14 | a manager gets the admins-only 403 on every company route |
| Routes.StatusUpdateHasNoRoleGate | routes/taskRoutes.js:12 | any authenticated user reaches the status-update handler |
| Pagination.CeilDiv | controllers/projectControllers.js:46 | `Math.ceil(total / limit)`: the fewest pages of `limit` items that hold `total` items; zero exactly when `total` is zero |
| Pagination.Paginate | controllers/projectControllers.js:31-33 | page and limit default to 1 and 10 when absent or zero; `skip = (page - 1) * limit`; the page count covers the total and is minimal |
| Pagination.ItemOnCountedPage | controllers/projectControllers.js:46 | item `k` lies on page `k / limit + 1`, which never exceeds the page count |
| Pagination.Window | controllers/projectControllers.js:39-41 | `.skip(skip).limit(limit)`: at most `limit` items, namely the items from position `skip` on |
| Pagination.PagesArePrefix | controllers/projectControllers.js:31-41 | pages 1 to `n` in sequence are exactly the first `n * limit` items: no item is skipped or repeated |
| Pagination.AllPagesCoverCollection | controllers/projectControllers.js:31-46 | reading every page the reply announces returns the whole collection in order |
| UserControllers.ParseRole | controllers/userControllers.js:23-26 | a role string maps only to a valid role number |
| UserControllers.ParseRoleAcceptsRoleNames | controllers/userControllers.js:8-12 | a role string is accepted exactly when its lowercase form is `admin`, `manager` or `member`, and it maps to 1, 2 or 3 respectively |
| UserControllers.ParseRoleName | controllers/userControllers.js:8-12 | each role's name parses back to that role |
| UserControllers.ParseRoleIgnoresCase | controllers/userControllers.js:23 | a role string and its lowercase form parse alike |
| UserControllers.RoleMapLookup | controllers/userControllers.js:8-12 | `roleMap[key]` as written: a role number exactly for the own keys `admin`, `manager` and `member`, agreeing with `ParseRole`; an object for the inherited keys, which name no role |
| UserControllers.InheritedKeyPassesRoleGuard | controllers/userControllers.js:23-26 | as written, a role that lowercases to `constructor` or `__proto__` gets past the `!roleNumber` guard with a non-number, although it names no role |
| UserControllers.ConstructorLowercasesToItself | controllers/userControllers.js:23 | `constructor` is such a role string |
| UserControllers.RoleLookupAgreesOnOwnKeys | controllers/userControllers.js:23-24 | the written lookup and `ParseRole` agree on every role string except the inherited keys |
| UserControllers.FindByEmail | controllers/userControllers.js:29 | `User.findOne({ email })` under the lowercase setter: a user with the lowercased email, and none exactly when no user holds it |
| UserControllers.FindByStoredEmail | controllers/userControllers.js:110 | a lookup by a stored email finds exactly the user holding it |
| UserControllers.RegistrationRefusal | controllers/userControllers.js:19-32 | every refusal is a 400. There is none exactly when all six fields are given, the role is valid and the email is unused. The checks run in source order: missing fields ("All fields are required"), then an unknown role ("Invalid role"), then an email already registered ("Email already registered") |
| UserControllers.FindCompany | controllers/userControllers.js:35 | `Company.findOne({ companyName, domain })` with the trim setters on the filter: a company with both trimmed values, and none exactly when no company has them |
| UserControllers.CompaniesAfter | controllers/userControllers.js:35-40 | the companies table after the company step only grows, by at most one company, which has the next id and the trimmed values; afterwards a company with the trimmed name and domain exists exactly when one did before or neither value is blank |
| UserControllers.CompanyFor | controllers/userControllers.js:35-40 | reuses the company with the trimmed name and domain. Otherwise it creates one when neither is blank, and otherwise it changes nothing. In every case the companies table becomes `CompaniesAfter`: unchanged, or grown by exactly that one company |
| UserControllers.AcceptedUserValid | controllers/userControllers.js:42-51 | once the registration checks pass, the user to be created passes the schema exactly when the trimmed name is not blank, and its email is free |
| UserControllers.CreateAccount | controllers/userControllers.js:35-63 | the writes after the checks. The companies table becomes `CompaniesAfter` whether or not the user is created. It answers 201 exactly when the trimmed name is non-blank and a company was found or could be created; otherwise the request is unanswered and the users are unchanged. On 201 the one added user has the next id, the trimmed name, the lowercased email, the bcrypt digest of the password, the parsed role and the company's id, with no token |
| UserControllers.RegisterUser | controllers/userControllers.js:16-64 | a refusal changes nothing. Otherwise the companies table is reused or grown by exactly one company, as `CompaniesAfter` says, even when the request goes unanswered. It answers 201 exactly when the trimmed name is non-blank and a company was found or could be created. On 201 the one added user has the next id, the trimmed name, the lowercased email, the bcrypt digest of the password, the parsed role and the company's id, with no token. An unanswered request leaves the users unchanged |
| UserControllers.LoginLookup | controllers/userControllers.js:73 | `User.findOne({ email })` for the login body: a user holding the lowercased email, and none exactly when the body has no email or no user holds it |
| UserControllers.LoginUser | controllers/userControllers.js:68-105 | an unknown email and a wrong password get the same 400 and change nothing; a missing password gets a 500. The right password stores the issued token on that user alone and returns it |
| UserControllers.LogoutUser | controllers/userControllers.js:108-123 | 401 unless the user found by email still holds the presented token; otherwise that user's token is cleared and nothing else changes |
| UserControllers.AdmittedRequestLogsOut | controllers/userControllers.js:110-112 | for a request `protect` admitted, logout finds that very user still holding the token, so it succeeds |
| UserControllers.GetAllUsers | controllers/userControllers.js:126-149 | one page of users in natural order, with the page numbers of `Paginate` and without passwords or tokens |
| UserControllers.RemovingFoundUser | controllers/userControllers.js:156 | removing the user found by id keeps exactly the users with other ids |
| UserControllers.DeleteUser | controllers/userControllers.js:152-166 | 404 when no user has the id. Otherwise exactly that user is removed, with 200; projects and tasks are untouched |
| UserControllers.ApplyUserUpdate | controllers/userControllers.js:181-191 | only the supplied name (trimmed), email (lowercased) and role change; id, password, company and token stay |
| UserControllers.UpdateUser | controllers/userControllers.js:169-208 | 404 when no user has the id, then 400 for an unknown role. Then 500 with nothing saved for a blank name or an email another user holds, otherwise 200 with the patched record in place |
| TaskControllers.FindUserByName | controllers/taskControllers.js:16 | `User.findOne({ userName })` with the trim setter on the filter: the first user with the trimmed name, and none exactly when no user has it |
| TaskControllers.FindProjectByName | controllers/taskControllers.js:22 | `Project.findOne({ name })` with the trim setter on the filter: the first project with the trimmed name, and none exactly when no project has it |
| TaskControllers.CreateTask | controllers/taskControllers.js:6-41 | 400 for a missing field, then 404 for an unknown assignee, then 404 for an unknown project. Otherwise the task is stored with the next id, trimmed texts and both references (201), or 500 when it fails the schema |
| TaskControllers.GetAllTasks | controllers/taskControllers.js:45-72 | one page of all tasks, newest first, with the page numbers of `Paginate` |
| TaskControllers.AllTasksNewestFirst | controllers/taskControllers.js:58 | within a page, ids strictly decrease |
| TaskControllers.StatusCode | controllers/taskControllers.js:90-96 | the status filter is accepted exactly when it is "1", "2" or "3" |
| TaskControllers.BuildQuery | controllers/taskControllers.js:78-96 | a named assignee must exist (else 404), then a given status must be "1", "2" or "3" (else 400), and the query is built exactly when neither refusal applies. It filters on the id of the first user with the trimmed name when a name is given, and on the parsed status when one is given |
| TaskControllers.Matches | controllers/taskControllers.js:98-100 | the Mongo filter `query`: a task matches when it has the query's assignee, if one is set, and the query's status, if one is set |
| TaskControllers.SearchTasks | controllers/taskControllers.js:74-117 | refusals come from `BuildQuery`. Otherwise it counts the matching tasks and returns them newest first, cut to the page. A limit of 0 returns every match, with no page count; a page of 0 gets a 500 |
| TaskControllers.SearchNewestFirst | controllers/taskControllers.js:100-105 | within a page of search results, ids strictly decrease: the matches keep creation order and the page lists them newest first |
| TaskControllers.UnfilteredSearchCountsAll | controllers/taskControllers.js:78-98 | a search with neither filter builds the empty query, which counts every task |
| TaskControllers.SearchResultsMatch | controllers/taskControllers.js:98-105 | every task a search returns is stored and satisfies both filters of the query |
| TaskControllers.DeleteTask | controllers/taskControllers.js:121-137 | 404 when no task has the id; otherwise exactly that task is removed, with 200 |
| TaskControllers.AssignedTo | controllers/taskControllers.js:146 | the filter `{ assignedTo: userId }`: a task matches when it is assigned to that user |
| TaskControllers.GetUserTasks | controllers/taskControllers.js:141-157 | exactly the tasks assigned to the authenticated user, in natural order (the `find` of `AssignedTo`, so `FilterKeepsOrder` applies); 404 instead of an empty list |
| TaskControllers.AssigneeSeesOwnTask | controllers/taskControllers.js:146-150 | a user with an assigned task finds it and never gets the 404 |
| TaskControllers.UpdateTaskStatus | controllers/taskControllers.js:161-188 | 404 for an unknown task, then 403 unless the user is the assignee. A valid status changes that field only (200); any other status gets a 500 with nothing saved |
| TaskControllers.ApplyTaskUpdate | controllers/taskControllers.js:204-225 | each supplied field replaces the stored one, with texts trimmed; the id never changes |
| TaskControllers.EmptyTaskUpdateKeepsTask | controllers/taskControllers.js:223-225 | an update that supplies nothing keeps the task |
| TaskControllers.UpdateTask | controllers/taskControllers.js:193-234 | 404 for an unknown task, a named assignee that does not exist or a named project that does not exist, in that order. Then 200 with the patched task in place, or 500 with nothing saved when it fails the schema |
| ProjectControllers.CreateProject | controllers/projectControllers.js:5-24 | 404 for an unknown user, and 500 for a user without a company. Otherwise the project is stored, created by that user and belonging to that user's company (201), or 500 for a blank name or description |
| ProjectControllers.GetAllProjects | controllers/projectControllers.js:28-58 | one page of projects in natural order, with the page numbers of `Paginate` |
| ProjectControllers.CreatedBy | controllers/projectControllers.js:67 | the filter `{ createdBy: userId }`: a project matches when that user created it |
| ProjectControllers.GetProjectsByUser | controllers/projectControllers.js:63-75 | always 200, with exactly the projects the user created, in natural order (the `find` of `CreatedBy`) |
| ProjectControllers.CreatorSeesOwnProject | controllers/projectControllers.js:67 | every project appears in its creator's list |
| ProjectControllers.DeleteProject | controllers/projectControllers.js:78-98 | 404 for an unknown project; otherwise exactly that project is removed and its tasks stay |
| ProjectControllers.ApplyProjectUpdate | controllers/projectControllers.js:116-117 | `name \|\| project.name` and the same for the description, each through the trim setter; id, creator and company stay |
| ProjectControllers.EmptyProjectUpdateKeepsProject | controllers/projectControllers.js:116-117 | an update that supplies nothing keeps a stored project as it is |
| ProjectControllers.UpdateProject | controllers/projectControllers.js:102-127 | 404 for an unknown project. A supplied name or description that trims to nothing gets a 500 with nothing saved; otherwise 200 with the patched project in place |

## Left out

- JWT signing and verification, and the one-day expiry, are abstracted into the `Verifier` map (the tokens that currently verify and their claims). Which tokens are issued is a parameter of `LoginUser`. The library's refusal of an empty token is modelled in `Protect`, whatever the map holds.
- bcrypt is an ideal one-way function (`Hash`/`Compare`). Salts are parameters, and the digest's text format is not modelled.
- Models.HashCompare: real bcrypt reads only the first 72 bytes of a password, so two passwords that agree on those bytes both match a digest. The model's oracle accepts exactly one password.
- UserControllers.RegisterUser and UserControllers.UpdateUser parse the role with the corrected `ParseRole`. For a role such as "constructor" they answer 400, whereas the code as written passes the guard and then fails; see Findings.
- `Lower` and `Trim` cover ASCII letters and ASCII white space only. There is no Unicode case mapping, and no Unicode spaces beyond those.
- The `trim` and `lowercase` setters are taken to apply to query filters as well as to stored values.
- Login with a body lacking an email is modelled as matching no user. How Mongoose treats an `undefined` filter value is not modelled.
- `project.remove()` in `deleteProject` is modelled as a delete of that document. It follows the Mongoose versions in which documents still have `remove`.
- Query-string `page` and `limit` are the non-negative integers they parse to, with `None` for an absent or non-numeric value.
  - Negative values are not modelled.
  - Neither is `searchTasks`'s arithmetic on the raw strings, such as a `limit` like `"5abc"`.
- `populate`, `select` projections other than the user list, and the timestamps are left out.
  - `createdAt` order is modelled as reverse insertion order, which it is for records created one after another.
- Response bodies beyond status and message are not modelled. Data-bearing replies carry the message `""`.
- ObjectId cast errors (a malformed `:id`) and the cast error of a non-numeric task `status` are left out. Ids are naturals, and statuses are integers.
- TaskControllers.UpdateTaskStatus takes the status as an integer, so a body without a status (which the schema would not reject) is not covered.
- The default role (member), the default task status (to-do) and the default `companyId` (null) are declared but never exercised. Every handler that creates a record supplies those fields, and an absent `companyId` is `None`.
- Company handlers (`controllers/companyControllers.js`) are not part of this model. Only their routes' chains are.
- Server start-up, database connection, `console.log`, and the error text a `catch` attaches are not modelled.
- Concurrency is not modelled: each handler runs alone against the store.
- When the user creation in `registerUser` fails, the model records `Unhandled`: the request gets no reply, and a company created just before stays (`CompaniesAfter`).
  - This follows Express 4, which does not catch a rejected promise from an async handler. The Express version is not recorded in the source.
  - Under Express 5 the default error handler would answer 500 instead.
  - On Node 15 or later, Express 4's unhandled rejection also ends the process by default. That is not modelled.

## Findings

| source | as written | input that shows it | evidently intended | confidence | as-written member | corrected member |
|---|---|---|---|---|---|---|
| controllers/userControllers.js:23-26 | `roleMap[role.toLowerCase()]` indexes a plain object literal, so it also finds the members every object inherits. The `!roleNumber` guard only tests truthiness, so such a member gets through. The same code is at lines 181-186. | role `"constructor"` (or `"__proto__"`): the lookup yields a function or object, the guard passes, and the role cast in `User.create`/`save` then fails. Registration is never answered, and update answers 500 instead of 400 "Invalid role" | only `admin`, `manager` and `member`, in any case, are accepted; anything else gets 400 "Invalid role. Use admin, manager, or member" | not executed | UserControllers.InheritedKeyPassesRoleGuard (over UserControllers.RoleMapLookup) | UserControllers.ParseRole, with UserControllers.ParseRoleAcceptsRoleNames |
