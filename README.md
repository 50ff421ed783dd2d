# SecureLMS backend: authentication, role gate and ownership-scoped CRUD

This Dafny project models the request-handling core of the BuildBytes LMS API
(`backend/server.py`). The model runs against an abstract in-memory document
store instead of MongoDB. It covers:

- the password policy applied at registration;
- `get_current_user`, which turns a decoded bearer token into a stored user or
  a 401, and `require_mentor`, which turns every non-mentor away with 403;
- `register` and `login`;
- the handlers that change the store: role update, and subject-category
  create/update/delete with the creator-only checks, project creation and task
  creation;
- the project listing with its student visibility filter, and the dashboard
  counts.

Layout, one module per file:

- `http.dfy` (`Http`): `Option` (Python's `Optional`), `Error` (an
  `HTTPException`: status code and detail text), `Result`.
- `password.dfy` (`Password`): `validate_password` and the reference rule it
  meets.
- `documents.dfy` (`Documents`): the user, category, project and task
  documents; `find_one` as a first-match lookup; the store invariant.
- `auth.dfy` (`Auth`): token claims and decoded tokens, `get_current_user`,
  the mentor gate, `login`, and the lemmas that connect them.
- `catalog.dfy` (`Catalog`): request bodies, the `update_data`/`$set` merge,
  the `get_projects` filter, `find` and `count_documents`.
- `dashboard.dfy` (`Dashboard`): `get_dashboard_stats`.
- `server.dfy` (`Server`): class `Database`. It holds the four collections as
  sequence fields. Its methods are the handlers that write, each with a
  `modifies` frame on the one collection it writes. Each method states the
  result and the new state on every branch. Each rejected request leaves the
  store unchanged. `Valid()` (the store invariant) is kept by every method.
- `scenarios.dfy` (`Scenarios`): two clients that use only the contracts: the
  role "admin" is rejected, and a student token is refused by a mentor-only
  handler.

The store invariant (`Documents.StoreInvariant`) says:

- every user id is non-empty;
- ids are distinct within each collection;
- no two users share an email;
- every stored role is "mentor" or "student";
- every `created_by` names a stored user;
- every project's `subject_category_id` names a stored category;
- every task's `project_id` names a stored project.

Calls the model cannot see become parameters:

- `uuid4()` becomes a `newId` argument. It must be non-empty and unused
  (`FreshId`), which is what uuid4 is trusted to give.
- `utcnow()` becomes a `now` argument.
- `hash_password` becomes the `digest` argument of `Register`.
- `verify_password` becomes the `checkpw` function argument of `Login`.
- `verify_token` becomes a `DecodedToken` argument: `Expired`, `Invalid`, or
  the decoded payload with its optional `user_id`.

The model follows the code's own status codes and detail strings.
`get_current_user` answers a bad payload and a missing user with the same
401 status and different detail strings. Category deletion blocked by a
project is a 400. Role changes take effect on the next request, because the
role is re-read from the store each time and not carried in the token.
Registration accepts "mentor" from any caller, and a registration that leaves the role out is a student (`Server.RegistrationDefaults`). No role may override the
creator-only check on categories.

## Model

| member | source | states |
|---|---|---|
| Password.ContainsInRange | backend/server.py:56-60 | the class search finds a match iff some character of the string lies in the class's range |
| Password.ValidatePassword | backend/server.py:52-62 | true iff the password has at least 8 characters, an ASCII upper-case letter, an ASCII lower-case letter and a digit; any password under 8 characters is rejected |
| Password.Examples | backend/server.py:52-62 | a 7-character password with all three classes is rejected; "ValidPass123" is accepted |
| Documents.FindFirst | backend/server.py:202 | find_one gives the first matching document, and None exactly when no document matches |
| Documents.UserByIdUnique | backend/server.py:202 | with distinct ids, the lookup by a user's id finds that user |
| Auth.CurrentUser | backend/server.py:188-220 | an expired or invalid token keeps its own 401; a payload with no user_id or an empty one gives 401 "Invalid token payload"; an id no user has gives 401 "User not found"; otherwise the result is the stored user with that id, without its password |
| Auth.MentorGate | backend/server.py:223-229 | authentication errors pass through; a resolved user whose role is not "mentor" gets 403; a mentor passes as the user resolved |
| Auth.Login | backend/server.py:291-324 | every rejection is the same 401 "Invalid email or password", and an unknown email is rejected; a success returns a bearer token for a stored user with that email whose digest accepts the password, and that user's fields |
| Auth.LoginSucceedsIff | backend/server.py:293-306 | with unique emails, login succeeds iff some stored user has the email and a digest that accepts the password |
| Auth.LoginTokenResolves | backend/server.py:308-318 | the token from a successful login resolves, through get_current_user, to the user login returned |
| Auth.RegisteredUserCanLogIn | backend/server.py:261-270 | a user stored by registration logs in with a password its digest accepts and gets its own record back |
| Auth.DemotedUserLosesMentorAccess | backend/server.py:351-354 | once a user's stored role is set to "student", that user's token is refused by the mentor gate with 403 |
| Catalog.UpdateData | backend/server.py:409 | update_data holds exactly the fields whose value is not None, with those values; empty strings are kept |
| Catalog.SetFields | backend/server.py:409-414 | the `$set` of update_data, whose keys are only the four SubjectCategoryUpdate fields, never changes id, created_by or created_at |
| Catalog.MergeFieldwise | backend/server.py:408-414 | a category update overwrites each field given in the request and keeps every other field |
| Catalog.MergeIdempotent | backend/server.py:408-414 | applying the same update twice gives the same category as applying it once |
| Catalog.ProjectQuery | backend/server.py:451-457 | the filter names the category iff the parameter is present and non-empty, and names the caller iff the caller is a student |
| Catalog.Select | backend/server.py:459 | find returns exactly the projects matching the filter |
| Catalog.CountWhere | backend/server.py:523-536 | count_documents is at most the collection size, and 0 iff no document matches |
| Catalog.CountAppend | backend/server.py:523-536 | the count over two parts of a collection is the sum of the counts over each part |
| Catalog.CountSingle | backend/server.py:523-536 | a single document counts 1 when it matches and 0 otherwise; with CountAppend this fixes count_documents as the number of matching documents |
| Catalog.CountAfterInsert | backend/server.py:523-536 | inserting a document raises the count by one exactly when it matches |
| Catalog.CountIsSelectLength | backend/server.py:535 | counting the projects that match a filter gives the length of the list find returns for it |
| Catalog.GetProjects | backend/server.py:445-460 | authentication errors pass through; otherwise the listing holds exactly the stored projects that match the caller's filter |
| Catalog.StudentSeesAssignedOnly | backend/server.py:455-457 | a student sees a project iff it lists them in assigned_students and lies in the requested category, if one is given |
| Catalog.MentorSeesAll | backend/server.py:451-453 | a mentor sees every project in the requested category, or every project when none is given |
| Dashboard.DashboardStats | backend/server.py:518-542 | authentication errors pass through; a mentor gets the category and project totals and total_students, the count of users whose role is "student"; anyone else gets an assigned-project count and completed_tasks, the count of tasks whose status is "approved" |
| Dashboard.AssignedCountMatchesListing | backend/server.py:535 | a student's assigned_projects equals the length of their unfiltered project listing |
| Dashboard.NewStudentRaisesTotal | backend/server.py:525 | storing one more user raises a mentor's total_students by one when that user is a student, and leaves it unchanged otherwise |
| Dashboard.NewApprovalRaisesCompleted | backend/server.py:536 | approving one task that was not approved raises every student's completed_tasks by exactly one |
| Dashboard.CompletedTasksIgnoresCaller | backend/server.py:536 | completed_tasks is the same for every student: it counts approved tasks over all projects |
| Server.AppendUserKeepsInvariant | backend/server.py:249-270 | storing a user with a fresh id, a valid role and an email nobody has keeps the store invariant, email uniqueness included |
| Server.SetRoleKeepsInvariant | backend/server.py:348-354 | setting a user's role to mentor or student keeps the store invariant |
| Server.AppendCategoryKeepsInvariant | backend/server.py:371-377 | storing a category with a fresh id, created by a stored user, keeps the store invariant |
| Server.ReplaceCategoryKeepsInvariant | backend/server.py:409-414 | replacing a category by one with the same id and creator keeps the store invariant |
| Server.RemoveCategoryIds | backend/server.py:441 | with distinct ids, delete_one on a category's id removes exactly that id from the collection |
| Server.RemoveCategoryKeepsInvariant | backend/server.py:433-441 | removing a category that no project refers to keeps every project's category reference valid, and removes exactly that id |
| Server.AppendProjectKeepsInvariant | backend/server.py:468-479 | storing a project whose category exists, with a fresh id, keeps the store invariant |
| Server.AppendTaskKeepsInvariant | backend/server.py:503-513 | storing a task whose project exists, with a fresh id, keeps the store invariant |
| Server.Database.Register | backend/server.py:232-288 | a weak password gives 400, then a bad role gives 400, then a taken email gives 409, each leaving users unchanged; otherwise exactly one user is appended, the response carries its fields but no password, and its token resolves to it |
| Server.Database.UpdateUserRole | backend/server.py:341-356 | a non-mentor is refused and a role outside mentor/student gives 400, each with no change; otherwise only the role of the user with that id changes, nothing changes if there is none, and success is reported either way |
| Server.Database.CreateCategory | backend/server.py:365-379 | a non-mentor is refused with no change; a mentor's category is appended with created_by set to the caller's id |
| Server.Database.UpdateCategory | backend/server.py:393-417 | a non-mentor is refused, a missing category gives 404 and a non-creator gives 403, each with no change; otherwise only that category changes, as the merge says, and the updated category is returned |
| Server.Database.DeleteCategory | backend/server.py:419-442 | a non-mentor, 404, 403, and 400 when a project refers to the category, each with no change; otherwise exactly that category is removed |
| Server.Database.CreateProject | backend/server.py:462-481 | a non-mentor is refused and a missing category gives 404, each with no change; otherwise the project is appended with created_by set to the caller's id |
| Server.Database.CreateTask | backend/server.py:497-515 | a non-mentor is refused and a missing project gives 404, each with no change; otherwise the task is appended with status "not_started" |

## Left out

- bcrypt hashing and checking (backend/server.py:65-75) are foreign calls. The digest is an argument to `Register` and the check is a function argument to `Login`. Salting, constant-time comparison and the hash/verify round trip are not modelled.
- JWT signing, signature checking and expiry (backend/server.py:78-104) happen inside the JWT library. The model takes the outcome of `verify_token` as a `DecodedToken`. An issued token is modelled by its `user_id` and `email` claims only, without `exp` and `iat`.
- The catch-all `except Exception` in `get_current_user` answers 401 "Could not validate credentials" when a stored user document cannot be rebuilt as a `User`. Stored documents here are typed values that always rebuild, so that branch is not modelled.
- `uuid4()` and `utcnow()` are arguments. Fresh ids are required to be non-empty and unused. uuid collisions are not modelled.
- Framework behaviour is not modelled: the response to a missing `Authorization` header, request-body validation and 422 responses, `EmailStr` normalisation, CORS, logging, configuration loading, and the MongoDB client.
- Requests run one at a time. `register` checks for the email and then inserts it, with no unique index behind it. Two concurrent registrations can therefore store one email twice. The model's email uniqueness holds only for requests run in sequence.
- The `to_list(1000)` cap on project listing and the `to_list(1)` in category deletion are not modelled. The second one only ever tests for emptiness.
- An update with every field None sends an empty `$set`. MongoDB 5.0 and later treat it as a no-op; older servers reject it. The model follows 5.0 and later.
- Handlers outside this core are not modelled: the root route, `/me`, listing and fetching categories, and listing tasks. Submissions, messages, resources, progress and certificates have no code in `server.py`.
- Roles stay strings, as in the source. The store invariant shows that only "mentor" and "student" are ever stored.
- Timestamps are integers. Task deadlines are optional integers.
