/** The handlers that change the store: registration, role update, and the
    mentor-only creation, update and deletion of catalog documents. Each runs
    its checks in the source's order and writes to one collection only once
    every check has passed. */
module Server {
  import opened Http
  import opened Documents
  import opened Auth
  import opened Catalog
  import Password

  /** UserRegistration; the role defaults to "student" when the client
      leaves it out. */
  datatype Registration = Registration(name: string, email: string, password: string, role: string)

  /** A registration body whose role was left out by the client. */
  function RegistrationDefaults(name: string, email: string, password: string): Registration {
    Registration(name, email, password, StudentRole)
  }

  const WeakPassword := Error(BadRequest,
    "Password must be at least 8 characters long and contain at least one uppercase letter, one lowercase letter, and one number")
  const BadRole := Error(BadRequest, "Role must be either 'mentor' or 'student'")
  const EmailTaken := Error(Conflict, "User with this email already exists")
  const InvalidRole := Error(BadRequest, "Invalid role")
  const CategoryNotFound := Error(NotFound, "Subject category not found")
  const NotCategoryCreatorUpdate := Error(Forbidden, "You can only update categories you created")
  const NotCategoryCreatorDelete := Error(Forbidden, "You can only delete categories you created")
  const CategoryInUse := Error(BadRequest, "Cannot delete category with associated projects")
  const ProjectNotFound := Error(NotFound, "Project not found")
  const NotStartedStatus := "not_started"

  /** The four collections of the document store. */
  class Database {
    var users: seq<UserDoc>
    var categories: seq<Category>
    var projects: seq<Project>
    var tasks: seq<Task>

    ghost predicate Valid()
      reads this
    {
      StoreInvariant(users, categories, projects, tasks)
    }

    constructor ()
      ensures Valid()
      ensures users == [] && categories == [] && projects == [] && tasks == []
    {
      users, categories, projects, tasks := [], [], [], [];
    }

    /** register: password policy, then role, then the email check; only then
        is the user stored, with the digest of the password (computed outside
        this model and passed in), and a token for it returned. */
    method Register(req: Registration, newId: Id, now: Time, digest: string) returns (r: Result<LoginResponse>)
      requires Valid()
      requires FreshId(newId, UserIds(users))
      modifies this`users
      ensures Valid()
      ensures !Password.ValidatePassword(req.password) ==> r == Err(WeakPassword)
      ensures Password.ValidatePassword(req.password) && !ValidRole(req.role) ==> r == Err(BadRole)
      ensures Password.ValidatePassword(req.password) && ValidRole(req.role) && UserByEmail(old(users), req.email).Some? ==>
        r == Err(EmailTaken)
      ensures r.Err? ==> users == old(users)
      ensures r.Ok? <==> Password.ValidatePassword(req.password) && ValidRole(req.role) && UserByEmail(old(users), req.email).None?
      ensures r.Ok? ==>
        && users == old(users) + [UserDoc(newId, req.email, req.name, req.role, digest, now)]
        && r.value == LoginResponse(Claims(newId, req.email), "bearer", User(newId, req.email, req.name, req.role, now))
      ensures r.Ok? ==> CurrentUser(users, Decode(r.value.accessToken)) == Ok(r.value.user)
    {
      if !Password.ValidatePassword(req.password) {
        return Err(WeakPassword);
      }
      if !ValidRole(req.role) {
        return Err(BadRole);
      }
      if UserByEmail(users, req.email).Some? {
        return Err(EmailTaken);
      }
      var doc := UserDoc(newId, req.email, req.name, req.role, digest, now);
      AppendUserKeepsInvariant(users, categories, projects, tasks, doc);
      users := users + [doc];
      UserByIdUnique(users, |users| - 1);
      r := Ok(LoginResponse(Claims(newId, req.email), "bearer", Public(doc)));
    }

    /** update_user_role: mentor only; the role must be mentor or student;
        then the user with that id, if there is one, gets the new role and
        the call reports success either way. */
    method UpdateUserRole(token: DecodedToken, userId: Id, role: string) returns (r: Result<string>)
      requires Valid()
      modifies this`users
      ensures Valid()
      ensures old(MentorGate(users, token)).Err? ==> r == Err(old(MentorGate(users, token)).error)
      ensures old(MentorGate(users, token)).Ok? && !ValidRole(role) ==> r == Err(InvalidRole)
      ensures r.Err? ==> users == old(users)
      ensures r.Ok? <==> old(MentorGate(users, token)).Ok? && ValidRole(role)
      ensures r.Ok? ==> r.value == "User role updated to " + role
      ensures r.Ok? ==> |users| == |old(users)|
      ensures r.Ok? ==> forall i :: 0 <= i < |users| ==>
        users[i] == if old(users)[i].id == userId then old(users)[i].(role := role) else old(users)[i]
      ensures r.Ok? && userId !in UserIds(old(users)) ==> users == old(users)
    {
      var gate := MentorGate(users, token);
      if gate.Err? {
        return Err(gate.error);
      }
      if !ValidRole(role) {
        return Err(InvalidRole);
      }
      var found := UserById(users, userId);
      if found.Some? {
        var k := found.value;
        SetRoleKeepsInvariant(users, categories, projects, tasks, k, role);
        users := users[k := users[k].(role := role)];
      }
      r := Ok("User role updated to " + role);
    }

    /** create_subject_category: mentor only; the new category records the
        caller as its creator. */
    method CreateCategory(token: DecodedToken, body: CategoryCreate, newId: Id, now: Time) returns (r: Result<Category>)
      requires Valid()
      requires FreshId(newId, CategoryIds(categories))
      modifies this`categories
      ensures Valid()
      ensures MentorGate(users, token).Err? ==> r == Err(MentorGate(users, token).error) && categories == old(categories)
      ensures MentorGate(users, token).Ok? ==>
        && r == Ok(Category(newId, body.name, body.description, body.color, body.icon, MentorGate(users, token).value.id, now))
        && categories == old(categories) + [r.value]
    {
      var gate := MentorGate(users, token);
      if gate.Err? {
        return Err(gate.error);
      }
      var c := Category(newId, body.name, body.description, body.color, body.icon, gate.value.id, now);
      AppendCategoryKeepsInvariant(users, categories, projects, tasks, c);
      categories := categories + [c];
      r := Ok(c);
    }

    /** update_subject_category: mentor only; the category must exist and
        have been created by the caller; then the fields given in the update
        are set and the updated category is returned. */
    method UpdateCategory(token: DecodedToken, categoryId: Id, upd: CategoryUpdate) returns (r: Result<Category>)
      requires Valid()
      modifies this`categories
      ensures Valid()
      ensures MentorGate(users, token).Err? ==> r == Err(MentorGate(users, token).error)
      ensures MentorGate(users, token).Ok? && categoryId !in CategoryIds(old(categories)) ==> r == Err(CategoryNotFound)
      ensures r.Err? ==> categories == old(categories)
      ensures forall k :: 0 <= k < |old(categories)| && old(categories)[k].id == categoryId && MentorGate(users, token).Ok? ==>
        if old(categories)[k].createdBy != MentorGate(users, token).value.id then
          r == Err(NotCategoryCreatorUpdate)
        else
          && categories == old(categories)[k := SetFields(old(categories)[k], UpdateData(upd))]
          && r == Ok(categories[k])
    {
      var gate := MentorGate(users, token);
      if gate.Err? {
        return Err(gate.error);
      }
      var found := CategoryById(categories, categoryId);
      if found.None? {
        NotFoundMeansAbsent(categories, categoryId);
        return Err(CategoryNotFound);
      }
      var k := found.value;
      if categories[k].createdBy != gate.value.id {
        return Err(NotCategoryCreatorUpdate);
      }
      var updated := SetFields(categories[k], UpdateData(upd));
      ReplaceCategoryKeepsInvariant(users, categories, projects, tasks, k, updated);
      categories := categories[k := updated];
      r := Ok(categories[k]);
    }

    /** delete_subject_category: mentor only; the category must exist, have
        been created by the caller and have no project referring to it; then
        it alone is removed. */
    method DeleteCategory(token: DecodedToken, categoryId: Id) returns (r: Result<string>)
      requires Valid()
      modifies this`categories
      ensures Valid()
      ensures MentorGate(users, token).Err? ==> r == Err(MentorGate(users, token).error)
      ensures MentorGate(users, token).Ok? && categoryId !in CategoryIds(old(categories)) ==> r == Err(CategoryNotFound)
      ensures r.Err? ==> categories == old(categories)
      ensures MentorGate(users, token).Ok? && CategoryById(old(categories), categoryId).Some? ==>
        var k := CategoryById(old(categories), categoryId).value;
        if old(categories)[k].createdBy != MentorGate(users, token).value.id then
          r == Err(NotCategoryCreatorDelete)
        else if exists p :: p in projects && p.subjectCategoryId == categoryId then
          r == Err(CategoryInUse)
        else
          && r == Ok("Subject category deleted successfully")
          && categories == old(categories)[..k] + old(categories)[k + 1..]
      ensures r.Ok? ==> CategoryIds(categories) == CategoryIds(old(categories)) - {categoryId}
    {
      var gate := MentorGate(users, token);
      if gate.Err? {
        return Err(gate.error);
      }
      var found := CategoryById(categories, categoryId);
      if found.None? {
        NotFoundMeansAbsent(categories, categoryId);
        return Err(CategoryNotFound);
      }
      var k := found.value;
      if categories[k].createdBy != gate.value.id {
        return Err(NotCategoryCreatorDelete);
      }
      var referring := Select(projects, ProjectFilter(Some(categoryId), None));
      if referring != [] {
        assert referring[0] in projects;
        return Err(CategoryInUse);
      }
      assert forall p :: p in projects ==> p.subjectCategoryId != categoryId;
      RemoveCategoryKeepsInvariant(users, categories, projects, tasks, k);
      categories := categories[..k] + categories[k + 1..];
      r := Ok("Subject category deleted successfully");
    }

    /** create_project: mentor only; the subject category must exist; the new
        project records the caller as its creator. */
    method CreateProject(token: DecodedToken, body: ProjectCreate, newId: Id, now: Time) returns (r: Result<Project>)
      requires Valid()
      requires FreshId(newId, ProjectIds(projects))
      modifies this`projects
      ensures Valid()
      ensures MentorGate(users, token).Err? ==> r == Err(MentorGate(users, token).error)
      ensures MentorGate(users, token).Ok? && body.subjectCategoryId !in CategoryIds(categories) ==> r == Err(CategoryNotFound)
      ensures r.Err? ==> projects == old(projects)
      ensures r.Ok? <==> MentorGate(users, token).Ok? && body.subjectCategoryId in CategoryIds(categories)
      ensures r.Ok? ==>
        && r.value == Project(newId, body.title, body.description, body.subjectCategoryId, body.assignedStudents,
                              MentorGate(users, token).value.id, now)
        && projects == old(projects) + [r.value]
    {
      var gate := MentorGate(users, token);
      if gate.Err? {
        return Err(gate.error);
      }
      if CategoryById(categories, body.subjectCategoryId).None? {
        NotFoundMeansAbsent(categories, body.subjectCategoryId);
        return Err(CategoryNotFound);
      }
      var p := Project(newId, body.title, body.description, body.subjectCategoryId, body.assignedStudents, gate.value.id, now);
      AppendProjectKeepsInvariant(users, categories, projects, tasks, p);
      projects := projects + [p];
      r := Ok(p);
    }

    /** create_task: mentor only; the project must exist; the task starts
        as "not_started". */
    method CreateTask(token: DecodedToken, body: TaskCreate, newId: Id, now: Time) returns (r: Result<Task>)
      requires Valid()
      requires FreshId(newId, TaskIds(tasks))
      modifies this`tasks
      ensures Valid()
      ensures MentorGate(users, token).Err? ==> r == Err(MentorGate(users, token).error)
      ensures MentorGate(users, token).Ok? && body.projectId !in ProjectIds(projects) ==> r == Err(ProjectNotFound)
      ensures r.Err? ==> tasks == old(tasks)
      ensures r.Ok? <==> MentorGate(users, token).Ok? && body.projectId in ProjectIds(projects)
      ensures r.Ok? ==>
        && r.value == Task(newId, body.projectId, body.title, body.description, body.deadline, NotStartedStatus, now)
        && tasks == old(tasks) + [r.value]
    {
      var gate := MentorGate(users, token);
      if gate.Err? {
        return Err(gate.error);
      }
      var found := ProjectById(projects, body.projectId);
      if found.None? {
        assert forall p :: p in projects ==> p.id != body.projectId by {
          forall p | p in projects ensures p.id != body.projectId {
            var j :| 0 <= j < |projects| && projects[j] == p;
          }
        }
        return Err(ProjectNotFound);
      }
      assert projects[found.value] in projects;
      var t := Task(newId, body.projectId, body.title, body.description, body.deadline, NotStartedStatus, now);
      AppendTaskKeepsInvariant(users, categories, projects, tasks, t);
      tasks := tasks + [t];
      r := Ok(t);
    }
  }

  /** find_one by id finds nothing exactly when no category has that id. */
  lemma NotFoundMeansAbsent(categories: seq<Category>, id: Id)
    requires CategoryById(categories, id).None?
    ensures id !in CategoryIds(categories)
  {
    forall c | c in categories ensures c.id != id {
      var j :| 0 <= j < |categories| && categories[j] == c;
    }
  }

  lemma AppendUserKeepsInvariant(users: seq<UserDoc>, categories: seq<Category>, projects: seq<Project>, tasks: seq<Task>, doc: UserDoc)
    requires StoreInvariant(users, categories, projects, tasks)
    requires FreshId(doc.id, UserIds(users)) && ValidRole(doc.role) && UserByEmail(users, doc.email).None?
    ensures StoreInvariant(users + [doc], categories, projects, tasks)
  {
    var users' := users + [doc];
    assert UserIds(users') == UserIds(users) + {doc.id};
    forall i, j | 0 <= i < j < |users'| ensures users'[i].id != users'[j].id && users'[i].email != users'[j].email {
      if j == |users| {
        assert users[i] in users;
      }
    }
  }

  lemma SetRoleKeepsInvariant(users: seq<UserDoc>, categories: seq<Category>, projects: seq<Project>, tasks: seq<Task>, k: nat, role: string)
    requires StoreInvariant(users, categories, projects, tasks)
    requires k < |users| && ValidRole(role)
    ensures StoreInvariant(users[k := users[k].(role := role)], categories, projects, tasks)
  {
    var users' := users[k := users[k].(role := role)];
    assert UserIds(users') == UserIds(users) by {
      forall id | id in UserIds(users) ensures id in UserIds(users') {
        var u :| u in users && u.id == id;
        var j :| 0 <= j < |users| && users[j] == u;
        assert users'[j] in users';
      }
      forall id | id in UserIds(users') ensures id in UserIds(users) {
        var u :| u in users' && u.id == id;
        var j :| 0 <= j < |users'| && users'[j] == u;
        assert users[j] in users;
      }
    }
    forall u | u in users' ensures ValidRole(u.role) && u.id != "" {
      var j :| 0 <= j < |users'| && users'[j] == u;
      assert j != k ==> users[j] in users;
      assert users[k] in users;
    }
  }

  lemma AppendCategoryKeepsInvariant(users: seq<UserDoc>, categories: seq<Category>, projects: seq<Project>, tasks: seq<Task>, c: Category)
    requires StoreInvariant(users, categories, projects, tasks)
    requires FreshId(c.id, CategoryIds(categories)) && c.createdBy in UserIds(users)
    ensures StoreInvariant(users, categories + [c], projects, tasks)
  {
    var categories' := categories + [c];
    assert CategoryIds(categories') == CategoryIds(categories) + {c.id};
    forall i, j | 0 <= i < j < |categories'| ensures categories'[i].id != categories'[j].id {
      if j == |categories| {
        assert categories[i] in categories;
      }
    }
  }

  lemma ReplaceCategoryKeepsInvariant(users: seq<UserDoc>, categories: seq<Category>, projects: seq<Project>, tasks: seq<Task>,
                                      k: nat, c: Category)
    requires StoreInvariant(users, categories, projects, tasks)
    requires k < |categories| && c.id == categories[k].id && c.createdBy == categories[k].createdBy
    ensures StoreInvariant(users, categories[k := c], projects, tasks)
  {
    var categories' := categories[k := c];
    assert CategoryIds(categories') == CategoryIds(categories) by {
      forall id | id in CategoryIds(categories) ensures id in CategoryIds(categories') {
        var d :| d in categories && d.id == id;
        var j :| 0 <= j < |categories| && categories[j] == d;
        assert categories'[j] in categories';
      }
      forall id | id in CategoryIds(categories') ensures id in CategoryIds(categories) {
        var d :| d in categories' && d.id == id;
        var j :| 0 <= j < |categories'| && categories'[j] == d;
        assert categories[j] in categories;
      }
    }
    forall d | d in categories' ensures d.createdBy in UserIds(users) {
      var j :| 0 <= j < |categories'| && categories'[j] == d;
      assert categories[j] in categories;
    }
  }

  lemma RemoveCategoryKeepsInvariant(users: seq<UserDoc>, categories: seq<Category>, projects: seq<Project>, tasks: seq<Task>, k: nat)
    requires StoreInvariant(users, categories, projects, tasks)
    requires k < |categories|
    requires forall p :: p in projects ==> p.subjectCategoryId != categories[k].id
    ensures StoreInvariant(users, categories[..k] + categories[k + 1..], projects, tasks)
    ensures CategoryIds(categories[..k] + categories[k + 1..]) == CategoryIds(categories) - {categories[k].id}
  {
    RemoveCategoryIds(categories, k);
    RemoveCategoryKeepsCategories(users, categories, k);
  }

  /** The categories left after removing the one at k keep distinct ids and
      stored creators. */
  lemma RemoveCategoryKeepsCategories(users: seq<UserDoc>, categories: seq<Category>, k: nat)
    requires DistinctCategoryIds(categories) && k < |categories|
    requires forall c :: c in categories ==> c.createdBy in UserIds(users)
    ensures DistinctCategoryIds(categories[..k] + categories[k + 1..])
    ensures forall c :: c in categories[..k] + categories[k + 1..] ==> c.createdBy in UserIds(users)
  {
    var categories' := categories[..k] + categories[k + 1..];
    forall i, j | 0 <= i < j < |categories'| ensures categories'[i].id != categories'[j].id {
      assert categories'[i] == categories[if i < k then i else i + 1];
      assert categories'[j] == categories[if j < k then j else j + 1];
    }
    forall d | d in categories' ensures d.createdBy in UserIds(users) {
      var j :| 0 <= j < |categories'| && categories'[j] == d;
      assert categories'[j] == categories[if j < k then j else j + 1];
      assert categories[if j < k then j else j + 1] in categories;
    }
  }

  /** Removing the category at k, with distinct ids, removes exactly its id. */
  lemma RemoveCategoryIds(categories: seq<Category>, k: nat)
    requires DistinctCategoryIds(categories) && k < |categories|
    ensures CategoryIds(categories[..k] + categories[k + 1..]) == CategoryIds(categories) - {categories[k].id}
  {
    var categories' := categories[..k] + categories[k + 1..];
    forall id | id in CategoryIds(categories) - {categories[k].id} ensures id in CategoryIds(categories') {
      var d :| d in categories && d.id == id;
      var j :| 0 <= j < |categories| && categories[j] == d;
      assert j != k;
      var j' := if j < k then j else j - 1;
      assert categories'[j'] == d;
    }
    forall id | id in CategoryIds(categories') ensures id in CategoryIds(categories) - {categories[k].id} {
      var d :| d in categories' && d.id == id;
      var j :| 0 <= j < |categories'| && categories'[j] == d;
      var j0 := if j < k then j else j + 1;
      assert categories'[j] == categories[j0];
      assert categories[j0] in categories;
    }
  }

  lemma AppendProjectKeepsInvariant(users: seq<UserDoc>, categories: seq<Category>, projects: seq<Project>, tasks: seq<Task>, p: Project)
    requires StoreInvariant(users, categories, projects, tasks)
    requires FreshId(p.id, ProjectIds(projects)) && p.createdBy in UserIds(users) && p.subjectCategoryId in CategoryIds(categories)
    ensures StoreInvariant(users, categories, projects + [p], tasks)
  {
    var projects' := projects + [p];
    assert ProjectIds(projects') == ProjectIds(projects) + {p.id};
    forall i, j | 0 <= i < j < |projects'| ensures projects'[i].id != projects'[j].id {
      if j == |projects| {
        assert projects[i] in projects;
      }
    }
  }

  lemma AppendTaskKeepsInvariant(users: seq<UserDoc>, categories: seq<Category>, projects: seq<Project>, tasks: seq<Task>, t: Task)
    requires StoreInvariant(users, categories, projects, tasks)
    requires FreshId(t.id, TaskIds(tasks)) && t.projectId in ProjectIds(projects)
    ensures StoreInvariant(users, categories, projects, tasks + [t])
  {
    var tasks' := tasks + [t];
    forall i, j | 0 <= i < j < |tasks'| ensures tasks'[i].id != tasks'[j].id {
      if j == |tasks| {
        assert tasks[i] in tasks;
      }
    }
  }
}
