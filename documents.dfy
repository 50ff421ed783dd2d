/** The documents of the four collections (users, subject_categories,
    projects, tasks), the find_one lookups the handlers make, and the
    invariant the handlers keep over the whole store. */
module Documents {
  import opened Http

  /** Document ids are uuid4 strings. */
  type Id = string
  /** A utcnow() timestamp. */
  type Time = int

  const MentorRole := "mentor"
  const StudentRole := "student"

  /** The two roles registration and role update accept. */
  predicate ValidRole(role: string) {
    role == MentorRole || role == StudentRole
  }

  /** A stored user: the password field holds the bcrypt digest. */
  datatype UserDoc = UserDoc(id: Id, email: string, name: string, role: string, password: string, createdAt: Time)

  /** The User / UserResponse model: a user document without its password. */
  datatype User = User(id: Id, email: string, name: string, role: string, createdAt: Time)

  datatype Category = Category(
    id: Id, name: string, description: string,
    color: Option<string>, icon: Option<string>,
    createdBy: Id, createdAt: Time)

  datatype Project = Project(
    id: Id, title: string, description: string, subjectCategoryId: Id,
    assignedStudents: seq<Id>, createdBy: Id, createdAt: Time)

  datatype Task = Task(
    id: Id, projectId: Id, title: string, description: string,
    deadline: Option<Time>, status: string, createdAt: Time)

  /** User(**user_doc): the stored fields other than the password. */
  function Public(d: UserDoc): User {
    User(d.id, d.email, d.name, d.role, d.createdAt)
  }

  /** find_one over a collection: the position of the first document that
      matches, or None when none does. */
  function FindFirst<T>(docs: seq<T>, matches: T -> bool): (r: Option<nat>)
    ensures r.Some? ==> r.value < |docs| && matches(docs[r.value])
    ensures r.Some? ==> forall j :: 0 <= j < r.value ==> !matches(docs[j])
    ensures r.None? <==> forall j :: 0 <= j < |docs| ==> !matches(docs[j])
  {
    if docs == [] then None
    else if matches(docs[0]) then Some(0)
    else
      var rest := FindFirst(docs[1..], matches);
      assert forall j :: 1 <= j < |docs| ==> docs[j] == docs[1..][j - 1];
      if rest.None? then None else Some(rest.value + 1)
  }

  function UserById(users: seq<UserDoc>, id: Id): Option<nat> {
    FindFirst(users, (u: UserDoc) => u.id == id)
  }

  function UserByEmail(users: seq<UserDoc>, email: string): Option<nat> {
    FindFirst(users, (u: UserDoc) => u.email == email)
  }

  function CategoryById(categories: seq<Category>, id: Id): Option<nat> {
    FindFirst(categories, (c: Category) => c.id == id)
  }

  function ProjectById(projects: seq<Project>, id: Id): Option<nat> {
    FindFirst(projects, (p: Project) => p.id == id)
  }

  function UserIds(users: seq<UserDoc>): set<Id> {
    set u | u in users :: u.id
  }

  function CategoryIds(categories: seq<Category>): set<Id> {
    set c | c in categories :: c.id
  }

  function ProjectIds(projects: seq<Project>): set<Id> {
    set p | p in projects :: p.id
  }

  function TaskIds(tasks: seq<Task>): set<Id> {
    set t | t in tasks :: t.id
  }

  /** What uuid4() is trusted to deliver: a non-empty id no document has yet. */
  predicate FreshId(id: Id, taken: set<Id>) {
    id != "" && id !in taken
  }

  predicate DistinctUserIds(users: seq<UserDoc>) {
    forall i, j :: 0 <= i < j < |users| ==> users[i].id != users[j].id
  }

  predicate UniqueEmails(users: seq<UserDoc>) {
    forall i, j :: 0 <= i < j < |users| ==> users[i].email != users[j].email
  }

  predicate DistinctCategoryIds(categories: seq<Category>) {
    forall i, j :: 0 <= i < j < |categories| ==> categories[i].id != categories[j].id
  }

  predicate DistinctProjectIds(projects: seq<Project>) {
    forall i, j :: 0 <= i < j < |projects| ==> projects[i].id != projects[j].id
  }

  predicate DistinctTaskIds(tasks: seq<Task>) {
    forall i, j :: 0 <= i < j < |tasks| ==> tasks[i].id != tasks[j].id
  }

  /** The invariant every handler keeps: non-empty user ids, distinct ids, one account per email,
      every stored role is mentor or student, every created_by names a stored
      user, every project's subject category exists, every task's project
      exists. */
  predicate StoreInvariant(users: seq<UserDoc>, categories: seq<Category>, projects: seq<Project>, tasks: seq<Task>) {
    && (forall u :: u in users ==> u.id != "")
    && DistinctUserIds(users)
    && UniqueEmails(users)
    && (forall u :: u in users ==> ValidRole(u.role))
    && DistinctCategoryIds(categories)
    && DistinctProjectIds(projects)
    && DistinctTaskIds(tasks)
    && (forall c :: c in categories ==> c.createdBy in UserIds(users))
    && (forall p :: p in projects ==> p.createdBy in UserIds(users))
    && (forall p :: p in projects ==> p.subjectCategoryId in CategoryIds(categories))
    && (forall t :: t in tasks ==> t.projectId in ProjectIds(projects))
  }

  /** With distinct ids, the user find_one by id returns is the only user
      with that id. */
  lemma UserByIdUnique(users: seq<UserDoc>, i: nat)
    requires DistinctUserIds(users) && i < |users|
    ensures UserById(users, users[i].id) == Some(i)
  {
  }
}
