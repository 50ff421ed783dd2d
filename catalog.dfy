/** Request bodies for the catalog handlers, the partial-update merge of a
    subject category, the project listing query and document counting. */
module Catalog {
  import opened Http
  import opened Documents
  import opened Auth

  /** The colour SubjectCategoryCreate supplies when the client sends none. */
  const DefaultColor := "#3B82F6"

  datatype CategoryCreate = CategoryCreate(name: string, description: string, color: Option<string>, icon: Option<string>)

  /** SubjectCategoryUpdate: every field optional, None meaning "leave as is". */
  datatype CategoryUpdate = CategoryUpdate(name: Option<string>, description: Option<string>, color: Option<string>, icon: Option<string>)

  datatype ProjectCreate = ProjectCreate(title: string, description: string, subjectCategoryId: Id, assignedStudents: seq<Id>)

  datatype TaskCreate = TaskCreate(projectId: Id, title: string, description: string, deadline: Option<Time>)

  /** A create body whose optional fields were left out by the client. */
  function CategoryCreateDefaults(name: string, description: string): CategoryCreate {
    CategoryCreate(name, description, Some(DefaultColor), None)
  }

  /** update_data: the fields of the update whose value is not None, keyed
      by field name. An empty string is a value and is kept. */
  function UpdateData(u: CategoryUpdate): (d: map<string, string>)
    ensures d.Keys <= UpdatableFields
    ensures ("name" in d <==> u.name.Some?) && (u.name.Some? ==> d["name"] == u.name.value)
    ensures ("description" in d <==> u.description.Some?) && (u.description.Some? ==> d["description"] == u.description.value)
    ensures ("color" in d <==> u.color.Some?) && (u.color.Some? ==> d["color"] == u.color.value)
    ensures ("icon" in d <==> u.icon.Some?) && (u.icon.Some? ==> d["icon"] == u.icon.value)
  {
    var d0 := map[];
    var d1 := if u.name.Some? then d0["name" := u.name.value] else d0;
    var d2 := if u.description.Some? then d1["description" := u.description.value] else d1;
    var d3 := if u.color.Some? then d2["color" := u.color.value] else d2;
    if u.icon.Some? then d3["icon" := u.icon.value] else d3
  }

  /** The field names of SubjectCategoryUpdate, the only keys update_data
      can hold. */
  const UpdatableFields: set<string> := {"name", "description", "color", "icon"}

  /** {"$set": d} on a category document, for a d built from a
      SubjectCategoryUpdate: each named field takes its value. */
  function SetFields(c: Category, d: map<string, string>): (c': Category)
    requires d.Keys <= UpdatableFields
    ensures c'.id == c.id && c'.createdBy == c.createdBy && c'.createdAt == c.createdAt
  {
    c.(name := if "name" in d then d["name"] else c.name,
       description := if "description" in d then d["description"] else c.description,
       color := if "color" in d then Some(d["color"]) else c.color,
       icon := if "icon" in d then Some(d["icon"]) else c.icon)
  }

  /** The update a category receives, field by field: a field given in the
      request replaces the stored one (an empty string too), a field left as
      None keeps its stored value, and id, created_by and created_at never
      change. */
  lemma MergeFieldwise(c: Category, u: CategoryUpdate)
    ensures SetFields(c, UpdateData(u)) ==
      Category(c.id, u.name.GetOr(c.name), u.description.GetOr(c.description),
               if u.color.Some? then u.color else c.color,
               if u.icon.Some? then u.icon else c.icon,
               c.createdBy, c.createdAt)
  {
  }

  /** Applying the same update twice is the same as applying it once. */
  lemma MergeIdempotent(c: Category, u: CategoryUpdate)
    ensures SetFields(SetFields(c, UpdateData(u)), UpdateData(u)) == SetFields(c, UpdateData(u))
  {
  }

  /** The filter_dict of get_projects: an optional subject category and an
      optional student who must be among assigned_students. */
  datatype ProjectFilter = ProjectFilter(category: Option<Id>, assignedTo: Option<Id>)

  /** Whether a project document matches the filter; a student id matches
      an array field when the array contains it. */
  predicate Matches(f: ProjectFilter, p: Project) {
    && (f.category.Some? ==> p.subjectCategoryId == f.category.value)
    && (f.assignedTo.Some? ==> f.assignedTo.value in p.assignedStudents)
  }

  /** The filter get_projects builds: the category only when the query
      parameter is truthy (present and not ""), the caller's id only when
      the caller is a student. */
  function ProjectQuery(categoryParam: Option<string>, caller: User): (f: ProjectFilter)
    ensures f.category.Some? <==> categoryParam.Some? && categoryParam.value != ""
    ensures f.category.Some? ==> f.category == categoryParam
    ensures f.assignedTo.Some? <==> caller.role == StudentRole
    ensures f.assignedTo.Some? ==> f.assignedTo.value == caller.id
  {
    var byCategory := if categoryParam.Some? && categoryParam.value != "" then categoryParam else None;
    ProjectFilter(byCategory, if caller.role == StudentRole then Some(caller.id) else None)
  }

  /** db.projects.find(f): the matching projects, in stored order. */
  function Select(projects: seq<Project>, f: ProjectFilter): (r: seq<Project>)
    ensures forall p :: p in r <==> p in projects && Matches(f, p)
    ensures |r| <= |projects|
  {
    if projects == [] then []
    else
      var rest := Select(projects[1..], f);
      assert forall p :: p in projects <==> p == projects[0] || p in projects[1..];
      if Matches(f, projects[0]) then [projects[0]] + rest else rest
  }

  /** count_documents: how many documents of a collection match. */
  function CountWhere<T>(docs: seq<T>, matches: T -> bool): (n: nat)
    ensures n <= |docs|
    ensures n == 0 <==> forall i :: 0 <= i < |docs| ==> !matches(docs[i])
  {
    if docs == [] then 0
    else
      var rest := CountWhere(docs[1..], matches);
      assert forall i :: 1 <= i < |docs| ==> docs[i] == docs[1..][i - 1];
      (if matches(docs[0]) then 1 else 0) + rest
  }

  /** Counting is additive over a split of the collection. */
  lemma {:induction false} CountAppend<T>(a: seq<T>, b: seq<T>, matches: T -> bool)
    ensures CountWhere(a + b, matches) == CountWhere(a, matches) + CountWhere(b, matches)
  {
    if a == [] {
      assert a + b == b;
    } else {
      assert (a + b)[0] == a[0];
      assert (a + b)[1..] == a[1..] + b;
      CountAppend(a[1..], b, matches);
    }
  }

  /** A single document counts once when it matches and not at all
      otherwise; with CountAppend this fixes the count of every collection. */
  lemma CountSingle<T>(x: T, matches: T -> bool)
    ensures CountWhere([x], matches) == if matches(x) then 1 else 0
  {
    assert [x][1..] == [];
  }

  /** Adding one document to a collection raises the count by one exactly
      when the new document matches. */
  lemma CountAfterInsert<T>(docs: seq<T>, x: T, matches: T -> bool)
    ensures CountWhere(docs + [x], matches) == CountWhere(docs, matches) + (if matches(x) then 1 else 0)
  {
    CountAppend(docs, [x], matches);
    CountSingle(x, matches);
  }

  /** count_documents and find agree: counting the projects that match a
      filter gives the length of the list find returns for it. */
  lemma {:induction false} CountIsSelectLength(projects: seq<Project>, f: ProjectFilter)
    ensures CountWhere(projects, (p: Project) => Matches(f, p)) == |Select(projects, f)|
  {
    if projects != [] {
      CountIsSelectLength(projects[1..], f);
    }
  }

  /** get_projects: any authenticated caller; a student sees only the
      projects assigned to them, a mentor all of them, both narrowed to the
      subject category when one is given. */
  function GetProjects(users: seq<UserDoc>, projects: seq<Project>, categoryParam: Option<string>, token: DecodedToken): (r: Result<seq<Project>>)
    ensures CurrentUser(users, token).Err? ==> r == Err(CurrentUser(users, token).error)
    ensures CurrentUser(users, token).Ok? ==> r.Ok? && |r.value| <= |projects|
    ensures CurrentUser(users, token).Ok? ==>
      forall p :: p in r.value <==> p in projects && Matches(ProjectQuery(categoryParam, CurrentUser(users, token).value), p)
  {
    match CurrentUser(users, token)
    case Err(e) => Err(e)
    case Ok(caller) => Ok(Select(projects, ProjectQuery(categoryParam, caller)))
  }

  /** A student's listing holds exactly the projects that name them among
      assigned_students (and lie in the requested category, if any). */
  lemma StudentSeesAssignedOnly(users: seq<UserDoc>, projects: seq<Project>, categoryParam: Option<string>, token: DecodedToken, p: Project)
    requires CurrentUser(users, token).Ok? && CurrentUser(users, token).value.role == StudentRole
    ensures p in GetProjects(users, projects, categoryParam, token).value <==>
      && p in projects
      && CurrentUser(users, token).value.id in p.assignedStudents
      && (categoryParam.Some? && categoryParam.value != "" ==> p.subjectCategoryId == categoryParam.value)
  {
  }

  /** A mentor's listing holds every project in the requested category, or
      every project when no category is given. */
  lemma MentorSeesAll(users: seq<UserDoc>, projects: seq<Project>, categoryParam: Option<string>, token: DecodedToken, p: Project)
    requires CurrentUser(users, token).Ok? && CurrentUser(users, token).value.role == MentorRole
    ensures p in GetProjects(users, projects, categoryParam, token).value <==>
      && p in projects
      && (categoryParam.Some? && categoryParam.value != "" ==> p.subjectCategoryId == categoryParam.value)
  {
  }
}
