/** get_dashboard_stats: per-role counts over the store. */
module Dashboard {
  import opened Http
  import opened Documents
  import opened Auth
  import opened Catalog

  const ApprovedStatus := "approved"

  /** The filter {"role": "student"} of total_students. */
  predicate IsStudent(u: UserDoc) {
    u.role == StudentRole
  }

  /** The filter {"status": "approved"} of completed_tasks. */
  predicate IsApproved(t: Task) {
    t.status == ApprovedStatus
  }

  datatype Stats =
    | MentorStats(totalCategories: nat, totalProjects: nat, totalStudents: nat)
    | StudentStats(assignedProjects: nat, completedTasks: nat)

  /** A mentor gets the sizes of the category and project collections and
      the number of student accounts; anyone else gets the number of projects
      assigned to them and the number of approved tasks, counted over all
      tasks rather than over the caller's own projects. */
  function DashboardStats(users: seq<UserDoc>, categories: seq<Category>, projects: seq<Project>, tasks: seq<Task>,
                          token: DecodedToken): (r: Result<Stats>)
    ensures CurrentUser(users, token).Err? ==> r == Err(CurrentUser(users, token).error)
    ensures CurrentUser(users, token).Ok? ==> r.Ok? && (r.value.MentorStats? <==> CurrentUser(users, token).value.role == MentorRole)
    ensures r.Ok? && r.value.MentorStats? ==>
      && r.value.totalCategories == |categories|
      && r.value.totalProjects == |projects|
      && r.value.totalStudents == CountWhere(users, IsStudent)
      && r.value.totalStudents <= |users|
      && (r.value.totalStudents == 0 <==> forall i :: 0 <= i < |users| ==> users[i].role != StudentRole)
    ensures r.Ok? && r.value.StudentStats? ==>
      && r.value.assignedProjects <= |projects|
      && r.value.completedTasks == CountWhere(tasks, IsApproved)
      && r.value.completedTasks <= |tasks|
      && (r.value.completedTasks == 0 <==> forall i :: 0 <= i < |tasks| ==> tasks[i].status != ApprovedStatus)
  {
    match CurrentUser(users, token)
    case Err(e) => Err(e)
    case Ok(caller) =>
      if caller.role == MentorRole then
        Ok(MentorStats(|categories|, |projects|, CountWhere(users, IsStudent)))
      else
        Ok(StudentStats(
             CountWhere(projects, (p: Project) => Matches(ProjectFilter(None, Some(caller.id)), p)),
             CountWhere(tasks, IsApproved)))
  }

  /** A student's assigned-projects count is the length of the project
      listing they get with no category filter. */
  lemma AssignedCountMatchesListing(users: seq<UserDoc>, categories: seq<Category>, projects: seq<Project>, tasks: seq<Task>,
                                    token: DecodedToken)
    requires CurrentUser(users, token).Ok? && CurrentUser(users, token).value.role == StudentRole
    ensures DashboardStats(users, categories, projects, tasks, token).value.assignedProjects ==
      |GetProjects(users, projects, None, token).value|
  {
    var caller := CurrentUser(users, token).value;
    CountIsSelectLength(projects, ProjectFilter(None, Some(caller.id)));
    assert ProjectQuery(None, caller) == ProjectFilter(None, Some(caller.id));
  }

  /** Registering one more student raises a mentor's total_students by one;
      registering a mentor leaves it as it was. */
  lemma NewStudentRaisesTotal(users: seq<UserDoc>, categories: seq<Category>, projects: seq<Project>, tasks: seq<Task>,
                              doc: UserDoc, token: DecodedToken)
    requires MentorGate(users, token).Ok? && MentorGate(users + [doc], token).Ok?
    ensures DashboardStats(users + [doc], categories, projects, tasks, token).value.totalStudents ==
      DashboardStats(users, categories, projects, tasks, token).value.totalStudents + (if doc.role == StudentRole then 1 else 0)
  {
    CountAfterInsert(users, doc, IsStudent);
  }

  /** Approving one more task raises every student's completed_tasks by
      one, whichever project the task belongs to. */
  lemma NewApprovalRaisesCompleted(users: seq<UserDoc>, categories: seq<Category>, projects: seq<Project>, tasks: seq<Task>,
                                   k: nat, token: DecodedToken)
    requires k < |tasks| && tasks[k].status != ApprovedStatus
    requires CurrentUser(users, token).Ok? && CurrentUser(users, token).value.role == StudentRole
    ensures DashboardStats(users, categories, projects, tasks[k := tasks[k].(status := ApprovedStatus)], token).value.completedTasks ==
      DashboardStats(users, categories, projects, tasks, token).value.completedTasks + 1
  {
    var tasks' := tasks[k := tasks[k].(status := ApprovedStatus)];
    assert tasks == tasks[..k] + [tasks[k]] + tasks[k + 1..];
    assert tasks' == tasks[..k] + [tasks'[k]] + tasks[k + 1..];
    CountAppend(tasks[..k] + [tasks[k]], tasks[k + 1..], IsApproved);
    CountAppend(tasks[..k], [tasks[k]], IsApproved);
    CountAppend(tasks[..k] + [tasks'[k]], tasks[k + 1..], IsApproved);
    CountAppend(tasks[..k], [tasks'[k]], IsApproved);
    CountSingle(tasks[k], IsApproved);
    CountSingle(tasks'[k], IsApproved);
  }

  /** completed_tasks does not depend on who asks: any two students see the
      same number, whatever projects each is assigned. */
  lemma CompletedTasksIgnoresCaller(users: seq<UserDoc>, categories: seq<Category>, projects: seq<Project>, tasks: seq<Task>,
                                    token1: DecodedToken, token2: DecodedToken)
    requires CurrentUser(users, token1).Ok? && CurrentUser(users, token1).value.role == StudentRole
    requires CurrentUser(users, token2).Ok? && CurrentUser(users, token2).value.role == StudentRole
    ensures DashboardStats(users, categories, projects, tasks, token1).value.completedTasks ==
      DashboardStats(users, categories, projects, tasks, token2).value.completedTasks
  {
  }
}
