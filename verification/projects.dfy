/** Who may see which project: the role-based filter of the projects
    endpoint (`_filter_projects_for_user`) and the not-found / forbidden
    decision of `get_project`. */
module Access {
  import opened Seqs
  import opened Entities
  import opened Store

  const SystemAdmin := "system_admin"
  const ProjectManager := "project_manager"

  /** Whether `user` may see `p`: an administrator sees everything, a
      project manager the projects it manages, anybody else the projects it
      is a team member of; every user sees the projects listed in its own
      `projects`. */
  predicate CanSee(user: User, p: Project) {
    || user.role == SystemAdmin
    || (user.role == ProjectManager && p.managerId == user.id)
    || (user.role != ProjectManager && user.id in p.teamMembers)
    || p.id in user.projects
  }

  /** The test of the project-manager comprehension. */
  predicate ManagedOrAssigned(user: User, p: Project) {
    p.managerId == user.id || p.id in user.projects
  }

  /** The test of the comprehension for every other role. */
  predicate MemberOrAssigned(user: User, p: Project) {
    user.id in p.teamMembers || p.id in user.projects
  }

  /** `_filter_projects_for_user`: one branch per role. */
  function FilterProjectsForUser(projects: seq<Project>, user: User): (r: seq<Project>)
    ensures r == Filter(projects, (p: Project) => CanSee(user, p))
    ensures IsSubsequence(r, projects)
    ensures forall p :: p in r <==> p in projects && CanSee(user, p)
    ensures forall p :: multiset(r)[p] == if CanSee(user, p) then multiset(projects)[p] else 0
  {
    if user.role == SystemAdmin then
      FilterAll(projects, (p: Project) => CanSee(user, p));
      projects
    else if user.role == ProjectManager then
      FilterSame(projects, (p: Project) => ManagedOrAssigned(user, p), (p: Project) => CanSee(user, p));
      Filter(projects, (p: Project) => ManagedOrAssigned(user, p))
    else
      FilterSame(projects, (p: Project) => MemberOrAssigned(user, p), (p: Project) => CanSee(user, p));
      Filter(projects, (p: Project) => MemberOrAssigned(user, p))
  }

  /** An administrator gets the list unchanged. */
  lemma AdminSeesAll(projects: seq<Project>, user: User)
    requires user.role == SystemAdmin
    ensures FilterProjectsForUser(projects, user) == projects
  {
  }

  /** A project manager keeps exactly the projects it manages or is
      assigned to. */
  lemma ManagerSees(projects: seq<Project>, user: User, p: Project)
    requires user.role == ProjectManager && p in projects
    ensures p in FilterProjectsForUser(projects, user) <==> p.managerId == user.id || p.id in user.projects
  {
  }

  /** Any other role, or none, keeps exactly the projects whose team holds
      the user or that the user is assigned to. */
  lemma MemberSees(projects: seq<Project>, user: User, p: Project)
    requires user.role != SystemAdmin && user.role != ProjectManager && p in projects
    ensures p in FilterProjectsForUser(projects, user) <==> user.id in p.teamMembers || p.id in user.projects
  {
  }

  /** A project listed in the user's own `projects` is visible whatever the
      role. */
  lemma OwnProjectsVisible(projects: seq<Project>, user: User, p: Project)
    requires p in projects && p.id in user.projects
    ensures p in FilterProjectsForUser(projects, user)
  {
  }

  /** Two predicates that agree on every element of `s` filter it alike. */
  lemma {:induction false} FilterSame<T(!new)>(s: seq<T>, p: T -> bool, q: T -> bool)
    requires forall i :: 0 <= i < |s| ==> p(s[i]) == q(s[i])
    ensures Filter(s, p) == Filter(s, q)
  {
    if s != [] {
      FilterSame(s[1..], p, q);
    }
  }

  /** `get_project`: not found when no project has the id; forbidden when
      the first project with the id is not in the user's filtered list. */
  function GetProjectAccess(projects: seq<Project>, user: User, projectId: string): (r: Result<Project, HttpError>)
    ensures r == Err(NotFound) <==> forall p :: p in projects ==> p.id != projectId
    ensures r == Err(Forbidden) <==> ProjectById(projects, projectId).Some? && !CanSee(user, ProjectById(projects, projectId).value)
    ensures r.Ok? ==> r.value in projects && r.value.id == projectId && CanSee(user, r.value)
                      && r == Ok(ProjectById(projects, projectId).value)
  {
    match ProjectById(projects, projectId)
    case None => Err(NotFound)
    case Some(p) =>
      if p !in FilterProjectsForUser(projects, user) then Err(Forbidden) else Ok(p)
  }

  /** An administrator is never refused a project that exists. */
  lemma AdminNeverForbidden(projects: seq<Project>, user: User, projectId: string)
    requires user.role == SystemAdmin
    ensures GetProjectAccess(projects, user, projectId) != Err(Forbidden)
  {
  }
}
