/** `dashboard_stats` (apps/dashboard/views.py): the projects a user's dashboard covers and how
    many of them are in each status or late. */
module Dashboard {
  import opened Common
  import Users
  import P = Projects
  import PV = ProjectViews

  /** The projects counted: every project for a user whose role is admin, otherwise those the user
      created or belongs to. The role decides; the superuser flag plays no part. */
  function DashboardProjects(projects: map<Id, P.Project>, assignments: map<Id, P.Assignment>, user: Users.User)
    : (r: set<Id>)
    ensures r <= projects.Keys
    ensures Users.IsAdmin(user) ==> r == projects.Keys
    ensures !Users.IsAdmin(user) ==>
              forall k :: k in projects ==> (k in r <==> projects[k].createdBy == user.id || P.IsMember(assignments, k, user.id))
  {
    set k | k in projects
            && (|| Users.IsAdmin(user)
                || projects[k].createdBy == user.id
                || P.IsMember(assignments, k, user.id))
  }

  /** A non-superuser's dashboard covers every project the project list shows them, and also the
      ones they created without belonging to them. */
  lemma DashboardCoversProjectList(projects: map<Id, P.Project>, assignments: map<Id, P.Assignment>, user: Users.User)
    requires !user.isSuperuser
    ensures PV.VisibleProjects(projects, assignments, user) <= DashboardProjects(projects, assignments, user)
    ensures forall k :: k in DashboardProjects(projects, assignments, user) && k !in PV.VisibleProjects(projects, assignments, user) ==>
              Users.IsAdmin(user) || projects[k].createdBy == user.id
  {
  }

  /** The overdue filter: the end date has passed and the project is pending or in progress. */
  predicate InOverdueFilter(p: P.Project, today: Day)
  {
    p.endDate < today && (p.status == P.Pending || p.status == P.InProgress)
  }

  /** The filter is the model's `is_overdue` without the cancelled projects. */
  lemma OverdueFilterIsLateAndOpen(p: P.Project, today: Day)
    ensures InOverdueFilter(p, today) <==> P.IsOverdue(p, today) && p.status != P.Cancelled
  {
  }

  function WithStatus(projects: map<Id, P.Project>, keys: set<Id>, s: P.ProjectStatus): set<Id>
  {
    set k | k in keys && k in projects && projects[k].status == s
  }

  function Overdue(projects: map<Id, P.Project>, keys: set<Id>, today: Day): set<Id>
  {
    set k | k in keys && k in projects && InOverdueFilter(projects[k], today)
  }

  /** Open projects: pending or in progress. */
  function Open(projects: map<Id, P.Project>, keys: set<Id>): set<Id>
  {
    WithStatus(projects, keys, P.Pending) + WithStatus(projects, keys, P.InProgress)
  }

  /** Closed projects: completed or cancelled. */
  function Closed(projects: map<Id, P.Project>, keys: set<Id>): set<Id>
  {
    WithStatus(projects, keys, P.Completed) + WithStatus(projects, keys, P.Cancelled)
  }

  lemma OpenCount(projects: map<Id, P.Project>, keys: set<Id>)
    ensures |Open(projects, keys)| == |WithStatus(projects, keys, P.Pending)| + |WithStatus(projects, keys, P.InProgress)|
  {
    assert WithStatus(projects, keys, P.Pending) * WithStatus(projects, keys, P.InProgress) == {};
  }

  lemma ClosedCount(projects: map<Id, P.Project>, keys: set<Id>)
    ensures |Closed(projects, keys)| == |WithStatus(projects, keys, P.Completed)| + |WithStatus(projects, keys, P.Cancelled)|
  {
    assert WithStatus(projects, keys, P.Completed) * WithStatus(projects, keys, P.Cancelled) == {};
  }

  /** Every project is open or closed, never both. */
  lemma OpenClosedSplit(projects: map<Id, P.Project>, keys: set<Id>)
    requires keys <= projects.Keys
    ensures |keys| == |Open(projects, keys)| + |Closed(projects, keys)|
  {
    var open, closed := Open(projects, keys), Closed(projects, keys);
    assert open * closed == {};
    assert keys == open + closed;
  }

  /** The four statuses split any set of projects, and the overdue ones are among the pending and
      in-progress ones. */
  lemma StatusPartition(projects: map<Id, P.Project>, keys: set<Id>, today: Day)
    requires keys <= projects.Keys
    ensures |keys| == |WithStatus(projects, keys, P.Pending)| + |WithStatus(projects, keys, P.InProgress)|
                      + |WithStatus(projects, keys, P.Completed)| + |WithStatus(projects, keys, P.Cancelled)|
    ensures |Overdue(projects, keys, today)| <= |WithStatus(projects, keys, P.Pending)| + |WithStatus(projects, keys, P.InProgress)|
  {
    OpenClosedSplit(projects, keys);
    OpenCount(projects, keys);
    ClosedCount(projects, keys);
    var open := Open(projects, keys);
    var overdue := Overdue(projects, keys, today);
    assert overdue <= open;
    assert open == overdue + (open - overdue);
  }

  datatype ProjectStats = ProjectStats(total: nat, completed: nat, inProgress: nat, overdue: nat, pending: nat, cancelled: nat)

  /** The response of `dashboard_stats`: the covered projects, counted once each, by status and
      overdue. */
  function DashboardStats(projects: map<Id, P.Project>, assignments: map<Id, P.Assignment>, user: Users.User, today: Day)
    : (s: ProjectStats)
    ensures s.total == |DashboardProjects(projects, assignments, user)|
    ensures s.total == s.pending + s.inProgress + s.completed + s.cancelled
    ensures s.overdue <= s.pending + s.inProgress
    ensures Users.IsAdmin(user) ==> s.total == |projects|
    ensures var covered := DashboardProjects(projects, assignments, user);
            && s.completed == |WithStatus(projects, covered, P.Completed)|
            && s.inProgress == |WithStatus(projects, covered, P.InProgress)|
            && s.pending == |WithStatus(projects, covered, P.Pending)|
            && s.cancelled == |WithStatus(projects, covered, P.Cancelled)|
            && s.overdue == |Overdue(projects, covered, today)|
  {
    var covered := DashboardProjects(projects, assignments, user);
    StatusPartition(projects, covered, today);
    ProjectStats(|covered|,
                 |WithStatus(projects, covered, P.Completed)|,
                 |WithStatus(projects, covered, P.InProgress)|,
                 |Overdue(projects, covered, today)|,
                 |WithStatus(projects, covered, P.Pending)|,
                 |WithStatus(projects, covered, P.Cancelled)|)
  }
}
