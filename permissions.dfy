/** The REST permission classes (apps/shared/permissions.py) as decisions over the actor, the
    request method, the object and the membership table.

    Memberships carry no role, so every "manager or owner" test is false here; the source reads a
    `role` attribute that does not exist at those points and would raise. An object that lacks an
    attribute the check reads (a comment or a notification has no `created_by`) is denied: the
    source raises there, which ends the request without access either. */
module Permissions {
  import opened Common
  import Users
  import P = Projects
  import T = Tasks
  import N = Notifications

  datatype HttpMethod = Get | Head | Options | Post | Put | Patch | Delete

  /** `permissions.SAFE_METHODS`. */
  predicate IsSafe(m: HttpMethod)
  {
    m == Get || m == Head || m == Options
  }

  /** The object a permission is asked about, together with the rows its attributes lead to. */
  datatype Resource =
    | ProjectRes(project: P.Project)
    | TaskRes(task: T.Task, taskProject: P.Project)
    | AssignmentRes(assignment: P.Assignment, assignmentProject: P.Project)
    | CommentRes(comment: T.Comment, commentTask: T.Task)
    | NotificationRes(notification: N.Notification)

  /** `obj.project` for objects that have one, the object itself for a project, otherwise none. */
  function ScopeProject(r: Resource): Option<P.Project>
  {
    match r
    case ProjectRes(p) => Some(p)
    case TaskRes(_, p) => Some(p)
    case AssignmentRes(_, p) => Some(p)
    case CommentRes(_, _) => None
    case NotificationRes(_) => None
  }

  /** `obj.created_by` for the objects that have the attribute. */
  function CreatedBy(r: Resource): Option<Id>
  {
    match r
    case ProjectRes(p) => Some(p.createdBy)
    case TaskRes(t, _) => Some(t.createdBy)
    case _ => None
  }

  /** `IsOwnerOrReadOnly.has_object_permission`. */
  predicate OwnerOrReadOnly(user: Users.User, m: HttpMethod, r: Resource)
  {
    if IsSafe(m) then true else CreatedBy(r) == Some(user.id)
  }

  /** `IsProjectMember.has_permission`; `viewProject` is what the view's `get_project` resolves. */
  predicate ProjectMemberHasPermission(user: Users.User, assignments: map<Id, P.Assignment>, viewProject: Option<Id>)
  {
    if user.isSuperuser then true
    else if viewProject.Some? then P.IsMember(assignments, viewProject.value, user.id)
    else true
  }

  /** `IsProjectMember.has_object_permission`. */
  predicate ProjectMemberObject(user: Users.User, assignments: map<Id, P.Assignment>, r: Resource)
  {
    if user.isSuperuser then true
    else match ScopeProject(r)
      case Some(p) => P.IsMember(assignments, p.id, user.id)
      case None => true
  }

  /** `IsProjectManagerOrReadOnly.has_object_permission`. */
  predicate ProjectManagerOrReadOnly(user: Users.User, m: HttpMethod, assignments: map<Id, P.Assignment>, r: Resource)
  {
    if user.isSuperuser then true
    else if IsSafe(m) then
      match ScopeProject(r)
      case Some(p) => P.IsMember(assignments, p.id, user.id)
      case None => true
    else
      match ScopeProject(r)
      case Some(p) => P.IsMember(assignments, p.id, user.id) && p.createdBy == user.id
      case None => CreatedBy(r) == Some(user.id)
  }

  /** `IsAssignedOrProjectManager.has_object_permission` for a task and its project (`obj.project`). */
  predicate AssignedOrProjectManager(user: Users.User, m: HttpMethod, assignments: map<Id, P.Assignment>, task: T.Task, project: P.Project)
    requires project.id == task.project
  {
    if user.isSuperuser then true
    else if IsSafe(m) then P.IsMember(assignments, task.project, user.id)
    else if task.createdBy == user.id || task.assignedTo == Some(user.id) then true
    else P.IsMember(assignments, task.project, user.id) && project.createdBy == user.id
  }

  /** `IsCommentAuthorOrReadOnly.has_object_permission` for a comment and its task. */
  predicate CommentAuthorOrReadOnly(user: Users.User, m: HttpMethod, assignments: map<Id, P.Assignment>, comment: T.Comment, task: T.Task)
  {
    if user.isSuperuser then true
    else if IsSafe(m) then P.IsMember(assignments, task.project, user.id)
    else comment.author == user.id
  }

  /** `IsNotificationRecipient.has_object_permission`. */
  predicate NotificationRecipient(user: Users.User, n: N.Notification)
  {
    user.isSuperuser || n.recipient == user.id
  }

  /** `IsAdminOrReadOnly.has_permission`; `None` is the anonymous user. */
  predicate AdminOrReadOnly(user: Option<Users.User>, m: HttpMethod)
  {
    if IsSafe(m) then user.Some?
    else user.Some? && (user.value.isStaff || user.value.isSuperuser)
  }

  /** `CanManageProjectAssignments.has_permission`. */
  predicate CanManageProjectAssignments(user: Users.User, viewProject: Option<P.Project>)
  {
    if user.isSuperuser then true
    else if viewProject.Some? then viewProject.value.createdBy == user.id
    else false
  }

  // ---------------------------------------------------------------------------
  // What the classes decide

  /** Every class that tests for superusers lets them through, whatever the object or method. */
  lemma SuperusersPassEveryCheck(user: Users.User, m: HttpMethod, assignments: map<Id, P.Assignment>, r: Resource,
                                 viewProject: Option<Id>, task: T.Task, project: P.Project, comment: T.Comment,
                                 n: N.Notification, scoped: Option<P.Project>)
    requires user.isSuperuser
    requires project.id == task.project
    ensures ProjectMemberHasPermission(user, assignments, viewProject)
    ensures ProjectMemberObject(user, assignments, r)
    ensures ProjectManagerOrReadOnly(user, m, assignments, r)
    ensures AssignedOrProjectManager(user, m, assignments, task, project)
    ensures CommentAuthorOrReadOnly(user, m, assignments, comment, task)
    ensures NotificationRecipient(user, n)
    ensures CanManageProjectAssignments(user, scoped)
  {
  }

  /** `IsProjectMember`: for other users, access follows membership of the object's project;
      objects without a project, and views that resolve none, are open. */
  lemma ProjectMemberDecisions(user: Users.User, assignments: map<Id, P.Assignment>, r: Resource, viewProject: Option<Id>)
    requires !user.isSuperuser
    ensures ScopeProject(r).Some? ==>
              (ProjectMemberObject(user, assignments, r) <==> P.IsMember(assignments, ScopeProject(r).value.id, user.id))
    ensures r.CommentRes? || r.NotificationRes? ==> ProjectMemberObject(user, assignments, r)
    ensures viewProject.None? ==> ProjectMemberHasPermission(user, assignments, viewProject)
    ensures viewProject.Some? ==>
              (ProjectMemberHasPermission(user, assignments, viewProject) <==> P.IsMember(assignments, viewProject.value, user.id))
  {
  }

  /** `IsProjectManagerOrReadOnly`: a write to a project-scoped object needs membership and
      being the project's creator; a creator who is no longer a member is refused. */
  lemma ProjectManagerWrites(user: Users.User, m: HttpMethod, assignments: map<Id, P.Assignment>, r: Resource)
    requires !user.isSuperuser && !IsSafe(m)
    ensures ScopeProject(r).Some? ==>
              (ProjectManagerOrReadOnly(user, m, assignments, r) <==>
                 P.IsMember(assignments, ScopeProject(r).value.id, user.id) && ScopeProject(r).value.createdBy == user.id)
    ensures r.CommentRes? || r.NotificationRes? ==> !ProjectManagerOrReadOnly(user, m, assignments, r)
  {
  }

  /** `IsAssignedOrProjectManager`: the task's creator or assignee may write even without
      membership; anyone else needs membership and must have created the project. */
  lemma AssignedOrManagerWrites(user: Users.User, m: HttpMethod, assignments: map<Id, P.Assignment>, task: T.Task, project: P.Project)
    requires !user.isSuperuser && !IsSafe(m)
    requires project.id == task.project
    ensures task.createdBy == user.id || task.assignedTo == Some(user.id) ==> AssignedOrProjectManager(user, m, assignments, task, project)
    ensures !P.IsMember(assignments, task.project, user.id) ==>
              (AssignedOrProjectManager(user, m, assignments, task, project) <==> task.createdBy == user.id || task.assignedTo == Some(user.id))
  {
  }

  /** `IsCommentAuthorOrReadOnly`: reading follows membership of the task's project, writing is the author's alone. */
  lemma CommentAuthorDecisions(user: Users.User, m: HttpMethod, assignments: map<Id, P.Assignment>, comment: T.Comment, task: T.Task)
    requires !user.isSuperuser
    ensures IsSafe(m) ==> (CommentAuthorOrReadOnly(user, m, assignments, comment, task) <==> P.IsMember(assignments, task.project, user.id))
    ensures !IsSafe(m) ==> (CommentAuthorOrReadOnly(user, m, assignments, comment, task) <==> comment.author == user.id)
  {
  }

  /** `IsAdminOrReadOnly`: the anonymous user gets nothing; a signed-in user reads; writes need staff or superuser. */
  lemma AdminOrReadOnlyDecisions(user: Option<Users.User>, m: HttpMethod)
    ensures user.None? ==> !AdminOrReadOnly(user, m)
    ensures user.Some? && IsSafe(m) ==> AdminOrReadOnly(user, m)
    ensures user.Some? && !IsSafe(m) ==> (AdminOrReadOnly(user, m) <==> user.value.isStaff || user.value.isSuperuser)
  {
  }

  /** `CanManageProjectAssignments`: the superuser, or the creator of the view's project; no project means no access. */
  lemma AssignmentManagers(user: Users.User, viewProject: Option<P.Project>)
    ensures CanManageProjectAssignments(user, viewProject) <==>
              user.isSuperuser || (viewProject.Some? && viewProject.value.createdBy == user.id)
    ensures viewProject.None? && !user.isSuperuser ==> !CanManageProjectAssignments(user, viewProject)
  {
  }

  /** `IsOwnerOrReadOnly`: reads are open; writes belong to the creator of a project or task. */
  lemma OwnerDecisions(user: Users.User, m: HttpMethod, r: Resource)
    ensures IsSafe(m) ==> OwnerOrReadOnly(user, m, r)
    ensures !IsSafe(m) ==> (OwnerOrReadOnly(user, m, r) <==>
              (r.ProjectRes? && r.project.createdBy == user.id) || (r.TaskRes? && r.task.createdBy == user.id))
  {
  }
}
