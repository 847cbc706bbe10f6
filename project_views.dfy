/** `ProjectViewSet` (apps/projects/views.py): which projects a user sees, creating a project,
    and adding and removing members.

    A request's outcome is the created row or an `ApiError` standing for the HTTP status. The
    assignment actions pass two gates: `CanManageProjectAssignments.has_permission`, which loads
    the project from the URL (404 when it does not exist) and admits the superuser or the
    project's creator (the source raises for anyone else; the model refuses with 403), and then
    `get_object`, which looks the project up among the visible ones (404 when it is not there). */
module ProjectViews {
  import opened Common
  import Users
  import P = Projects
  import N = Notifications
  import Store
  import Signals
  import Permissions
  import PS = ProjectSerializers

  // ---------------------------------------------------------------------------
  // Querysets

  /** `get_queryset`: every project for the superuser, otherwise the projects the user belongs to. */
  function VisibleProjects(projects: map<Id, P.Project>, assignments: map<Id, P.Assignment>, user: Users.User): (r: set<Id>)
    ensures r <= projects.Keys
  {
    set k | k in projects && (user.isSuperuser || P.IsMember(assignments, k, user.id))
  }

  /** The list and the object permission agree: a project is listed exactly when `IsProjectMember`
      lets the user at it. */
  lemma VisibleIsMemberPermission(projects: map<Id, P.Project>, assignments: map<Id, P.Assignment>, user: Users.User, k: Id)
    requires k in projects && projects[k].id == k
    ensures k in VisibleProjects(projects, assignments, user) <==>
              Permissions.ProjectMemberObject(user, assignments, Permissions.ProjectRes(projects[k]))
  {
  }

  /** `my_projects`: the visible projects the user created or belongs to, each once. */
  function MyProjects(projects: map<Id, P.Project>, assignments: map<Id, P.Assignment>, user: Users.User): (r: set<Id>)
    ensures r <= VisibleProjects(projects, assignments, user)
  {
    set k | k in VisibleProjects(projects, assignments, user) && (projects[k].createdBy == user.id || P.IsMember(assignments, k, user.id))
  }

  /** For a user other than the superuser the extra filter removes nothing, so a creator who left
      the project does not see it; the superuser gets the projects they created or belong to. */
  lemma MyProjectsMeaning(projects: map<Id, P.Project>, assignments: map<Id, P.Assignment>, user: Users.User)
    ensures !user.isSuperuser ==> MyProjects(projects, assignments, user) == VisibleProjects(projects, assignments, user)
    ensures forall k :: k in MyProjects(projects, assignments, user) <==>
              k in projects && (P.IsMember(assignments, k, user.id) || (user.isSuperuser && projects[k].createdBy == user.id))
  {
  }

  // ---------------------------------------------------------------------------
  // Creating a project

  /** `ProjectViewSet.create`: the request is checked, `ProjectCreateSerializer.create` writes the
      project with the requester as creator and one membership per listed id, then `perform_create`
      adds the creator's own membership. When the creator listed themself, that last insert breaks
      the unique pair and raises: the request fails with a server error, and what was written stays.
      Every membership fires its receiver; the one for listed member `i` fails when `i` is in
      `notifyFails`, the creator's when `creatorNotifyFails` holds. */
  method CreateProject(db: Store.Db, requester: Id, input: PS.ProjectInput, entries: seq<Option<int>>, today: Day,
                       now: Instant, message: string, notifyFails: set<nat>, creatorNotifyFails: bool)
    returns (r: Result<P.Project, ApiError>)
    requires db.Valid()
    requires requester in db.users
    modifies db`projects, db`nextProject, db`assignments, db`nextAssignment, db`notifications, db`nextNotification
    ensures db.Valid()
    ensures !PS.CreateRequestValid(input, entries, db.users, today) ==>
              && r == Err(BadRequest)
              && db.projects == old(db.projects) && db.assignments == old(db.assignments)
              && db.notifications == old(db.notifications)
    ensures PS.CreateRequestValid(input, entries, db.users, today) ==>
              var p := P.Project(old(db.nextProject), input.name, input.description, input.status, input.startDate, input.endDate, requester);
              && db.projects == old(db.projects)[p.id := p]
              && (r.Ok? <==> Some(requester as int) !in entries)
              && (r.Ok? ==> r.value == p)
              && (r.Err? ==> r.error == ServerError)
              && (forall u: Id :: P.IsMember(db.assignments, p.id, u) <==> Some(u as int) in entries || u == requester)
              && (forall k :: k in old(db.assignments) ==> k in db.assignments && db.assignments[k] == old(db.assignments)[k])
              && (forall k :: k in db.assignments && k !in old(db.assignments) ==>
                    db.assignments[k].project == p.id && db.assignments[k].assignedBy == requester)
              && PS.NotifiedOfProject(old(db.notifications), db.notifications, p.id, requester)
  {
    var check := PS.ValidateProjectCreate(input, entries, db.users, today);
    if check.Fail? {
      return Err(BadRequest);
    }
    var draft := P.Project(1, input.name, input.description, input.status, input.startDate, input.endDate, requester);
    P.CleanIsDateOrder(draft);
    var inserted := db.InsertProject(draft);
    var project := inserted.value;
    PS.MemberListMeaning(entries, db.users);
    PS.CheckedListIds(entries, db.users);
    var ids := PS.SeenIds(entries);
    NewProjectHasNoMembers(db.assignments, old(db.projects), project.id);
    PS.AddMembers(db, project.id, ids, requester, message, now, notifyFails);
    var ok := AddCreator(db, project.id, requester, message, now, creatorNotifyFails, old(db.assignments), old(db.notifications), ids);
    if !ok {
      return Err(ServerError);
    }
    r := Ok(project);
  }

  /** A project that was not yet stored has no memberships: every row refers to a stored project. */
  lemma NewProjectHasNoMembers(assignments: map<Id, P.Assignment>, projects: map<Id, P.Project>, pid: Id)
    requires forall k :: k in assignments ==> assignments[k].project in projects
    requires pid !in projects
    ensures forall u: Id :: !P.IsMember(assignments, pid, u)
  {
  }

  /** `perform_create`'s insert of the creator's membership, with its receiver. */
  method AddCreator(db: Store.Db, pid: Id, requester: Id, message: string, now: Instant, fails: bool,
                    ghost a0: map<Id, P.Assignment>, ghost n0: map<Id, N.Notification>, ghost ids: seq<int>)
    returns (ok: bool)
    requires db.Valid()
    requires pid in db.projects && requester in db.users
    requires PS.MembersAdded(a0, db.assignments, pid, requester, ids)
    requires PS.NotifiedOfProject(n0, db.notifications, pid, requester)
    modifies db`assignments, db`nextAssignment, db`notifications, db`nextNotification
    ensures db.Valid()
    ensures ok <==> requester as int !in ids
    ensures !ok ==> db.assignments == old(db.assignments) && db.notifications == old(db.notifications)
    ensures ok ==> PS.MembersAdded(a0, db.assignments, pid, requester, ids + [requester as int])
    ensures PS.NotifiedOfProject(n0, db.notifications, pid, requester)
  {
    ghost var before := db.assignments;
    ghost var notesBefore := db.notifications;
    ghost var nextNote := db.nextNotification;
    ghost var name := db.projects[pid].name;
    var c := Signals.CreateAssignment(db, pid, requester, requester, message, now, fails);
    ok := c.Ok?;
    if ok {
      PS.MembersAddedStep(a0, before, pid, requester, ids, c.value);
    }
    PS.NotifiedAfterInsert(n0, notesBefore, db.notifications, pid, name, requester, requester, message, nextNote, now, ok && !fails);
  }

  // ---------------------------------------------------------------------------
  // Managing members

  /** The two gates of the assignment actions. */
  function ManageGate(projects: map<Id, P.Project>, assignments: map<Id, P.Assignment>, actor: Users.User, pid: Id): (r: Outcome<ApiError>)
    ensures r.Pass? <==> pid in projects && (actor.isSuperuser || (projects[pid].createdBy == actor.id && P.IsMember(assignments, pid, actor.id)))
    ensures r.Fail? && pid in projects && !actor.isSuperuser && projects[pid].createdBy != actor.id ==> r.error == Forbidden
    ensures pid !in projects ==> r == Fail(NotFound)
  {
    if pid !in projects then Fail(NotFound)
    else if !Permissions.CanManageProjectAssignments(actor, Some(projects[pid])) then Fail(Forbidden)
    else if pid !in VisibleProjects(projects, assignments, actor) then Fail(NotFound)
    else Pass
  }

  /** `assign_user`: after the gates and `AssignUserToProjectSerializer`, one membership is
      written, added by the actor, and its receiver runs. */
  method AssignUser(db: Store.Db, actor: Users.User, pid: Id, userId: int, message: string, now: Instant, fails: bool)
    returns (r: Result<P.Assignment, ApiError>)
    requires db.Valid()
    requires actor.id in db.users
    modifies db`assignments, db`nextAssignment, db`notifications, db`nextNotification
    ensures db.Valid()
    ensures r.Ok? <==> ManageGate(db.projects, old(db.assignments), actor, pid).Pass?
                       && PS.ValidateAssignUser(pid, userId, db.users, old(db.assignments)).Ok?
    ensures ManageGate(db.projects, old(db.assignments), actor, pid).Fail? ==>
              r == Err(ManageGate(db.projects, old(db.assignments), actor, pid).error)
    ensures (ManageGate(db.projects, old(db.assignments), actor, pid).Pass?
             && PS.ValidateAssignUser(pid, userId, db.users, old(db.assignments)).Err?) ==> r == Err(BadRequest)
    ensures r.Err? ==> db.assignments == old(db.assignments) && db.notifications == old(db.notifications)
    ensures r.Ok? ==> && r.value == P.Assignment(old(db.nextAssignment), pid, userId as Id, actor.id)
                      && db.assignments == old(db.assignments)[r.value.id := r.value]
                      && P.IsMember(db.assignments, pid, r.value.user)
    ensures r.Ok? && !fails ==>
              db.notifications == old(db.notifications)[old(db.nextNotification) :=
                N.FromDraft(old(db.nextNotification), now,
                            N.ProjectAssignedDraft(pid, db.projects[pid].name, userId as Id, actor.id, message))]
    ensures r.Ok? && fails ==> db.notifications == old(db.notifications)
  {
    var gate := ManageGate(db.projects, db.assignments, actor, pid);
    if gate.Fail? {
      return Err(gate.error);
    }
    var v := PS.ValidateAssignUser(pid, userId, db.users, db.assignments);
    if v.Err? {
      return Err(BadRequest);
    }
    var c := Signals.CreateAssignment(db, pid, v.value, actor.id, message, now, fails);
    P.AddMembership(old(db.assignments), c.value);
    r := Ok(c.value);
  }

  /** `remove_assignment`: after the gates, the membership must belong to this project (404
      otherwise) and may not be the creator's (400); then exactly that row is deleted. */
  method RemoveAssignment(db: Store.Db, actor: Users.User, pid: Id, assignmentId: int) returns (r: Outcome<ApiError>)
    requires db.Valid()
    modifies db`assignments
    ensures db.Valid()
    ensures var found := assignmentId > 0 && assignmentId as Id in old(db.assignments)
                         && old(db.assignments)[assignmentId as Id].project == pid;
            && (r.Pass? <==> ManageGate(db.projects, old(db.assignments), actor, pid).Pass? && found
                             && old(db.assignments)[assignmentId as Id].user != db.projects[pid].createdBy)
            && (ManageGate(db.projects, old(db.assignments), actor, pid).Pass? && !found ==> r == Fail(NotFound))
            && ((ManageGate(db.projects, old(db.assignments), actor, pid).Pass? && found
                 && old(db.assignments)[assignmentId as Id].user == db.projects[pid].createdBy) ==> r == Fail(BadRequest))
    ensures r.Fail? ==> db.assignments == old(db.assignments)
    ensures r.Pass? ==> && db.assignments == old(db.assignments) - {assignmentId as Id}
                        && !P.IsMember(db.assignments, pid, old(db.assignments)[assignmentId as Id].user)
    ensures pid in db.projects ==>
              (P.IsMember(old(db.assignments), pid, db.projects[pid].createdBy) ==> P.IsMember(db.assignments, pid, db.projects[pid].createdBy))
  {
    var gate := ManageGate(db.projects, db.assignments, actor, pid);
    if gate.Fail? {
      return gate;
    }
    if !(assignmentId > 0 && assignmentId as Id in db.assignments && db.assignments[assignmentId as Id].project == pid) {
      return Fail(NotFound);
    }
    var k := assignmentId as Id;
    if db.assignments[k].user == db.projects[pid].createdBy {
      return Fail(BadRequest);
    }
    P.RemoveMembership(db.assignments, k);
    db.DeleteAssignment(k);
    r := Pass;
  }
}
