/** `TaskViewSet` and `CommentViewSet` (apps/tasks/views.py) over the store.

    A view first finds its object through `get_queryset` (404 when the object is outside it), then
    runs its own checks, then the serializer, then the save. A Django `ValidationError` raised by a
    model's `save` is not one the REST layer turns into a 400, so it ends the request as a server
    error; the same holds for the `TypeError` of the notification call in `change_status`, which
    passes keyword names the notification model does not have. */
module TaskViews {
  import opened Common
  import Users
  import P = Projects
  import T = Tasks
  import N = Notifications
  import Store
  import Signals
  import Permissions
  import TS = TaskSerializers

  // ---------------------------------------------------------------------------
  // Querysets

  /** `TaskViewSet.get_queryset`: every task for the superuser, otherwise the tasks of the
      projects the user belongs to. */
  function VisibleTasks(tasks: map<Id, T.Task>, assignments: map<Id, P.Assignment>, user: Users.User): (r: set<Id>)
    ensures r <= tasks.Keys
    ensures user.isSuperuser ==> r == tasks.Keys
  {
    set k | k in tasks && (user.isSuperuser || P.IsMember(assignments, tasks[k].project, user.id))
  }

  /** The task queryset admits exactly the tasks `IsProjectMember` lets the user see. */
  lemma VisibleTaskIsMemberPermission(tasks: map<Id, T.Task>, projects: map<Id, P.Project>, assignments: map<Id, P.Assignment>,
                                      user: Users.User, k: Id)
    requires k in tasks && tasks[k].project in projects && projects[tasks[k].project].id == tasks[k].project
    ensures k in VisibleTasks(tasks, assignments, user) <==>
              Permissions.ProjectMemberObject(user, assignments, Permissions.TaskRes(tasks[k], projects[tasks[k].project]))
  {
  }

  /** `CommentViewSet.get_queryset`: every comment for the superuser, otherwise the comments on
      tasks of the projects the user belongs to. */
  function VisibleComments(comments: map<Id, T.Comment>, tasks: map<Id, T.Task>, assignments: map<Id, P.Assignment>,
                           user: Users.User): (r: set<Id>)
    ensures r <= comments.Keys
    ensures forall k :: k in r && !user.isSuperuser ==> comments[k].task in VisibleTasks(tasks, assignments, user)
  {
    set k | k in comments
            && (user.isSuperuser || (comments[k].task in tasks && P.IsMember(assignments, tasks[comments[k].task].project, user.id)))
  }

  /** The comment queryset admits exactly the comments `IsCommentAuthorOrReadOnly` lets the user read. */
  lemma VisibleCommentIsReadable(comments: map<Id, T.Comment>, tasks: map<Id, T.Task>, assignments: map<Id, P.Assignment>,
                                 user: Users.User, k: Id)
    requires k in comments && comments[k].task in tasks
    ensures k in VisibleComments(comments, tasks, assignments, user) <==>
              Permissions.CommentAuthorOrReadOnly(user, Permissions.Get, assignments, comments[k], tasks[comments[k].task])
  {
  }

  // ---------------------------------------------------------------------------
  // Overdue tasks and the task dashboard

  /** The `overdue` filter: due before today's midnight and still open. */
  predicate InOverdueFilter(t: T.Task, today: Day)
  {
    DateOf(t.dueDate) < today && (t.status == T.Pending || t.status == T.InProgress)
  }

  /** What the filter selects is late by the task's own reckoning; it works on whole days, so a
      task that fell due earlier today is late but not yet selected. */
  lemma OverdueFilterMeansLate(t: T.Task, now: Instant)
    ensures InOverdueFilter(t, DateOf(now)) ==> T.IsOverdue(t, now) && T.DaysUntilDue(t, now).Some? && T.DaysUntilDue(t, now).value < 0
    ensures DateOf(t.dueDate) == DateOf(now) ==> !InOverdueFilter(t, DateOf(now))
  {
    if InOverdueFilter(t, DateOf(now)) && now <= t.dueDate {
      T.DateOfMonotonic(now, t.dueDate);
    }
  }

  datatype TaskCounts = TaskCounts(total: nat, pending: nat, inProgress: nat, completed: nat, overdue: nat)

  function WithStatus(tasks: map<Id, T.Task>, keys: set<Id>, s: T.TaskStatus): set<Id>
  {
    set k | k in keys && k in tasks && tasks[k].status == s
  }

  function Overdue(tasks: map<Id, T.Task>, keys: set<Id>, today: Day): set<Id>
  {
    set k | k in keys && k in tasks && InOverdueFilter(tasks[k], today)
  }

  /** The three statuses split any set of tasks, and the overdue ones are among the open ones. */
  lemma StatusPartition(tasks: map<Id, T.Task>, keys: set<Id>, today: Day)
    requires keys <= tasks.Keys
    ensures |keys| == |WithStatus(tasks, keys, T.Pending)| + |WithStatus(tasks, keys, T.InProgress)| + |WithStatus(tasks, keys, T.Completed)|
    ensures |Overdue(tasks, keys, today)| <= |WithStatus(tasks, keys, T.Pending)| + |WithStatus(tasks, keys, T.InProgress)|
  {
    var pending := WithStatus(tasks, keys, T.Pending);
    var inProgress := WithStatus(tasks, keys, T.InProgress);
    var completed := WithStatus(tasks, keys, T.Completed);
    var open := pending + inProgress;
    assert pending * inProgress == {};
    assert |open| == |pending| + |inProgress|;
    assert open * completed == {};
    assert keys == open + completed;
    var overdue := Overdue(tasks, keys, today);
    assert overdue <= open;
    assert open == overdue + (open - overdue);
  }

  /** `dashboard_stats`: the user's tasks counted in total, by status, and overdue. */
  function DashboardTaskCounts(tasks: map<Id, T.Task>, assignments: map<Id, P.Assignment>, user: Users.User, today: Day)
    : (c: TaskCounts)
    ensures c.total == |VisibleTasks(tasks, assignments, user)|
    ensures var visible := VisibleTasks(tasks, assignments, user);
            && c.pending == |WithStatus(tasks, visible, T.Pending)|
            && c.inProgress == |WithStatus(tasks, visible, T.InProgress)|
            && c.completed == |WithStatus(tasks, visible, T.Completed)|
            && c.overdue == |Overdue(tasks, visible, today)|
    ensures c.total == c.pending + c.inProgress + c.completed
    ensures c.overdue <= c.pending + c.inProgress
  {
    var visible := VisibleTasks(tasks, assignments, user);
    StatusPartition(tasks, visible, today);
    TaskCounts(|visible|, |WithStatus(tasks, visible, T.Pending)|, |WithStatus(tasks, visible, T.InProgress)|,
               |WithStatus(tasks, visible, T.Completed)|, |Overdue(tasks, visible, today)|)
  }

  // ---------------------------------------------------------------------------
  // Changing a task's status

  /** The inline test of `update_status`, with the manager/owner lookup false (memberships have
      no role). */
  predicate MayUpdateStatus(user: Users.User, t: T.Task)
  {
    user.isSuperuser || t.assignedTo == Some(user.id) || t.createdBy == user.id
  }

  /** The status right is narrower than the model's edit right: whoever may update the status may
      edit the task, while a plain member may edit it but not update its status this way. */
  lemma StatusRightWithinEditRight(user: Users.User, t: T.Task, assignments: map<Id, P.Assignment>)
    ensures MayUpdateStatus(user, t) && !user.isSuperuser ==> T.CanBeEditedBy(t, user, assignments)
    ensures (!user.isSuperuser && !Users.IsAdmin(user) && t.assignedTo != Some(user.id) && t.createdBy != user.id
             && P.IsMember(assignments, t.project, user.id)) ==>
              T.CanBeEditedBy(t, user, assignments) && !MayUpdateStatus(user, t)
  {
  }

  /** The row `save` writes for a status change. */
  function StatusChanged(t: T.Task, s: T.TaskStatus, now: Instant): (row: T.Task)
    ensures row.status == s && row.id == t.id && row.dueDate == t.dueDate && row.project == t.project
    ensures row.assignedTo == t.assignedTo
    ensures (row.completedAt.Some? <==> s == T.Completed)
    ensures s == T.Completed && t.completedAt.Some? ==> row.completedAt == t.completedAt
  {
    T.CompletedAtDerivation(t.(status := s), now);
    T.WithCompletedAt(t.(status := s), now)
  }

  /** Because `save` re-runs the due-date check, the status of a task whose due day has passed can no
      longer be changed: every status change of it fails in `save`. */
  lemma StatusOfLateTaskIsFrozen(t: T.Task, s: T.TaskStatus, project: P.Project, assignments: map<Id, P.Assignment>, now: Instant)
    requires DateOf(t.dueDate) < DateOf(now)
    ensures T.FullClean(StatusChanged(t, s, now), project, assignments, now).Fail?
  {
  }

  /** `update_status`: the task must be visible; the superuser, the assignee or the creator may go
      on; the requested status must differ from the current one; then the task is saved. */
  method UpdateStatus(db: Store.Db, actor: Users.User, k: Id, requested: T.TaskStatus, message: string, now: Instant)
    returns (r: Result<T.Task, ApiError>)
    requires db.Valid()
    modifies db`tasks, db`notifications, db`nextNotification
    ensures db.Valid()
    ensures db.notifications == old(db.notifications) && db.nextNotification == old(db.nextNotification)
    ensures r.Err? ==> db.tasks == old(db.tasks)
    ensures k !in VisibleTasks(old(db.tasks), db.assignments, actor) ==> r == Err(NotFound)
    ensures k in VisibleTasks(old(db.tasks), db.assignments, actor) ==>
              var t := old(db.tasks)[k];
              var row := StatusChanged(t, requested, now);
              && (!MayUpdateStatus(actor, t) ==> r == Err(Forbidden))
              && (MayUpdateStatus(actor, t) && requested == t.status ==> r == Err(BadRequest))
              && (MayUpdateStatus(actor, t) && requested != t.status ==>
                    && (r.Ok? <==> T.FullClean(row, db.projects[t.project], db.assignments, now).Pass?)
                    && (r.Ok? ==> r.value == row && db.tasks == old(db.tasks)[k := row])
                    && (r.Err? ==> r == Err(ServerError)))
  {
    if k !in VisibleTasks(db.tasks, db.assignments, actor) {
      return Err(NotFound);
    }
    var t := db.tasks[k];
    if !MayUpdateStatus(actor, t) {
      return Err(Forbidden);
    }
    var v := TS.ValidateStatus(t.status, requested);
    if v.Err? {
      return Err(BadRequest);
    }
    var saved := Signals.SaveTask(db, t.(status := v.value), message, now);
    if saved.Err? {
      return Err(ServerError);
    }
    r := Ok(saved.value);
  }

  /** The membership test of `change_status` is always met once `get_object` has found the task:
      a user who is not a member never reaches it. */
  lemma ChangeStatusAccessIsImplied(tasks: map<Id, T.Task>, assignments: map<Id, P.Assignment>, user: Users.User, k: Id)
    requires k in VisibleTasks(tasks, assignments, user)
    ensures user.isSuperuser || P.IsMember(assignments, tasks[k].project, user.id)
  {
  }

  /** `change_status`: any visible task; the requested status must differ from the current one;
      the task is saved; then, when the task has an assignee other than the actor, building the
      notification raises, so the request ends in a server error with the new status kept and no
      notification written. */
  method ChangeStatus(db: Store.Db, actor: Users.User, k: Id, requested: T.TaskStatus, message: string, now: Instant)
    returns (r: Result<T.Task, ApiError>)
    requires db.Valid()
    modifies db`tasks, db`notifications, db`nextNotification
    ensures db.Valid()
    ensures db.notifications == old(db.notifications) && db.nextNotification == old(db.nextNotification)
    ensures r != Err(Forbidden)
    ensures k !in VisibleTasks(old(db.tasks), db.assignments, actor) ==> r == Err(NotFound) && db.tasks == old(db.tasks)
    ensures k in VisibleTasks(old(db.tasks), db.assignments, actor) ==>
              var t := old(db.tasks)[k];
              var row := StatusChanged(t, requested, now);
              var saves := T.FullClean(row, db.projects[t.project], db.assignments, now).Pass?;
              && (requested == t.status ==> r == Err(BadRequest) && db.tasks == old(db.tasks))
              && (requested != t.status && !saves ==> r == Err(ServerError) && db.tasks == old(db.tasks))
              && (requested != t.status && saves ==>
                    && db.tasks == old(db.tasks)[k := row]
                    && (r.Ok? <==> t.assignedTo.None? || t.assignedTo == Some(actor.id))
                    && (r.Ok? ==> r.value == row)
                    && (r.Err? ==> r == Err(ServerError)))
  {
    if k !in VisibleTasks(db.tasks, db.assignments, actor) {
      return Err(NotFound);
    }
    ChangeStatusAccessIsImplied(db.tasks, db.assignments, actor, k);
    var t := db.tasks[k];
    var v := TS.ValidateStatus(t.status, requested);
    if v.Err? {
      return Err(BadRequest);
    }
    var saved := Signals.SaveTask(db, t.(status := v.value), message, now);
    if saved.Err? {
      return Err(ServerError);
    }
    if saved.value.assignedTo.Some? && saved.value.assignedTo != Some(actor.id) {
      // Notification(notification_type=..., related_object_type=...) raises TypeError here.
      return Err(ServerError);
    }
    r := Ok(saved.value);
  }

  // ---------------------------------------------------------------------------
  // Comments

  /** The `task` value of a comment request: absent or falsy, not an integer, or an integer. */
  datatype TaskParam = Absent | Malformed | Given(value: int)

  /** `Task.objects.filter(id=..., project__assignments__user=user).first()`: the task, when the user
      belongs to its project (for the superuser too). */
  function CommentTarget(tasks: map<Id, T.Task>, assignments: map<Id, P.Assignment>, user: Users.User, v: int): (r: Option<T.Task>)
    ensures r.Some? <==> v > 0 && v as Id in tasks && P.IsMember(assignments, tasks[v as Id].project, user.id)
    ensures r.Some? ==> r.value == tasks[v as Id]
  {
    if v > 0 && v as Id in tasks && P.IsMember(assignments, tasks[v as Id].project, user.id) then Some(tasks[v as Id]) else None
  }

  /** `CommentViewSet.create`: the task id is required and must be an integer; a user who is not a
      member of the task's project gets 404 unless superuser, and a superuser outside the project
      gets 400 from the serializer; the content must pass its checks. The comment is then written
      with the stripped content; its notifications are created by the receiver and again by the
      view, and a failure there does not change the answer. `mid` and `midNext` are the
      notification table and its counter between the two runs. */
  method CreateComment(db: Store.Db, actor: Users.User, param: TaskParam, content: string, message: string, now: Instant,
                       signalFailAt: Option<nat>, viewFailAt: Option<nat>)
    returns (r: Result<T.Comment, ApiError>, ghost mid: map<Id, N.Notification>, ghost midNext: Id)
    requires db.Valid()
    requires actor.id in db.users && db.users[actor.id] == actor
    modifies db`comments, db`nextComment, db`notifications, db`nextNotification
    ensures db.Valid()
    ensures r.Err? ==> && db.comments == old(db.comments) && db.nextComment == old(db.nextComment)
                       && db.notifications == old(db.notifications) && db.nextNotification == old(db.nextNotification)
    ensures param.Absent? || param.Malformed? || param == Given(0) ==> r == Err(BadRequest)
    ensures param.Given? && param.value != 0 && CommentTarget(db.tasks, db.assignments, actor, param.value).None? ==>
              r == Err(if actor.isSuperuser then BadRequest else NotFound)
    ensures param.Given? && CommentTarget(db.tasks, db.assignments, actor, param.value).Some? && TS.ValidateCommentContent(content).Err? ==>
              r == Err(BadRequest)
    ensures r.Ok? <==> && param.Given?
                       && CommentTarget(db.tasks, db.assignments, actor, param.value).Some?
                       && TS.ValidateCommentContent(content).Ok?
    ensures r.Ok? ==>
              && r.value == T.Comment(old(db.nextComment), param.value as Id, actor.id, Users.Strip(content))
              && db.comments == old(db.comments)[r.value.id := r.value]
              && Signals.CommentFanOut(old(db.notifications), old(db.nextNotification), mid, midNext,
                                       db.tasks[r.value.task], r.value, message, now, signalFailAt)
              && Signals.CommentFanOut(mid, midNext, db.notifications, db.nextNotification,
                                       db.tasks[r.value.task], r.value, message, now, viewFailAt)
  {
    mid, midNext := db.notifications, db.nextNotification;
    if param.Absent? || param.Malformed? || param.value == 0 {
      r := Err(BadRequest);
      return;
    }
    var target := CommentTarget(db.tasks, db.assignments, actor, param.value);
    if target.None? && !actor.isSuperuser {
      r := Err(NotFound);
      return;
    }
    var checked := TS.ValidateCommentContent(content);
    var allowed := TS.ValidateCommentCreate(actor, target, db.assignments);
    if checked.Err? || allowed.Fail? {
      r := Err(BadRequest);
      return;
    }
    var task := target.value;
    if !actor.isSuperuser {
      TS.CommentCreateMeetsClean(actor, task, db.assignments);
    }
    var c;
    c, mid, midNext := SaveAndNotify(db, task.id, actor.id, checked.value, message, now, signalFailAt, viewFailAt);
    r := Ok(c);
  }

  /** The write of `create` once every check passed: the comment with the receiver's
      notifications, then the view's own call of the same builder inside the same kind of
      `try`/`except`. */
  method SaveAndNotify(db: Store.Db, task: Id, author: Id, content: string, message: string, now: Instant,
                       signalFailAt: Option<nat>, viewFailAt: Option<nat>)
    returns (c: T.Comment, ghost mid: map<Id, N.Notification>, ghost midNext: Id)
    requires db.Valid()
    requires task in db.tasks && author in db.users
    requires T.CommentFullClean(T.Comment(db.nextComment, task, author, content), db.users[author], db.tasks[task], db.assignments).Pass?
    modifies db`comments, db`nextComment, db`notifications, db`nextNotification
    ensures db.Valid()
    ensures c == T.Comment(old(db.nextComment), task, author, content)
    ensures db.comments == old(db.comments)[c.id := c]
    ensures Signals.CommentFanOut(old(db.notifications), old(db.nextNotification), mid, midNext,
                                  db.tasks[task], c, message, now, signalFailAt)
    ensures Signals.CommentFanOut(mid, midNext, db.notifications, db.nextNotification, db.tasks[task], c, message, now, viewFailAt)
  {
    var saved := Signals.CreateComment(db, task, author, content, message, now, signalFailAt);
    c := saved.value;
    mid, midNext := db.notifications, db.nextNotification;
    Signals.OnCommentSaved(db, c, true, message, now, viewFailAt);
  }

  /** `update` with `perform_update`: the comment must be visible; only its author or the superuser
      may change it; the new content must not be blank and is stored stripped. The model's `save`
      re-checks the author, who may have left the project meanwhile. */
  method UpdateComment(db: Store.Db, actor: Users.User, k: Id, content: string) returns (r: Result<T.Comment, ApiError>)
    requires db.Valid()
    modifies db`comments
    ensures db.Valid()
    ensures r.Err? ==> db.comments == old(db.comments)
    ensures k !in VisibleComments(old(db.comments), db.tasks, db.assignments, actor) ==> r == Err(NotFound)
    ensures k in VisibleComments(old(db.comments), db.tasks, db.assignments, actor) ==>
              var c := old(db.comments)[k];
              && (c.author != actor.id && !actor.isSuperuser ==> r == Err(Forbidden))
              && ((c.author == actor.id || actor.isSuperuser) && TS.ValidateCommentEdit(content).Err? ==> r == Err(BadRequest))
              && ((c.author == actor.id || actor.isSuperuser) && TS.ValidateCommentEdit(content).Ok? ==>
                    var edited := c.(content := Users.Strip(content));
                    && (r.Ok? <==> T.CommentFullClean(edited, db.users[c.author], db.tasks[c.task], db.assignments).Pass?)
                    && (r.Ok? ==> r.value == edited && db.comments == old(db.comments)[k := edited])
                    && (r.Err? ==> r == Err(ServerError)))
  {
    if k !in VisibleComments(db.comments, db.tasks, db.assignments, actor) {
      return Err(NotFound);
    }
    var c := db.comments[k];
    if c.author != actor.id && !actor.isSuperuser {
      return Err(Forbidden);
    }
    var checked := TS.ValidateCommentEdit(content);
    if checked.Err? {
      return Err(BadRequest);
    }
    var saved := db.UpdateComment(k, checked.value);
    if saved.Fail? {
      return Err(ServerError);
    }
    r := Ok(c.(content := checked.value));
  }

  /** `destroy` with `perform_destroy`: the comment must be visible, and only its author or the
      superuser may delete it. */
  method DeleteComment(db: Store.Db, actor: Users.User, k: Id) returns (r: Outcome<ApiError>)
    requires db.Valid()
    modifies db`comments
    ensures db.Valid()
    ensures k !in VisibleComments(old(db.comments), db.tasks, db.assignments, actor) ==> r == Fail(NotFound)
    ensures k in VisibleComments(old(db.comments), db.tasks, db.assignments, actor) ==>
              (r.Pass? <==> old(db.comments)[k].author == actor.id || actor.isSuperuser)
    ensures r.Fail? ==> db.comments == old(db.comments)
    ensures r.Pass? ==> db.comments == old(db.comments) - {k}
    ensures r.Pass? ==> Permissions.CommentAuthorOrReadOnly(actor, Permissions.Delete, db.assignments, old(db.comments)[k],
                                                           db.tasks[old(db.comments)[k].task])
  {
    if k !in VisibleComments(db.comments, db.tasks, db.assignments, actor) {
      return Fail(NotFound);
    }
    if db.comments[k].author != actor.id && !actor.isSuperuser {
      return Fail(Forbidden);
    }
    db.DeleteComment(k);
    r := Pass;
  }
}
