/** Tasks and task comments (apps/tasks/models.py).

    A task belongs to one project, may be assigned to one of the project's members and has a
    due instant inside the project's date window. `completed_at` is derived by `save`: it is set
    exactly while the status is completed and an existing value is kept.

    The source tests `user.is_admin` without calling the method, which is always true in
    Python; the model uses the evidently intended test `role == admin` throughout. */
module Tasks {
  import opened Common
  import Users
  import Projects

  datatype TaskStatus = Pending | InProgress | Completed

  datatype Priority = Low | Medium | High | Urgent

  datatype Task = Task(
    id: Id,
    name: string,
    description: string,
    status: TaskStatus,
    priority: Priority,
    project: Id,
    assignedTo: Option<Id>,
    createdBy: Id,
    dueDate: Instant,
    completedAt: Option<Instant>)

  datatype Comment = Comment(id: Id, task: Id, author: Id, content: string)

  datatype TaskError =
    | NameBlank
    | NameTooLong
    | DueInPast
    | DueBeforeProjectStart
    | DueAfterProjectEnd
    | AssigneeNotMember

  const NameMaxLength: nat := 200

  /** `Task.clean`: the due date is not before today and lies inside the project's window,
      and an assignee belongs to the project. */
  function Clean(t: Task, project: Projects.Project, assignments: map<Id, Projects.Assignment>, now: Instant): Outcome<TaskError>
  {
    if DateOf(t.dueDate) < DateOf(now) then Fail(DueInPast)
    else if DateOf(t.dueDate) < project.startDate then Fail(DueBeforeProjectStart)
    else if DateOf(t.dueDate) > project.endDate then Fail(DueAfterProjectEnd)
    else if t.assignedTo.Some? && !Projects.IsMember(assignments, t.project, t.assignedTo.value) then Fail(AssigneeNotMember)
    else Pass
  }

  /** `full_clean` as `save` runs it: the name column's checks, then `clean`. */
  function FullClean(t: Task, project: Projects.Project, assignments: map<Id, Projects.Assignment>, now: Instant): Outcome<TaskError>
  {
    if |t.name| == 0 then Fail(NameBlank)
    else if |t.name| > NameMaxLength then Fail(NameTooLong)
    else Clean(t, project, assignments, now)
  }

  /** What `clean` accepts, stated as one condition per rule. */
  lemma CleanAccepts(t: Task, project: Projects.Project, assignments: map<Id, Projects.Assignment>, now: Instant)
    ensures Clean(t, project, assignments, now).Pass? <==>
              && DateOf(now) <= DateOf(t.dueDate)
              && project.startDate <= DateOf(t.dueDate) <= project.endDate
              && (t.assignedTo.Some? ==> Projects.IsMember(assignments, t.project, t.assignedTo.value))
    ensures Clean(t, project, assignments, now) == Fail(DueInPast) <==> DateOf(t.dueDate) < DateOf(now)
  {
  }

  // ---------------------------------------------------------------------------
  // completed_at

  /** `completed_at` agrees with the status. */
  predicate CompletedAtConsistent(t: Task)
  {
    t.completedAt.Some? <==> t.status == Completed
  }

  /** The first step of `Task.save`: stamp `completed_at` on a completed task that has none,
      clear it on any other status. */
  function WithCompletedAt(t: Task, now: Instant): Task
  {
    if t.status == Completed && t.completedAt.None? then t.(completedAt := Some(now))
    else if t.status != Completed then t.(completedAt := None)
    else t
  }

  lemma CompletedAtDerivation(t: Task, now: Instant)
    ensures CompletedAtConsistent(WithCompletedAt(t, now))
    ensures t.status == Completed && t.completedAt.Some? ==> WithCompletedAt(t, now) == t
    ensures t.status == Completed && t.completedAt.None? ==> WithCompletedAt(t, now).completedAt == Some(now)
    ensures WithCompletedAt(t, now).(completedAt := t.completedAt) == t
    ensures WithCompletedAt(WithCompletedAt(t, now), now + 1) == WithCompletedAt(t, now)
  {
  }

  // ---------------------------------------------------------------------------
  // Derived properties

  predicate IsOverdue(t: Task, now: Instant)
  {
    if t.status == Completed then false else now > t.dueDate
  }

  function DaysUntilDue(t: Task, now: Instant): Option<int>
  {
    if t.status == Completed then None else Some(DateOf(t.dueDate) - DateOf(now))
  }

  /** Due within the next 24 hours (or already past). */
  predicate IsUrgent(t: Task, now: Instant)
  {
    if t.status == Completed then false else t.dueDate <= now + 24 * SecondsPerHour
  }

  lemma DateOfMonotonic(a: Instant, b: Instant)
    requires a <= b
    ensures DateOf(a) <= DateOf(b)
  {
  }

  /** A completed task is never late; an open overdue task is urgent; a negative day count means overdue. */
  lemma DeadlineFlags(t: Task, now: Instant)
    ensures t.status == Completed ==> !IsOverdue(t, now) && !IsUrgent(t, now) && DaysUntilDue(t, now).None?
    ensures IsOverdue(t, now) ==> IsUrgent(t, now)
    ensures DaysUntilDue(t, now).Some? && DaysUntilDue(t, now).value < 0 ==> IsOverdue(t, now)
  {
    if t.status != Completed && DateOf(t.dueDate) < DateOf(now) && now <= t.dueDate {
      DateOfMonotonic(now, t.dueDate);
    }
  }

  // ---------------------------------------------------------------------------
  // Who may change a task

  predicate CanBeEditedBy(t: Task, user: Users.User, assignments: map<Id, Projects.Assignment>)
  {
    || Users.IsAdmin(user)
    || user.id == t.createdBy
    || t.assignedTo == Some(user.id)
    || Projects.IsMember(assignments, t.project, user.id)
  }

  predicate CanBeDeletedBy(t: Task, user: Users.User)
  {
    Users.IsAdmin(user) || user.id == t.createdBy
  }

  /** Deleting is the narrower right: whoever may delete may edit; a member who is neither admin nor creator may edit only. */
  lemma DeleteRightImpliesEditRight(t: Task, user: Users.User, assignments: map<Id, Projects.Assignment>)
    ensures CanBeDeletedBy(t, user) ==> CanBeEditedBy(t, user, assignments)
    ensures (!Users.IsAdmin(user) && user.id != t.createdBy && Projects.IsMember(assignments, t.project, user.id)) ==>
              CanBeEditedBy(t, user, assignments) && !CanBeDeletedBy(t, user)
  {
  }

  // ---------------------------------------------------------------------------
  // Comments

  datatype CommentError = ContentBlank | AuthorNotParticipant

  /** `TaskComment.clean`: the author is the assignee, a project member, the task's creator or an admin. */
  function CommentClean(author: Users.User, task: Task, assignments: map<Id, Projects.Assignment>): Outcome<CommentError>
  {
    var isAssignee := task.assignedTo == Some(author.id);
    var isMember := Projects.IsMember(assignments, task.project, author.id);
    var isCreator := task.createdBy == author.id;
    if !(isAssignee || isMember || isCreator || Users.IsAdmin(author)) then Fail(AuthorNotParticipant)
    else Pass
  }

  /** `full_clean` for a comment: the content column may not be blank, then `clean`. */
  function CommentFullClean(c: Comment, author: Users.User, task: Task, assignments: map<Id, Projects.Assignment>): Outcome<CommentError>
  {
    if |c.content| == 0 then Fail(ContentBlank) else CommentClean(author, task, assignments)
  }

  lemma CommentCleanRejectsOutsiders(author: Users.User, task: Task, assignments: map<Id, Projects.Assignment>)
    ensures CommentClean(author, task, assignments).Fail? <==>
              && task.assignedTo != Some(author.id)
              && !Projects.IsMember(assignments, task.project, author.id)
              && task.createdBy != author.id
              && !Users.IsAdmin(author)
  {
  }

  predicate CommentCanBeEditedBy(c: Comment, user: Users.User)
  {
    Users.IsAdmin(user) || user.id == c.author
  }

  predicate CommentCanBeDeletedBy(c: Comment, user: Users.User)
  {
    Users.IsAdmin(user) || user.id == c.author
  }

  /** Editing and deleting a comment are the same right: admin or author. */
  lemma CommentRightsCoincide(c: Comment, user: Users.User)
    ensures CommentCanBeEditedBy(c, user) <==> CommentCanBeDeletedBy(c, user)
    ensures CommentCanBeDeletedBy(c, user) <==> (Users.IsAdmin(user) || user.id == c.author)
  {
  }

  // ---------------------------------------------------------------------------
  // The rights as the source reads them

  /** The truth value of the attribute `user.is_admin`: a bound method, which Python treats as
      true whatever the user's role. */
  predicate IsAdminAttribute(user: Users.User)
  {
    true
  }

  /** `Task.can_be_edited_by` as written. */
  predicate CanBeEditedByAsWritten(t: Task, user: Users.User, assignments: map<Id, Projects.Assignment>)
  {
    || IsAdminAttribute(user)
    || user.id == t.createdBy
    || t.assignedTo == Some(user.id)
    || Projects.IsMember(assignments, t.project, user.id)
  }

  /** `Task.can_be_deleted_by` as written. */
  predicate CanBeDeletedByAsWritten(t: Task, user: Users.User)
  {
    IsAdminAttribute(user) || user.id == t.createdBy
  }

  /** `TaskComment.clean` as written. */
  function CommentCleanAsWritten(author: Users.User, task: Task, assignments: map<Id, Projects.Assignment>)
    : (r: Outcome<CommentError>)
    ensures r.Pass?
  {
    var isAssignee := task.assignedTo == Some(author.id);
    var isMember := Projects.IsMember(assignments, task.project, author.id);
    var isCreator := task.createdBy == author.id;
    if !(isAssignee || isMember || isCreator || IsAdminAttribute(author)) then Fail(AuthorNotParticipant)
    else Pass
  }

  /** `TaskComment.can_be_edited_by` and `can_be_deleted_by` as written. */
  predicate CommentRightAsWritten(c: Comment, user: Users.User)
  {
    IsAdminAttribute(user) || user.id == c.author
  }

  /** A viewer with no tie to a task: as written they may edit and delete it, comment on it and
      edit or delete someone else's comment; with the role test they may do none of these. */
  lemma StrangerPassesAsWritten()
    ensures var stranger := Users.User(2, "v@example.org", "Vera", "Vega", Users.Viewer, true, false, false);
            var t := Task(1, "Ship", "", Pending, Medium, 1, None, 1, 0, None);
            var c := Comment(1, 1, 1, "done");
            var noMembers: map<Id, Projects.Assignment> := map[];
            && CanBeEditedByAsWritten(t, stranger, noMembers) && !CanBeEditedBy(t, stranger, noMembers)
            && CanBeDeletedByAsWritten(t, stranger) && !CanBeDeletedBy(t, stranger)
            && CommentCleanAsWritten(stranger, t, noMembers).Pass? && CommentClean(stranger, t, noMembers).Fail?
            && CommentRightAsWritten(c, stranger) && !CommentCanBeDeletedBy(c, stranger)
  {
    var noMembers: map<Id, Projects.Assignment> := map[];
    assert !Projects.IsMember(noMembers, 1, 2);
  }

  /** With the role test, someone who is neither admin, creator, assignee, member nor author gets
      none of the rights. */
  lemma StrangersHaveNoRights(t: Task, c: Comment, user: Users.User, assignments: map<Id, Projects.Assignment>)
    requires !Users.IsAdmin(user) && user.id != t.createdBy && t.assignedTo != Some(user.id)
    requires !Projects.IsMember(assignments, t.project, user.id) && user.id != c.author
    ensures !CanBeEditedBy(t, user, assignments) && !CanBeDeletedBy(t, user)
    ensures CommentClean(user, t, assignments) == Fail(AuthorNotParticipant)
    ensures !CommentCanBeEditedBy(c, user) && !CommentCanBeDeletedBy(c, user)
  {
  }
}
