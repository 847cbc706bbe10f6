/** The three `post_save` receivers of apps/notifications/signals.py, and the saves that fire them.

    A receiver runs after the row is written. It acts only when the row was just created (and, for
    a task, only when it has an assignee), and it catches every exception raised while building the
    notifications, so the save that fired it completes with the same outcome either way. The
    failure of a notification insert is the `fails` / `failAt` parameter; the human-readable
    message is the `message` parameter. */
module Signals {
  import opened Common
  import Store
  import P = Projects
  import T = Tasks
  import N = Notifications
  import F = NotificationFactory

  /** `create_project_assignment_notification`. */
  method OnAssignmentSaved(db: Store.Db, a: P.Assignment, created: bool, message: string, now: Instant, fails: bool)
    requires db.Valid()
    requires a.project in db.projects
    modifies db`notifications, db`nextNotification
    ensures db.Valid()
    ensures !created || fails ==> db.notifications == old(db.notifications) && db.nextNotification == old(db.nextNotification)
    ensures created && !fails ==>
              && db.notifications == old(db.notifications)[old(db.nextNotification) :=
                   N.FromDraft(old(db.nextNotification), now,
                               N.ProjectAssignedDraft(a.project, db.projects[a.project].name, a.user, a.assignedBy, message))]
              && db.nextNotification == old(db.nextNotification) + 1
  {
    if created {
      var _ := F.CreateProjectAssigned(db, a, message, now, fails);
    }
  }

  /** `create_task_notification`: the sender is the task's creator, since nothing sets `_assigned_by`. */
  method OnTaskSaved(db: Store.Db, task: T.Task, created: bool, message: string, now: Instant, fails: bool)
    requires db.Valid()
    modifies db`notifications, db`nextNotification
    ensures db.Valid()
    ensures !created || task.assignedTo.None? || fails ==>
              db.notifications == old(db.notifications) && db.nextNotification == old(db.nextNotification)
    ensures created && task.assignedTo.Some? && !fails ==>
              && db.notifications == old(db.notifications)[old(db.nextNotification) :=
                   N.FromDraft(old(db.nextNotification), now,
                               N.TaskAssignedDraft(task.id, task.name, task.project, task.assignedTo.value, task.createdBy, message))]
              && db.nextNotification == old(db.nextNotification) + 1
  {
    if created && task.assignedTo.Some? {
      var _ := F.CreateTaskAssigned(db, task, task.createdBy, message, now, fails);
    }
  }

  /** How many of a run of `count` inserts are written when insert number `failAt` raises. */
  function Written(count: nat, failAt: Option<nat>): (n: nat)
    ensures n <= count
  {
    if failAt.Some? && failAt.value < count then failAt.value else count
  }

  /** The table after `create_comment_notification` ran for `comment` on `task`: the rows for
      the recipients before the failing insert were appended from key `start`. */
  ghost predicate CommentFanOut(before: map<Id, N.Notification>, start: Id, after: map<Id, N.Notification>, next: Id,
                                task: T.Task, comment: T.Comment, message: string, now: Instant, failAt: Option<nat>)
  {
    var rs := N.CommentRecipients(task.assignedTo, task.createdBy, comment.author);
    var n := Written(|rs|, failAt);
    && after == N.Appended(before, start,
                  N.Batch(start, now, N.CommentDrafts(task.id, task.name, task.project, comment.id, rs, comment.author, message)[..n]))
    && next == start + n
  }

  /** `create_comment_notification`: every new comment; each recipient's insert in turn until one raises. */
  method OnCommentSaved(db: Store.Db, comment: T.Comment, created: bool, message: string, now: Instant, failAt: Option<nat>)
    requires db.Valid()
    requires comment.task in db.tasks
    modifies db`notifications, db`nextNotification
    ensures db.Valid()
    ensures !created ==> db.notifications == old(db.notifications) && db.nextNotification == old(db.nextNotification)
    ensures created ==> CommentFanOut(old(db.notifications), old(db.nextNotification), db.notifications, db.nextNotification,
                                      db.tasks[comment.task], comment, message, now, failAt)
  {
    if created {
      var _, _ := F.CreateCommentNotifications(db, comment, message, now, failAt);
    }
  }

  // ---------------------------------------------------------------------------
  // Saves that fire the receivers

  /** `ProjectAssignment.objects.create` with its receiver: the insert's outcome does not depend
      on whether the notification could be written. */
  method CreateAssignment(db: Store.Db, project: Id, user: Id, assignedBy: Id, message: string, now: Instant, fails: bool)
    returns (r: Result<P.Assignment, Store.DbError>)
    requires db.Valid()
    modifies db`assignments, db`nextAssignment, db`notifications, db`nextNotification
    ensures db.Valid()
    ensures r.Err? <==> P.IsMember(old(db.assignments), project, user) || project !in db.projects || user !in db.users || assignedBy !in db.users
    ensures r.Err? ==> && db.assignments == old(db.assignments) && db.nextAssignment == old(db.nextAssignment)
                       && db.notifications == old(db.notifications) && db.nextNotification == old(db.nextNotification)
    ensures r.Ok? ==> && r.value == P.Assignment(old(db.nextAssignment), project, user, assignedBy)
                      && db.assignments == old(db.assignments)[r.value.id := r.value]
    ensures r.Ok? && fails ==> db.notifications == old(db.notifications)
    ensures r.Ok? && !fails ==>
              db.notifications == old(db.notifications)[old(db.nextNotification) :=
                N.FromDraft(old(db.nextNotification), now,
                            N.ProjectAssignedDraft(project, db.projects[project].name, user, assignedBy, message))]
  {
    r := db.InsertAssignment(project, user, assignedBy);
    if r.Ok? {
      OnAssignmentSaved(db, r.value, true, message, now, fails);
    }
  }

  /** `Task.objects.create` (or `save` on a new task) with its receiver. */
  method CreateTask(db: Store.Db, t: T.Task, message: string, now: Instant, fails: bool) returns (r: Result<T.Task, T.TaskError>)
    requires db.Valid()
    requires t.project in db.projects && t.createdBy in db.users
    modifies db`tasks, db`nextTask, db`notifications, db`nextNotification
    ensures db.Valid()
    ensures var row := T.WithCompletedAt(t, now).(id := old(db.nextTask));
            var check := T.FullClean(row, db.projects[t.project], db.assignments, now);
            && (r.Err? <==> check.Fail?)
            && (r.Ok? ==> r.value == row && db.tasks == old(db.tasks)[row.id := row])
            && (r.Err? ==> r.error == check.error && db.tasks == old(db.tasks))
    ensures r.Err? || t.assignedTo.None? || fails ==> db.notifications == old(db.notifications)
    ensures r.Ok? && t.assignedTo.Some? && !fails ==>
              db.notifications == old(db.notifications)[old(db.nextNotification) :=
                N.FromDraft(old(db.nextNotification), now,
                            N.TaskAssignedDraft(r.value.id, t.name, t.project, t.assignedTo.value, t.createdBy, message))]
  {
    r := db.InsertTask(t, now);
    if r.Ok? {
      OnTaskSaved(db, r.value, true, message, now, fails);
    }
  }

  /** `save` on an existing task: the receiver sees `created == False` and writes nothing. */
  method SaveTask(db: Store.Db, t: T.Task, message: string, now: Instant) returns (r: Result<T.Task, T.TaskError>)
    requires db.Valid()
    requires t.id in db.tasks && t.project in db.projects && t.createdBy in db.users
    modifies db`tasks, db`notifications, db`nextNotification
    ensures db.Valid()
    ensures var row := T.WithCompletedAt(t, now);
            var check := T.FullClean(row, db.projects[t.project], db.assignments, now);
            && (r.Err? <==> check.Fail?)
            && (r.Ok? ==> r.value == row && db.tasks == old(db.tasks)[t.id := row])
            && (r.Err? ==> r.error == check.error && db.tasks == old(db.tasks))
    ensures db.notifications == old(db.notifications) && db.nextNotification == old(db.nextNotification)
  {
    r := db.UpdateTask(t, now);
    if r.Ok? {
      OnTaskSaved(db, r.value, false, message, now, false);
    }
  }

  /** `TaskComment.objects.create` with its receiver. */
  method CreateComment(db: Store.Db, task: Id, author: Id, content: string, message: string, now: Instant, failAt: Option<nat>)
    returns (r: Result<T.Comment, T.CommentError>)
    requires db.Valid()
    requires task in db.tasks && author in db.users
    modifies db`comments, db`nextComment, db`notifications, db`nextNotification
    ensures db.Valid()
    ensures var c := T.Comment(old(db.nextComment), task, author, content);
            var check := T.CommentFullClean(c, db.users[author], db.tasks[task], db.assignments);
            && (r.Err? <==> check.Fail?)
            && (r.Ok? ==> r.value == c && db.comments == old(db.comments)[c.id := c])
            && (r.Err? ==> r.error == check.error && db.comments == old(db.comments))
    ensures r.Err? ==> db.notifications == old(db.notifications) && db.nextNotification == old(db.nextNotification)
    ensures r.Ok? ==> CommentFanOut(old(db.notifications), old(db.nextNotification), db.notifications, db.nextNotification,
                                    db.tasks[task], r.value, message, now, failAt)
  {
    r := db.InsertComment(task, author, content);
    if r.Err? {
      return;
    }
    ghost var comments := db.comments;
    OnCommentSaved(db, r.value, true, message, now, failAt);
    assert db.comments == comments;
  }
}
