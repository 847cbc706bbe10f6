/** The relational store behind the Django models.

    One table per model, keyed by primary key, plus the next key each table hands out. The
    model-level `save` overrides run here: a project or a task is validated with `full_clean`
    before it is written, a task first derives `completed_at`, a comment is validated, and a
    notification's read instant is adjusted. Constraint violations (`unique_together`, foreign
    keys) come back as `IntegrityError`; validation failures come back as the model's error.
    Users are read but never written by the modelled code, so their table is fixed. */
module Store {
  import opened Common
  import Users
  import P = Projects
  import T = Tasks
  import N = Notifications

  datatype DbError = IntegrityError

  class Db {
    const users: map<Id, Users.User>
    var projects: map<Id, P.Project>
    var assignments: map<Id, P.Assignment>
    var tasks: map<Id, T.Task>
    var comments: map<Id, T.Comment>
    var notifications: map<Id, N.Notification>
    var nextProject: Id
    var nextAssignment: Id
    var nextTask: Id
    var nextComment: Id
    var nextNotification: Id

    /** What every write keeps: keys are ids below the table's counter; a project's creator, a
        task's creator, a membership's project and user, a task's project, and a
        comment's task and author are stored rows (a task's assignee and a notification's links
        are not kept); stored projects pass `clean`, membership pairs are unique, tasks and
        notifications obey their timestamp rules, emails are unique. One conjunct per table, each
        reading only the fields it is about, so a write to one table leaves the others' facts alone. */
    ghost predicate Valid()
      reads this
    {
      && (forall k :: k in users ==> users[k].id == k)
      && Users.EmailsUnique(users)
      && ProjectsValid()
      && AssignmentsValid()
      && TasksValid()
      && CommentsValid()
      && NotificationsValid()
    }

    ghost predicate ProjectsValid()
      reads this`projects, this`nextProject
    {
      forall k :: k in projects ==>
        projects[k].id == k && k < nextProject && projects[k].createdBy in users && P.Clean(projects[k]).Pass?
    }

    ghost predicate AssignmentsValid()
      reads this`assignments, this`nextAssignment, this`projects
    {
      && (forall k :: k in assignments ==>
            assignments[k].id == k && k < nextAssignment
            && assignments[k].project in projects && assignments[k].user in users)
      && P.PairsUnique(assignments)
    }

    ghost predicate TasksValid()
      reads this`tasks, this`nextTask, this`projects
    {
      forall k :: k in tasks ==>
        && tasks[k].id == k && k < nextTask && tasks[k].project in projects
        && tasks[k].createdBy in users
        && T.CompletedAtConsistent(tasks[k])
    }

    ghost predicate CommentsValid()
      reads this`comments, this`nextComment, this`tasks
    {
      forall k :: k in comments ==>
        comments[k].id == k && k < nextComment && comments[k].task in tasks && comments[k].author in users
    }

    ghost predicate NotificationsValid()
      reads this`notifications, this`nextNotification
    {
      forall k :: k in notifications ==>
        notifications[k].id == k && k < nextNotification && N.ReadStateConsistent(notifications[k])
    }

    /** An empty database over a fixed set of users. */
    constructor (users: map<Id, Users.User>)
      requires forall k :: k in users ==> users[k].id == k
      requires Users.EmailsUnique(users)
      ensures Valid()
      ensures this.users == users
      ensures projects == map[] && assignments == map[] && tasks == map[] && comments == map[] && notifications == map[]
    {
      this.users := users;
      projects, assignments, tasks, comments, notifications := map[], map[], map[], map[], map[];
      nextProject, nextAssignment, nextTask, nextComment, nextNotification := 1, 1, 1, 1, 1;
    }

    // -------------------------------------------------------------------------
    // Projects

    /** `Project.objects.create`: `save` runs `full_clean`, then the row gets the next key. */
    method InsertProject(p: P.Project) returns (r: Result<P.Project, P.ProjectError>)
      requires Valid()
      requires p.createdBy in users
      modifies this`projects, this`nextProject
      ensures Valid()
      ensures r.Err? <==> P.FullClean(p).Fail?
      ensures r.Err? ==> r.error == P.FullClean(p).error && projects == old(projects) && nextProject == old(nextProject)
      ensures r.Ok? ==> r.value == p.(id := old(nextProject)) && projects == old(projects)[r.value.id := r.value]
    {
      var check := P.FullClean(p);
      if check.Fail? {
        return Err(check.error);
      }
      var row := p.(id := nextProject);
      projects := projects[row.id := row];
      nextProject := nextProject + 1;
      r := Ok(row);
    }

    /** `save` on an existing project: `full_clean`, then the row is overwritten. */
    method UpdateProject(p: P.Project) returns (r: Outcome<P.ProjectError>)
      requires Valid()
      requires p.id in projects && p.createdBy in users
      modifies this`projects
      ensures Valid()
      ensures r == P.FullClean(p)
      ensures projects == if r.Pass? then old(projects)[p.id := p] else old(projects)
    {
      r := P.FullClean(p);
      if r.Pass? {
        projects := projects[p.id := p];
      }
    }

    // -------------------------------------------------------------------------
    // Memberships

    /** `ProjectAssignment.objects.create`: no model validation runs; the database refuses a
        second row for the same pair and references to missing rows. */
    method InsertAssignment(project: Id, user: Id, assignedBy: Id) returns (r: Result<P.Assignment, DbError>)
      requires Valid()
      modifies this`assignments, this`nextAssignment
      ensures Valid()
      ensures r.Err? <==> P.IsMember(old(assignments), project, user) || project !in projects || user !in users || assignedBy !in users
      ensures r.Err? ==> assignments == old(assignments) && nextAssignment == old(nextAssignment)
      ensures r.Ok? ==> r.value == P.Assignment(old(nextAssignment), project, user, assignedBy)
                        && assignments == old(assignments)[r.value.id := r.value]
                        && P.IsMember(assignments, project, user)
    {
      if P.IsMember(assignments, project, user) || project !in projects || user !in users || assignedBy !in users {
        return Err(IntegrityError);
      }
      var a := P.Assignment(nextAssignment, project, user, assignedBy);
      P.AddMembership(assignments, a);
      assignments := assignments[a.id := a];
      nextAssignment := nextAssignment + 1;
      r := Ok(a);
    }

    /** `assignment.delete()`. */
    method DeleteAssignment(k: Id)
      requires Valid()
      requires k in assignments
      modifies this`assignments
      ensures Valid()
      ensures assignments == old(assignments) - {k}
      ensures !P.IsMember(assignments, old(assignments)[k].project, old(assignments)[k].user)
    {
      P.RemoveMembership(assignments, k);
      assignments := assignments - {k};
    }

    // -------------------------------------------------------------------------
    // Tasks

    /** `Task.save` for a new task: derive `completed_at`, run `full_clean`, write the row under the next key. */
    method InsertTask(t: T.Task, now: Instant) returns (r: Result<T.Task, T.TaskError>)
      requires Valid()
      requires t.project in projects && t.createdBy in users
      modifies this`tasks, this`nextTask
      ensures Valid()
      ensures var row := T.WithCompletedAt(t, now).(id := old(nextTask));
              && (r.Err? <==> T.FullClean(row, projects[t.project], assignments, now).Fail?)
              && (r.Ok? ==> r.value == row && tasks == old(tasks)[row.id := row])
              && (r.Err? ==> r.error == T.FullClean(row, projects[t.project], assignments, now).error
                             && tasks == old(tasks) && nextTask == old(nextTask))
    {
      var row := t.(id := nextTask);
      if row.status == T.Completed && row.completedAt.None? {
        row := row.(completedAt := Some(now));
      } else if row.status != T.Completed {
        row := row.(completedAt := None);
      }
      T.CompletedAtDerivation(t, now);
      var check := T.FullClean(row, projects[row.project], assignments, now);
      if check.Fail? {
        return Err(check.error);
      }
      tasks := tasks[row.id := row];
      nextTask := nextTask + 1;
      r := Ok(row);
    }

    /** `Task.save` for an existing task. */
    method UpdateTask(t: T.Task, now: Instant) returns (r: Result<T.Task, T.TaskError>)
      requires Valid()
      requires t.id in tasks && t.project in projects && t.createdBy in users
      modifies this`tasks
      ensures Valid()
      ensures var row := T.WithCompletedAt(t, now);
              && (r.Err? <==> T.FullClean(row, projects[t.project], assignments, now).Fail?)
              && (r.Ok? ==> r.value == row && tasks == old(tasks)[t.id := row])
              && (r.Err? ==> r.error == T.FullClean(row, projects[t.project], assignments, now).error && tasks == old(tasks))
    {
      var row := t;
      if row.status == T.Completed && row.completedAt.None? {
        row := row.(completedAt := Some(now));
      } else if row.status != T.Completed {
        row := row.(completedAt := None);
      }
      T.CompletedAtDerivation(t, now);
      var check := T.FullClean(row, projects[row.project], assignments, now);
      if check.Fail? {
        return Err(check.error);
      }
      tasks := tasks[row.id := row];
      r := Ok(row);
    }

    /** A task that passes `full_clean` is assigned, if at all, to a member, and members are users. */
    lemma AssigneeIsUser(t: T.Task, project: P.Project, now: Instant)
      requires AssignmentsValid()
      requires T.FullClean(t, project, assignments, now).Pass?
      ensures t.assignedTo.Some? ==> t.assignedTo.value in users
    {
      if t.assignedTo.Some? {
        var j :| j in assignments && assignments[j].project == t.project && assignments[j].user == t.assignedTo.value;
      }
    }

    // -------------------------------------------------------------------------
    // Comments

    /** `TaskComment.objects.create`: `save` runs `full_clean` (content present, author a participant). */
    method InsertComment(task: Id, author: Id, content: string) returns (r: Result<T.Comment, T.CommentError>)
      requires Valid()
      requires task in tasks && author in users
      modifies this`comments, this`nextComment
      ensures Valid()
      ensures var c := T.Comment(old(nextComment), task, author, content);
              var check := T.CommentFullClean(c, users[author], tasks[task], assignments);
              && (r.Err? <==> check.Fail?)
              && (r.Ok? ==> r.value == c && comments == old(comments)[c.id := c])
              && (r.Err? ==> r.error == check.error && comments == old(comments) && nextComment == old(nextComment))
    {
      var c := T.Comment(nextComment, task, author, content);
      var check := T.CommentFullClean(c, users[author], tasks[task], assignments);
      if check.Fail? {
        return Err(check.error);
      }
      comments := comments[c.id := c];
      nextComment := nextComment + 1;
      r := Ok(c);
    }

    /** `save` on an existing comment with new content. */
    method UpdateComment(k: Id, content: string) returns (r: Outcome<T.CommentError>)
      requires Valid()
      requires k in comments
      modifies this`comments
      ensures Valid()
      ensures var c := old(comments)[k].(content := content);
              && r == T.CommentFullClean(c, users[c.author], tasks[c.task], assignments)
              && comments == if r.Pass? then old(comments)[k := c] else old(comments)
    {
      var c := comments[k].(content := content);
      r := T.CommentFullClean(c, users[c.author], tasks[c.task], assignments);
      if r.Pass? {
        comments := comments[k := c];
      }
    }

    /** `comment.delete()`. */
    method DeleteComment(k: Id)
      requires Valid()
      requires k in comments
      modifies this`comments
      ensures Valid()
      ensures comments == old(comments) - {k}
    {
      comments := comments - {k};
    }

    // -------------------------------------------------------------------------
    // Notifications

    /** `Notification.objects.create` for a draft. When `fails` holds the insert raises and
        nothing is written. */
    method InsertNotification(d: N.Draft, now: Instant, fails: bool) returns (r: Option<N.Notification>)
      requires Valid()
      modifies this`notifications, this`nextNotification
      ensures Valid()
      ensures fails <==> r.None?
      ensures r.None? ==> notifications == old(notifications) && nextNotification == old(nextNotification)
      ensures r.Some? ==> r.value == N.FromDraft(old(nextNotification), now, d)
                          && notifications == old(notifications)[r.value.id := r.value]
                          && nextNotification == old(nextNotification) + 1
    {
      if fails {
        return None;
      }
      var n := N.FromDraft(nextNotification, now, d);
      notifications := notifications[n.id := n];
      nextNotification := nextNotification + 1;
      r := Some(n);
    }

    /** `save` on an existing notification: the read instant is adjusted, then the row is written. */
    method SaveNotification(n: N.Notification, now: Instant)
      requires Valid()
      requires n.id in notifications
      modifies this`notifications
      ensures Valid()
      ensures notifications == old(notifications)[n.id := N.SaveAdjusted(n, now)]
    {
      N.SaveAdjustedSpec(n, now);
      notifications := notifications[n.id := N.SaveAdjusted(n, now)];
    }
  }
}
