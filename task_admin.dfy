/** `TaskAdmin` and `TaskCommentAdmin` (apps/tasks/admin.py): what a staff user reaches, the
    creator and author set on creation, the list filters, and the comment preview.

    Both classes define `get_queryset` twice; Python keeps the later, filtered definition, which
    is the one modelled here. */
module TaskAdmin {
  import opened Common
  import Users
  import P = Projects
  import T = Tasks
  import Store
  import Signals
  import TV = TaskViews

  // ---------------------------------------------------------------------------
  // Reach

  /** `TaskAdmin.get_queryset`: everything for the superuser, otherwise the tasks the user created,
      is assigned to, or whose project they belong to. */
  function AdminTasks(tasks: map<Id, T.Task>, assignments: map<Id, P.Assignment>, user: Users.User): (r: set<Id>)
    ensures r <= tasks.Keys
    ensures user.isSuperuser ==> r == tasks.Keys
  {
    set k | k in tasks
            && (|| user.isSuperuser
                || tasks[k].createdBy == user.id
                || tasks[k].assignedTo == Some(user.id)
                || P.IsMember(assignments, tasks[k].project, user.id))
  }

  /** `TaskCommentAdmin.get_queryset`: everything for the superuser, otherwise the comments on
      tasks the user created, is assigned to or whose project they belong to, and their own. */
  function AdminComments(comments: map<Id, T.Comment>, tasks: map<Id, T.Task>, assignments: map<Id, P.Assignment>,
                         user: Users.User): (r: set<Id>)
    ensures r <= comments.Keys
    ensures user.isSuperuser ==> r == comments.Keys
    ensures forall k :: k in comments && comments[k].author == user.id ==> k in r
  {
    set k | k in comments
            && (|| user.isSuperuser
                || comments[k].author == user.id
                || (comments[k].task in tasks && comments[k].task in AdminTasks(tasks, assignments, user)))
  }

  /** The admin reaches everything the API reaches, and for a non-superuser the extra tasks are
      exactly the ones they created or are assigned to outside their projects. */
  lemma AdminReachesApiRows(comments: map<Id, T.Comment>, tasks: map<Id, T.Task>, assignments: map<Id, P.Assignment>,
                            user: Users.User)
    ensures TV.VisibleTasks(tasks, assignments, user) <= AdminTasks(tasks, assignments, user)
    ensures TV.VisibleComments(comments, tasks, assignments, user) <= AdminComments(comments, tasks, assignments, user)
    ensures forall k :: k in AdminTasks(tasks, assignments, user) && k !in TV.VisibleTasks(tasks, assignments, user) ==>
              !user.isSuperuser && (tasks[k].createdBy == user.id || tasks[k].assignedTo == Some(user.id))
  {
  }

  /** A task the admin shows a non-superuser is one the model lets them edit. */
  lemma AdminTasksAreEditable(tasks: map<Id, T.Task>, assignments: map<Id, P.Assignment>, user: Users.User, k: Id)
    requires k in AdminTasks(tasks, assignments, user) && !user.isSuperuser
    ensures T.CanBeEditedBy(tasks[k], user, assignments)
  {
  }

  // ---------------------------------------------------------------------------
  // save_model

  /** Adding a task in the admin: the acting user becomes its creator whatever the form held, then
      `save` runs its checks and the receiver fires. */
  method AddTask(db: Store.Db, actor: Users.User, t: T.Task, message: string, now: Instant, fails: bool)
    returns (r: Result<T.Task, T.TaskError>)
    requires db.Valid()
    requires t.project in db.projects && actor.id in db.users
    modifies db`tasks, db`nextTask, db`notifications, db`nextNotification
    ensures db.Valid()
    ensures var row := T.WithCompletedAt(t.(createdBy := actor.id), now).(id := old(db.nextTask));
            && (r.Err? <==> T.FullClean(row, db.projects[t.project], db.assignments, now).Fail?)
            && (r.Ok? ==> r.value == row && db.tasks == old(db.tasks)[row.id := row])
            && (r.Err? ==> db.tasks == old(db.tasks))
    ensures r.Ok? ==> r.value.createdBy == actor.id
  {
    r := Signals.CreateTask(db, t.(createdBy := actor.id), message, now, fails);
  }

  /** Changing a task in the admin: the creator is whatever the form holds; nothing is forced and
      no notification is written. */
  method ChangeTask(db: Store.Db, t: T.Task, message: string, now: Instant) returns (r: Result<T.Task, T.TaskError>)
    requires db.Valid()
    requires t.id in db.tasks && t.project in db.projects && t.createdBy in db.users
    modifies db`tasks, db`notifications, db`nextNotification
    ensures db.Valid()
    ensures r.Ok? ==> r.value.createdBy == t.createdBy && db.tasks == old(db.tasks)[t.id := r.value]
    ensures r.Err? ==> db.tasks == old(db.tasks)
    ensures db.notifications == old(db.notifications)
  {
    r := Signals.SaveTask(db, t, message, now);
  }

  /** Adding a comment in the admin: the acting user becomes its author whatever the form held,
      then `save` runs its checks and the receiver notifies the task's people. */
  method AddComment(db: Store.Db, actor: Users.User, task: Id, content: string, message: string, now: Instant,
                    failAt: Option<nat>)
    returns (r: Result<T.Comment, T.CommentError>)
    requires db.Valid()
    requires task in db.tasks && actor.id in db.users
    modifies db`comments, db`nextComment, db`notifications, db`nextNotification
    ensures db.Valid()
    ensures var c := T.Comment(old(db.nextComment), task, actor.id, content);
            && (r.Err? <==> T.CommentFullClean(c, db.users[actor.id], db.tasks[task], db.assignments).Fail?)
            && (r.Ok? ==> r.value == c && db.comments == old(db.comments)[c.id := c])
            && (r.Err? ==> db.comments == old(db.comments) && db.notifications == old(db.notifications))
    ensures r.Ok? ==> Signals.CommentFanOut(old(db.notifications), old(db.nextNotification), db.notifications,
                                            db.nextNotification, db.tasks[task], r.value, message, now, failAt)
  {
    r := Signals.CreateComment(db, task, actor.id, content, message, now, failAt);
  }

  /** Changing a comment's content in the admin: the author is left as it is and no notification
      is written. */
  method ChangeComment(db: Store.Db, k: Id, content: string) returns (r: Outcome<T.CommentError>)
    requires db.Valid()
    requires k in db.comments
    modifies db`comments
    ensures db.Valid()
    ensures var c := old(db.comments)[k].(content := content);
            && (r.Fail? <==> T.CommentFullClean(c, db.users[c.author], db.tasks[c.task], db.assignments).Fail?)
            && (r.Pass? ==> db.comments == old(db.comments)[k := c])
            && (r.Fail? ==> db.comments == old(db.comments))
  {
    r := db.UpdateComment(k, content);
  }

  // ---------------------------------------------------------------------------
  // get_list_filter

  /** `s` without the entries equal to `x`, in their order. */
  function Without(s: seq<string>, x: string): (r: seq<string>)
    ensures |r| <= |s|
    ensures x !in r
    ensures forall y :: y != x ==> (y in r <==> y in s)
    ensures x !in s ==> r == s
  {
    if s == [] then []
    else if s[0] == x then Without(s[1..], x)
    else [s[0]] + Without(s[1..], x)
  }

  /** Removing entries keeps the order of the rest: it distributes over concatenation. */
  lemma {:induction false} WithoutDistributes(s: seq<string>, t: seq<string>, x: string)
    ensures Without(s + t, x) == Without(s, x) + Without(t, x)
  {
    if s == [] {
      assert s + t == t;
    } else {
      assert (s + t)[1..] == s[1..] + t;
      WithoutDistributes(s[1..], t, x);
    }
  }

  const TaskListFilter: seq<string> := ["status", "priority", "project", "due_date", "created_at", "assigned_to", "created_by"]

  /** `get_list_filter`: every filter for the superuser; without `created_by` for everyone else. */
  function ListFilter(user: Users.User): (r: seq<string>)
    ensures user.isSuperuser ==> r == TaskListFilter
    ensures !user.isSuperuser ==> r == TaskListFilter[..6] && "created_by" !in r
  {
    if user.isSuperuser then TaskListFilter
    else
      WithoutDistributes(TaskListFilter[..6], ["created_by"], "created_by");
      assert TaskListFilter == TaskListFilter[..6] + ["created_by"];
      Without(TaskListFilter, "created_by")
  }

  // ---------------------------------------------------------------------------
  // content_preview

  const PreviewLength: nat := 50

  /** `content_preview`: the first 50 characters and an ellipsis when the content is longer,
      otherwise the content itself. */
  function ContentPreview(content: string): (r: string)
    ensures |content| <= PreviewLength ==> r == content
    ensures |content| > PreviewLength ==> |r| == PreviewLength + 3 && r[..PreviewLength] == content[..PreviewLength]
                                          && r[PreviewLength..] == "..."
    ensures |r| <= PreviewLength + 3
  {
    if |content| > PreviewLength then content[..PreviewLength] + "..." else content
  }
}
