/** The four `create_*_notification` classmethods of apps/notifications/models.py, as inserts
    into the store.

    Each insert may raise (`fails` / `failAt`, the position of the insert that raises); the
    rows written before the failing one stay, since the classmethods run without a transaction.
    The free-text message is supplied by the caller. */
module NotificationFactory {
  import opened Common
  import Store
  import T = Tasks
  import N = Notifications

  /** `create_task_assigned_notification`: one row for the assignee. */
  method CreateTaskAssigned(db: Store.Db, task: T.Task, assignedBy: Id, message: string, now: Instant, fails: bool)
    returns (r: Option<N.Notification>)
    requires db.Valid()
    requires task.assignedTo.Some?
    modifies db`notifications, db`nextNotification
    ensures db.Valid()
    ensures r.None? <==> fails
    ensures r.Some? ==> r.value == N.FromDraft(old(db.nextNotification), now,
                                              N.TaskAssignedDraft(task.id, task.name, task.project, task.assignedTo.value, assignedBy, message))
    ensures db.notifications == old(db.notifications) + (if r.Some? then map[r.value.id := r.value] else map[])
    ensures db.nextNotification == old(db.nextNotification) + (if r.Some? then 1 else 0)
  {
    var d := N.TaskAssignedDraft(task.id, task.name, task.project, task.assignedTo.value, assignedBy, message);
    r := db.InsertNotification(d, now, fails);
  }

  /** `create_project_assigned_notification`: one row for the new member, sent by whoever added them. */
  method CreateProjectAssigned(db: Store.Db, a: Store.P.Assignment, message: string, now: Instant, fails: bool)
    returns (r: Option<N.Notification>)
    requires db.Valid()
    requires a.project in db.projects
    modifies db`notifications, db`nextNotification
    ensures db.Valid()
    ensures r.None? <==> fails
    ensures r.Some? ==> r.value == N.FromDraft(old(db.nextNotification), now,
                                              N.ProjectAssignedDraft(a.project, db.projects[a.project].name, a.user, a.assignedBy, message))
    ensures db.notifications == old(db.notifications) + (if r.Some? then map[r.value.id := r.value] else map[])
    ensures db.nextNotification == old(db.nextNotification) + (if r.Some? then 1 else 0)
  {
    var d := N.ProjectAssignedDraft(a.project, db.projects[a.project].name, a.user, a.assignedBy, message);
    r := db.InsertNotification(d, now, fails);
  }

  /** `Without` over a prefix is a prefix of `Without` over the whole sequence. */
  lemma {:induction false} WithoutOfPrefix(s: seq<Id>, i: nat, x: Id)
    requires i <= |s|
    ensures N.Without(s[..i], x) <= N.Without(s, x)
    decreases |s| - i
  {
    if i == |s| {
      assert s[..i] == s;
    } else {
      var front := s[..|s| - 1];
      WithoutOfPrefix(front, i, x);
      assert front[..i] == s[..i];
    }
  }

  /** Walking one more candidate: a kept candidate is the next recipient, a skipped one adds nothing. */
  lemma WithoutStep(s: seq<Id>, i: nat, x: Id, n: nat)
    requires i < |s| && n <= |N.Without(s, x)|
    requires N.Without(s[..i], x) == N.Without(s, x)[..n]
    ensures s[i] != x ==> n < |N.Without(s, x)| && N.Without(s, x)[n] == s[i]
                          && N.Without(s[..i + 1], x) == N.Without(s, x)[..n + 1]
    ensures s[i] == x ==> N.Without(s[..i + 1], x) == N.Without(s, x)[..n]
  {
    assert s[..i + 1][..i] == s[..i];
    WithoutOfPrefix(s, i + 1, x);
  }

  /** Where a run of inserts stands: the first `|created|` drafts have become rows under
      consecutive keys from `start` on top of the table `m`, and none of those inserts was the
      one that raises. */
  ghost predicate RunSoFar(notifications: map<Id, N.Notification>, next: Id, m: map<Id, N.Notification>, start: Id,
                           now: Instant, drafts: seq<N.Draft>, failAt: Option<nat>, created: seq<N.Notification>)
  {
    && |created| <= |drafts|
    && created == N.Batch(start, now, drafts[..|created|])
    && (failAt.Some? ==> failAt.value >= |created|)
    && next == start + |created|
    && notifications == N.Appended(m, start, created)
  }

  /** One insert of a run: the next draft becomes the next row, unless this is the insert that
      raises, in which case nothing is written. */
  method InsertNext(db: Store.Db, ghost m: map<Id, N.Notification>, ghost start: Id, ghost drafts: seq<N.Draft>,
                    created: seq<N.Notification>, d: N.Draft, now: Instant, failAt: Option<nat>)
    returns (created': seq<N.Notification>, failed: bool)
    requires db.Valid()
    requires RunSoFar(db.notifications, db.nextNotification, m, start, now, drafts, failAt, created)
    requires |created| < |drafts| && drafts[|created|] == d
    modifies db`notifications, db`nextNotification
    ensures db.Valid()
    ensures failed ==> && failAt == Some(|created|) && created' == created
                       && db.notifications == old(db.notifications) && db.nextNotification == old(db.nextNotification)
    ensures !failed ==> && created' == created + [N.FromDraft(start + |created|, now, d)]
                        && RunSoFar(db.notifications, db.nextNotification, m, start, now, drafts, failAt, created')
  {
    N.BatchStep(m, start, now, drafts, |created|, created);
    failed := failAt.Some? && failAt.value == |created|;
    var r := db.InsertNotification(d, now, failed);
    created' := if r.Some? then created + [r.value] else created;
  }

  /** Where the loop of `create_task_completed_notification` stands after the first `i`
      candidates: every recipient met so far has its row. */
  ghost predicate CompletionWalked(notifications: map<Id, N.Notification>, next: Id, m: map<Id, N.Notification>, start: Id,
                                   candidates: seq<Id>, i: nat, task: T.Task, completedBy: Id, message: string,
                                   now: Instant, failAt: Option<nat>, created: seq<N.Notification>)
  {
    var rs := N.Without(candidates, completedBy);
    && i <= |candidates|
    && |created| <= |rs| && N.Without(candidates[..i], completedBy) == rs[..|created|]
    && RunSoFar(notifications, next, m, start, now,
                N.CompletedDrafts(task.id, task.name, task.project, rs, completedBy, message), failAt, created)
  }

  /** One turn of that loop: candidate `i` is skipped when it is the user who completed the
      task, otherwise it gets a row; `failed` tells that this insert raised. */
  method VisitCandidate(db: Store.Db, ghost m: map<Id, N.Notification>, ghost start: Id, candidates: seq<Id>, i: nat,
                        task: T.Task, completedBy: Id, message: string, now: Instant, failAt: Option<nat>,
                        created: seq<N.Notification>)
    returns (created': seq<N.Notification>, failed: bool)
    requires db.Valid() && i < |candidates|
    requires CompletionWalked(db.notifications, db.nextNotification, m, start, candidates, i, task, completedBy, message, now, failAt, created)
    modifies db`notifications, db`nextNotification
    ensures db.Valid()
    ensures failed ==> && failAt == Some(|created|) && |created| < |N.Without(candidates, completedBy)| && created' == created
                       && db.notifications == old(db.notifications) && db.nextNotification == old(db.nextNotification)
    ensures !failed ==> CompletionWalked(db.notifications, db.nextNotification, m, start, candidates, i + 1, task, completedBy, message, now, failAt, created')
  {
    ghost var rs := N.Without(candidates, completedBy);
    ghost var drafts := N.CompletedDrafts(task.id, task.name, task.project, rs, completedBy, message);
    var recipient := candidates[i];
    WithoutStep(candidates, i, completedBy, |created|);
    created', failed := created, false;
    if recipient != completedBy {
      var d := N.TaskCompletedDraft(task.id, task.name, task.project, recipient, completedBy, message);
      assert drafts[|created|] == d;
      created', failed := InsertNext(db, m, start, drafts, created, d, now, failAt);
    }
  }

  /** The loop of `create_task_completed_notification` over any candidate list: one insert per
      candidate other than the user who completed the task, in order, until an insert raises. */
  method NotifyCandidates(db: Store.Db, candidates: seq<Id>, task: T.Task, completedBy: Id, message: string,
                          now: Instant, failAt: Option<nat>)
    returns (created: seq<N.Notification>, ok: bool)
    requires db.Valid()
    modifies db`notifications, db`nextNotification
    ensures db.Valid()
    ensures var rs := N.Without(candidates, completedBy);
            && (ok <==> !(failAt.Some? && failAt.value < |rs|))
            && (ok ==> |created| == |rs|)
            && (!ok ==> failAt == Some(|created|))
            && |created| <= |rs|
            && created == N.Batch(old(db.nextNotification), now,
                                  N.CompletedDrafts(task.id, task.name, task.project, rs, completedBy, message)[..|created|])
    ensures db.notifications == N.Appended(old(db.notifications), old(db.nextNotification), created)
    ensures db.nextNotification == old(db.nextNotification) + |created|
  {
    ghost var start := db.nextNotification;
    created := [];
    var i := 0;
    while i < |candidates|
      invariant db.Valid()
      invariant CompletionWalked(db.notifications, db.nextNotification, old(db.notifications), start, candidates, i,
                                 task, completedBy, message, now, failAt, created)
    {
      var failed;
      created, failed := VisitCandidate(db, old(db.notifications), start, candidates, i, task, completedBy, message, now, failAt, created);
      if failed {
        return created, false;
      }
      i := i + 1;
    }
    assert candidates[..i] == candidates;
    ok := true;
  }

  /** `create_task_completed_notification`: the candidates are the project's creator, then the
      task's creator when different; the user who completed the task is skipped. */
  method CreateTaskCompleted(db: Store.Db, task: T.Task, completedBy: Id, message: string, now: Instant, failAt: Option<nat>)
    returns (created: seq<N.Notification>, ok: bool)
    requires db.Valid()
    requires task.project in db.projects
    modifies db`notifications, db`nextNotification
    ensures db.Valid()
    ensures var rs := N.CompletionRecipients(db.projects[task.project].createdBy, task.createdBy, completedBy);
            && (ok <==> !(failAt.Some? && failAt.value < |rs|))
            && (ok ==> |created| == |rs|)
            && (!ok ==> failAt == Some(|created|))
            && created == N.Batch(old(db.nextNotification), now,
                                  N.CompletedDrafts(task.id, task.name, task.project, rs, completedBy, message)[..|created|])
    ensures db.notifications == N.Appended(old(db.notifications), old(db.nextNotification), created)
    ensures db.nextNotification == old(db.nextNotification) + |created|
  {
    var candidates := N.CompletionCandidates(db.projects[task.project].createdBy, task.createdBy);
    created, ok := NotifyCandidates(db, candidates, task, completedBy, message, now, failAt);
  }

  /** `create_comment_notification`: one insert per recipient (assignee, then task creator,
      never the author, no one twice), until an insert raises. */
  method CreateCommentNotifications(db: Store.Db, comment: T.Comment, message: string, now: Instant, failAt: Option<nat>)
    returns (created: seq<N.Notification>, ok: bool)
    requires db.Valid()
    requires comment.task in db.tasks
    modifies db`notifications, db`nextNotification
    ensures db.Valid()
    ensures var task := db.tasks[comment.task];
            var rs := N.CommentRecipients(task.assignedTo, task.createdBy, comment.author);
            && (ok <==> !(failAt.Some? && failAt.value < |rs|))
            && (ok ==> |created| == |rs|)
            && (!ok ==> failAt == Some(|created|))
            && |created| <= |rs|
            && created == N.Batch(old(db.nextNotification), now,
                                  N.CommentDrafts(task.id, task.name, task.project, comment.id, rs, comment.author, message)[..|created|])
    ensures db.notifications == N.Appended(old(db.notifications), old(db.nextNotification), created)
    ensures db.nextNotification == old(db.nextNotification) + |created|
  {
    var task := db.tasks[comment.task];
    var recipients := N.CommentRecipients(task.assignedTo, task.createdBy, comment.author);
    ghost var drafts := N.CommentDrafts(task.id, task.name, task.project, comment.id, recipients, comment.author, message);
    ghost var start := db.nextNotification;
    created := [];
    var i := 0;
    while i < |recipients|
      invariant db.Valid()
      invariant i == |created|
      invariant RunSoFar(db.notifications, db.nextNotification, old(db.notifications), start, now, drafts, failAt, created)
    {
      var d := N.CommentDraft(task.id, task.name, task.project, comment.id, recipients[i], comment.author, message);
      assert drafts[i] == d;
      var failed;
      created, failed := InsertNext(db, old(db.notifications), start, drafts, created, d, now, failAt);
      if failed {
        return created, false;
      }
      i := i + 1;
    }
    ok := true;
  }
}
