/** Notifications (apps/notifications/models.py): rows, their read state, and who an event notifies.

    A notification is read exactly when it carries a read instant. `save` restores that rule on
    every write, and the model-level `mark_as_read` / `mark_as_unread` only act when the state
    actually changes. Titles are built from the task or project name; the free-text message is an
    opaque string supplied by the caller. */
module Notifications {
  import opened Common

  datatype NotificationType =
    | TaskAssigned
    | TaskCompleted
    | TaskOverdue
    | ProjectAssigned
    | ProjectCompleted
    | CommentAdded
    | DeadlineReminder
    | General

  datatype NotificationPriority = Low | Medium | High | Urgent

  datatype Notification = Notification(
    id: Id,
    recipient: Id,
    sender: Option<Id>,
    kind: NotificationType,
    priority: NotificationPriority,
    title: string,
    message: string,
    isRead: bool,
    readAt: Option<Instant>,
    relatedProject: Option<Id>,
    relatedTask: Option<Id>,
    extra: map<string, int>,
    createdAt: Instant)

  /** The invariant `save` maintains: read exactly when a read instant is recorded. */
  predicate ReadStateConsistent(n: Notification)
  {
    n.isRead <==> n.readAt.Some?
  }

  /** The adjustment `Notification.save` makes before writing: stamp a read notification that has
      no read instant, clear the instant of an unread one. */
  function SaveAdjusted(n: Notification, now: Instant): Notification
  {
    if n.isRead && n.readAt.None? then n.(readAt := Some(now))
    else if !n.isRead then n.(readAt := None)
    else n
  }

  lemma SaveAdjustedSpec(n: Notification, now: Instant)
    ensures ReadStateConsistent(SaveAdjusted(n, now))
    ensures SaveAdjusted(n, now).isRead == n.isRead
    ensures n.isRead && n.readAt.Some? ==> SaveAdjusted(n, now) == n
    ensures SaveAdjusted(n, now).(readAt := n.readAt) == n
    ensures ReadStateConsistent(n) ==> SaveAdjusted(n, now) == n
  {
  }

  /** Model-level `mark_as_read`: only an unread notification changes. */
  function MarkedRead(n: Notification, now: Instant): Notification
  {
    if !n.isRead then SaveAdjusted(n.(isRead := true, readAt := Some(now)), now) else n
  }

  /** Model-level `mark_as_unread`: only a read notification changes. */
  function MarkedUnread(n: Notification, now: Instant): Notification
  {
    if n.isRead then SaveAdjusted(n.(isRead := false, readAt := None), now) else n
  }

  lemma MarkedReadSpec(n: Notification, now: Instant, later: Instant)
    ensures MarkedRead(n, now).isRead
    ensures n.isRead ==> MarkedRead(n, now) == n
    ensures !n.isRead ==> MarkedRead(n, now) == n.(isRead := true, readAt := Some(now))
    ensures MarkedRead(MarkedRead(n, now), later) == MarkedRead(n, now)
    ensures ReadStateConsistent(n) ==> ReadStateConsistent(MarkedRead(n, now))
  {
  }

  lemma MarkedUnreadSpec(n: Notification, now: Instant, later: Instant)
    ensures !MarkedUnread(n, now).isRead
    ensures !n.isRead ==> MarkedUnread(n, now) == n
    ensures n.isRead ==> MarkedUnread(n, now) == n.(isRead := false, readAt := None)
    ensures MarkedUnread(MarkedUnread(n, now), later) == MarkedUnread(n, now)
    ensures ReadStateConsistent(n) ==> ReadStateConsistent(MarkedUnread(n, now)) && MarkedUnread(n, now).readAt.None?
  {
  }

  /** The `is_urgent` property. */
  predicate IsUrgent(n: Notification)
  {
    n.priority == Urgent
  }

  /** Urgency depends on the priority alone: reading a notification does not change it. */
  lemma UrgencyIgnoresReadState(n: Notification, now: Instant)
    ensures IsUrgent(MarkedRead(n, now)) == IsUrgent(n) == IsUrgent(MarkedUnread(n, now))
    ensures IsUrgent(n) <==> n.priority == Urgent
  {
  }

  // ---------------------------------------------------------------------------
  // Recipient computation

  /** The distinct elements of a sequence. */
  predicate NoDuplicates<T(==)>(s: seq<T>)
  {
    forall i, j :: 0 <= i < j < |s| ==> s[i] != s[j]
  }

  /** `create_task_completed_notification`'s candidate list: the project's creator, then the task's
      creator when different. */
  function CompletionCandidates(projectCreator: Id, taskCreator: Id): seq<Id>
  {
    [projectCreator] + (if taskCreator != projectCreator then [taskCreator] else [])
  }

  /** The elements of `s` other than `x`, in order. */
  function Without(s: seq<Id>, x: Id): (r: seq<Id>)
    ensures forall y :: y in r <==> y in s && y != x
    ensures |r| <= |s|
    ensures NoDuplicates(s) ==> NoDuplicates(r)
  {
    if s == [] then []
    else
      var front, last := s[..|s| - 1], s[|s| - 1];
      var init := Without(front, x);
      assert forall y :: y in s <==> y in front || y == last;
      assert NoDuplicates(s) ==> NoDuplicates(front) && last !in front;
      init + (if last != x then [last] else [])
  }

  /** Candidates other than the user who completed the task, in order. */
  function CompletionRecipients(projectCreator: Id, taskCreator: Id, completedBy: Id): (r: seq<Id>)
    ensures forall x :: x in r <==> (x == projectCreator || x == taskCreator) && x != completedBy
    ensures NoDuplicates(r)
    ensures |r| <= 2
  {
    Without(CompletionCandidates(projectCreator, taskCreator), completedBy)
  }

  /** `create_comment_notification`'s recipients: the assignee unless they wrote the comment, then
      the task's creator unless they wrote it or are already listed. */
  function CommentRecipients(assignee: Option<Id>, taskCreator: Id, author: Id): (r: seq<Id>)
    ensures forall x :: x in r <==> (assignee == Some(x) || x == taskCreator) && x != author
    ensures NoDuplicates(r)
    ensures |r| <= 2
    ensures assignee.Some? && assignee.value != author ==> r[0] == assignee.value
  {
    var first := if assignee.Some? && assignee.value != author then [assignee.value] else [];
    first + (if taskCreator != author && taskCreator !in first then [taskCreator] else [])
  }

  // ---------------------------------------------------------------------------
  // Notification rows built by the four classmethods (before the store assigns id and time)

  /** Everything about a notification except the identity and time the store gives it. */
  datatype Draft = Draft(
    recipient: Id,
    sender: Option<Id>,
    kind: NotificationType,
    priority: NotificationPriority,
    title: string,
    message: string,
    relatedProject: Option<Id>,
    relatedTask: Option<Id>,
    extra: map<string, int>)

  /** The row `objects.create` writes for a draft: unread, no read instant, `save`'s rule holding. */
  function FromDraft(id: Id, createdAt: Instant, d: Draft): (n: Notification)
    ensures ReadStateConsistent(n) && !n.isRead && n.id == id && n.createdAt == createdAt
    ensures n.recipient == d.recipient && n.sender == d.sender && n.kind == d.kind && n.priority == d.priority
    ensures n.relatedProject == d.relatedProject && n.relatedTask == d.relatedTask
  {
    SaveAdjusted(Notification(id, d.recipient, d.sender, d.kind, d.priority, d.title, d.message, false, None,
                              d.relatedProject, d.relatedTask, d.extra, createdAt), createdAt)
  }

  /** `create_task_assigned_notification`: to the assignee, from whoever assigned. */
  function TaskAssignedDraft(taskId: Id, taskName: string, projectId: Id, assignee: Id, assignedBy: Id, message: string): (d: Draft)
    ensures d.recipient == assignee && d.sender == Some(assignedBy)
    ensures d.kind == TaskAssigned && d.priority == Medium
    ensures d.relatedProject == Some(projectId) && d.relatedTask == Some(taskId)
    ensures d.extra.Keys == {"task_id", "project_id", "assigned_by_id"}
  {
    Draft(assignee, Some(assignedBy), TaskAssigned, Medium, "Nueva tarea asignada: " + taskName, message,
          Some(projectId), Some(taskId),
          map["task_id" := taskId, "project_id" := projectId, "assigned_by_id" := assignedBy])
  }

  /** One `create_task_completed_notification` row. */
  function TaskCompletedDraft(taskId: Id, taskName: string, projectId: Id, recipient: Id, completedBy: Id, message: string): (d: Draft)
    ensures d.recipient == recipient && d.sender == Some(completedBy)
    ensures d.kind == TaskCompleted && d.priority == Low
    ensures d.relatedProject == Some(projectId) && d.relatedTask == Some(taskId)
  {
    Draft(recipient, Some(completedBy), TaskCompleted, Low, "Tarea completada: " + taskName, message,
          Some(projectId), Some(taskId),
          map["task_id" := taskId, "project_id" := projectId, "completed_by_id" := completedBy])
  }

  /** `create_project_assigned_notification`: to the new member, from whoever added them; no task. */
  function ProjectAssignedDraft(projectId: Id, projectName: string, member: Id, assignedBy: Id, message: string): (d: Draft)
    ensures d.recipient == member && d.sender == Some(assignedBy)
    ensures d.kind == ProjectAssigned && d.priority == Medium
    ensures d.relatedProject == Some(projectId) && d.relatedTask.None?
  {
    Draft(member, Some(assignedBy), ProjectAssigned, Medium, "Asignado a proyecto: " + projectName, message,
          Some(projectId), None,
          map["project_id" := projectId, "assigned_by_id" := assignedBy])
  }

  /** One `create_comment_notification` row. */
  function CommentDraft(taskId: Id, taskName: string, projectId: Id, commentId: Id, recipient: Id, author: Id, message: string): (d: Draft)
    ensures d.recipient == recipient && d.sender == Some(author)
    ensures d.kind == CommentAdded && d.priority == Low
    ensures d.relatedProject == Some(projectId) && d.relatedTask == Some(taskId)
  {
    Draft(recipient, Some(author), CommentAdded, Low, "Nuevo comentario en: " + taskName, message,
          Some(projectId), Some(taskId),
          map["task_id" := taskId, "project_id" := projectId, "comment_id" := commentId, "author_id" := author])
  }

  /** The rows a run of inserts writes for a run of drafts: consecutive keys from `start`, one clock reading. */
  function Batch(start: Id, now: Instant, ds: seq<Draft>): (ns: seq<Notification>)
    ensures |ns| == |ds|
  {
    if ds == [] then []
    else Batch(start, now, ds[..|ds| - 1]) + [FromDraft(start + |ds| - 1, now, ds[|ds| - 1])]
  }

  /** Row `j` of a batch is draft `j` stored under key `start + j`: unread, with the draft's
      recipient, sender, type and related objects. */
  lemma {:induction false} BatchAt(start: Id, now: Instant, ds: seq<Draft>, j: nat)
    requires j < |ds|
    ensures Batch(start, now, ds)[j] == FromDraft(start + j, now, ds[j])
    ensures Batch(start, now, ds)[j].recipient == ds[j].recipient && Batch(start, now, ds)[j].sender == ds[j].sender
    ensures !Batch(start, now, ds)[j].isRead && Batch(start, now, ds)[j].id == start + j
  {
    if j < |ds| - 1 {
      BatchAt(start, now, ds[..|ds| - 1], j);
    }
  }

  /** Extending the drafts by one extends the batch by one row. */
  lemma BatchAppend(start: Id, now: Instant, ds: seq<Draft>, d: Draft)
    ensures Batch(start, now, ds + [d]) == Batch(start, now, ds) + [FromDraft(start + |ds|, now, d)]
  {
    assert (ds + [d])[..|ds|] == ds;
  }

  /** The drafts `create_task_completed_notification` writes, one per recipient. */
  function CompletedDrafts(taskId: Id, taskName: string, projectId: Id, recipients: seq<Id>, completedBy: Id, message: string): (ds: seq<Draft>)
    ensures |ds| == |recipients|
  {
    seq(|recipients|, j requires 0 <= j < |recipients| => TaskCompletedDraft(taskId, taskName, projectId, recipients[j], completedBy, message))
  }

  /** The drafts `create_comment_notification` writes, one per recipient. */
  function CommentDrafts(taskId: Id, taskName: string, projectId: Id, commentId: Id, recipients: seq<Id>, author: Id, message: string): (ds: seq<Draft>)
    ensures |ds| == |recipients|
  {
    seq(|recipients|, j requires 0 <= j < |recipients| => CommentDraft(taskId, taskName, projectId, commentId, recipients[j], author, message))
  }

  /** The table after a run of inserts: the i-th row written lands under key `start + i`,
      every other row is kept. */
  function Appended(m: map<Id, Notification>, start: Id, ns: seq<Notification>): (r: map<Id, Notification>)
    ensures forall k: Id :: k in r <==> k in m || start <= k < start + |ns|
    ensures forall k: Id :: start <= k < start + |ns| ==> r[k] == ns[k - start]
    ensures forall k: Id :: k in m && !(start <= k < start + |ns|) ==> r[k] == m[k]
  {
    if ns == [] then m
    else
      var front := ns[..|ns| - 1];
      var r := Appended(m, start, front);
      assert forall j :: 0 <= j < |front| ==> front[j] == ns[j];
      r[start + |front| := ns[|ns| - 1]]
  }

  /** One more insert of a batch: the next draft becomes the next row, under the next key. */
  lemma BatchStep(m: map<Id, Notification>, start: Id, now: Instant, ds: seq<Draft>, k: nat, created: seq<Notification>)
    requires k < |ds| && created == Batch(start, now, ds[..k])
    ensures created + [FromDraft(start + k, now, ds[k])] == Batch(start, now, ds[..k + 1])
    ensures Appended(m, start, created + [FromDraft(start + k, now, ds[k])]) ==
              Appended(m, start, created)[start + k := FromDraft(start + k, now, ds[k])]
  {
    assert ds[..k + 1] == ds[..k] + [ds[k]];
    BatchAppend(start, now, ds[..k], ds[k]);
    assert (created + [FromDraft(start + k, now, ds[k])])[..|created|] == created;
  }

  // ---------------------------------------------------------------------------
  // Per-recipient views and bulk operations over a table of notifications

  /** Keys of the user's notifications. */
  function OwnedBy(m: map<Id, Notification>, user: Id): set<Id>
  {
    set k | k in m && m[k].recipient == user
  }

  function UnreadOf(m: map<Id, Notification>, user: Id): set<Id>
  {
    set k | k in m && m[k].recipient == user && !m[k].isRead
  }

  function ReadOf(m: map<Id, Notification>, user: Id): set<Id>
  {
    set k | k in m && m[k].recipient == user && m[k].isRead
  }

  /** `get_unread_count_for_user` / the `unread_count` endpoint. */
  function UnreadCount(m: map<Id, Notification>, user: Id): nat
  {
    |UnreadOf(m, user)|
  }

  /** The `stats` counts: read plus unread is the total. */
  lemma ReadUnreadPartition(m: map<Id, Notification>, user: Id)
    ensures UnreadOf(m, user) + ReadOf(m, user) == OwnedBy(m, user)
    ensures UnreadOf(m, user) * ReadOf(m, user) == {}
    ensures |UnreadOf(m, user)| + |ReadOf(m, user)| == |OwnedBy(m, user)|
  {
    var s := OwnedBy(m, user);
    SplitCount(s, (k: Id) => k in m && !m[k].isRead);
    assert (set x | x in s && (x in m && !m[x].isRead)) == UnreadOf(m, user);
    assert (set x | x in s && !(x in m && !m[x].isRead)) == ReadOf(m, user);
  }

  /** The queryset update `filter(recipient=user, is_read=False).update(is_read=True, read_at=now)`:
      exactly the user's unread rows become read at `now`. */
  function MarkAllRead(m: map<Id, Notification>, user: Id, now: Instant): (r: map<Id, Notification>)
    ensures r.Keys == m.Keys
    ensures forall k :: k in UnreadOf(m, user) ==> r[k] == m[k].(isRead := true, readAt := Some(now))
    ensures forall k :: k in m && k !in UnreadOf(m, user) ==> r[k] == m[k]
    ensures UnreadCount(r, user) == 0
  {
    var r := map k | k in m :: if m[k].recipient == user && !m[k].isRead then m[k].(isRead := true, readAt := Some(now)) else m[k];
    assert UnreadOf(r, user) == {};
    r
  }

  /** Bulk validation of notification ids: the ids that are not the user's own. */
  function ForeignIds(m: map<Id, Notification>, user: Id, ids: set<int>): (bad: set<int>)
    ensures forall i :: i in bad <==> i in ids && !(0 < i && i in OwnedBy(m, user))
  {
    set i | i in ids && !(0 < i && i in OwnedBy(m, user))
  }

  /** The queryset update behind `bulk_update`: the selected rows get the read flag, with `read_at`
      set to `now` when reading and cleared when unreading; no other row changes. */
  function BulkSetRead(m: map<Id, Notification>, selected: set<Id>, isRead: bool, now: Instant): (r: map<Id, Notification>)
    ensures r.Keys == m.Keys
    ensures forall k :: k in m && k in selected ==>
              r[k] == m[k].(isRead := isRead, readAt := if isRead then Some(now) else None) && ReadStateConsistent(r[k])
    ensures forall k :: k in m && k !in selected ==> r[k] == m[k]
  {
    map k | k in m :: if k in selected then m[k].(isRead := isRead, readAt := if isRead then Some(now) else None) else m[k]
  }

  /** `delete_read`: the user's read rows go, everything else stays. */
  function RemoveRead(m: map<Id, Notification>, user: Id): (r: map<Id, Notification>)
    ensures r.Keys == m.Keys - ReadOf(m, user)
    ensures forall k :: k in r ==> r[k] == m[k]
    ensures ReadOf(r, user) == {}
  {
    var r := map k | k in m && !(m[k].recipient == user && m[k].isRead) :: m[k];
    assert ReadOf(r, user) == {};
    r
  }

  /** The user's rows created strictly before `cutoff`. */
  function OlderThan(m: map<Id, Notification>, user: Id, cutoff: Instant): set<Id>
  {
    set k | k in m && m[k].recipient == user && m[k].createdAt < cutoff
  }

  /** `delete_old`: the user's rows older than the cutoff go, everything else stays. */
  function RemoveOlderThan(m: map<Id, Notification>, user: Id, cutoff: Instant): (r: map<Id, Notification>)
    ensures r.Keys == m.Keys - OlderThan(m, user, cutoff)
    ensures forall k :: k in r ==> r[k] == m[k]
    ensures OlderThan(r, user, cutoff) == {}
  {
    var r := map k | k in m && !(m[k].recipient == user && m[k].createdAt < cutoff) :: m[k];
    assert OlderThan(r, user, cutoff) == {};
    r
  }

  /** Neither deletion touches another user's notifications. */
  lemma DeletionsStayWithinOwner(m: map<Id, Notification>, user: Id, cutoff: Instant, other: Id)
    requires other != user
    ensures OwnedBy(RemoveRead(m, user), other) == OwnedBy(m, other)
    ensures OwnedBy(RemoveOlderThan(m, user, cutoff), other) == OwnedBy(m, other)
    ensures UnreadOf(RemoveRead(m, user), user) == UnreadOf(m, user)
  {
  }
}
