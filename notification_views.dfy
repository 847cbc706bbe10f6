/** `NotificationViewSet` (apps/notifications/views.py) and the model-level writes of
    apps/notifications/models.py, over the notification table of the store.

    The queryset updates and deletions write the table directly, without the model's `save`; the
    rows they produce still keep "read exactly when a read instant is recorded". */
module NotificationViews {
  import opened Common
  import Users
  import N = Notifications
  import Store
  import Permissions
  import NS = NotificationSerializers

  // ---------------------------------------------------------------------------
  // What a user reaches

  /** `get_queryset`: every notification for the superuser, otherwise the user's own. */
  function Visible(m: map<Id, N.Notification>, user: Users.User): (r: set<Id>)
    ensures r <= m.Keys
    ensures !user.isSuperuser ==> r == N.OwnedBy(m, user.id)
  {
    set k | k in m && (user.isSuperuser || m[k].recipient == user.id)
  }

  /** The queryset and `IsNotificationRecipient` agree on every row. */
  lemma VisibleIsRecipientPermission(m: map<Id, N.Notification>, user: Users.User, k: Id)
    requires k in m
    ensures k in Visible(m, user) <==> Permissions.NotificationRecipient(user, m[k])
  {
  }

  // ---------------------------------------------------------------------------
  // Writing one row

  /** `create`: only the superuser may create through the API; the serializer then checks the
      request and the row is written. */
  method Create(db: Store.Db, actor: Users.User, input: NS.NotificationInput, now: Instant) returns (r: Result<N.Notification, ApiError>)
    requires db.Valid()
    modifies db`notifications, db`nextNotification
    ensures db.Valid()
    ensures !actor.isSuperuser ==> r == Err(Forbidden)
    ensures actor.isSuperuser && NS.CheckCreate(input, db.users, db.projects, db.tasks).Err? ==> r == Err(BadRequest)
    ensures r.Err? ==> db.notifications == old(db.notifications) && db.nextNotification == old(db.nextNotification)
    ensures actor.isSuperuser && NS.CheckCreate(input, db.users, db.projects, db.tasks).Ok? ==>
              && r == Ok(N.FromDraft(old(db.nextNotification), now, NS.CheckCreate(input, db.users, db.projects, db.tasks).value))
              && db.notifications == old(db.notifications)[r.value.id := r.value]
  {
    if !actor.isSuperuser {
      return Err(Forbidden);
    }
    var check := NS.CheckCreate(input, db.users, db.projects, db.tasks);
    if check.Err? {
      return Err(BadRequest);
    }
    var row := db.InsertNotification(check.value, now, false);
    r := Ok(row.value);
  }

  /** The `mark_as_read` action: a reachable row becomes read with `now` as its read instant,
      whatever its state was. */
  method MarkAsRead(db: Store.Db, actor: Users.User, k: Id, now: Instant) returns (r: Result<N.Notification, ApiError>)
    requires db.Valid()
    modifies db`notifications
    ensures db.Valid()
    ensures k !in Visible(old(db.notifications), actor) ==> r == Err(NotFound) && db.notifications == old(db.notifications)
    ensures k in Visible(old(db.notifications), actor) ==>
              && r == Ok(old(db.notifications)[k].(isRead := true, readAt := Some(now)))
              && db.notifications == old(db.notifications)[k := r.value]
  {
    if k !in Visible(db.notifications, actor) {
      return Err(NotFound);
    }
    var n := db.notifications[k].(isRead := true, readAt := Some(now));
    db.SaveNotification(n, now);
    r := Ok(n);
  }

  /** The `mark_as_unread` action: a reachable row becomes unread with no read instant. */
  method MarkAsUnread(db: Store.Db, actor: Users.User, k: Id, now: Instant) returns (r: Result<N.Notification, ApiError>)
    requires db.Valid()
    modifies db`notifications
    ensures db.Valid()
    ensures k !in Visible(old(db.notifications), actor) ==> r == Err(NotFound) && db.notifications == old(db.notifications)
    ensures k in Visible(old(db.notifications), actor) ==>
              && r == Ok(old(db.notifications)[k].(isRead := false, readAt := None))
              && db.notifications == old(db.notifications)[k := r.value]
  {
    if k !in Visible(db.notifications, actor) {
      return Err(NotFound);
    }
    var n := db.notifications[k].(isRead := false, readAt := None);
    db.SaveNotification(n, now);
    r := Ok(n);
  }

  /** The action re-stamps a read notification, where the model's `mark_as_read` leaves it as it was;
      on an unread one the two agree. */
  lemma ActionAndModelMarkRead(n: N.Notification, now: Instant)
    requires N.ReadStateConsistent(n)
    ensures !n.isRead ==> N.MarkedRead(n, now) == n.(isRead := true, readAt := Some(now))
    ensures n.isRead && n.readAt != Some(now) ==> N.MarkedRead(n, now) != n.(isRead := true, readAt := Some(now))
    ensures N.MarkedUnread(n, now) == n.(isRead := false, readAt := None)
  {
    N.MarkedReadSpec(n, now, now);
    N.MarkedUnreadSpec(n, now, now);
  }

  /** The model's `mark_as_read`: an unread row is read at `now` and saved; a read row is left alone. */
  method ModelMarkAsRead(db: Store.Db, k: Id, now: Instant)
    requires db.Valid()
    requires k in db.notifications
    modifies db`notifications
    ensures db.Valid()
    ensures db.notifications == old(db.notifications)[k := N.MarkedRead(old(db.notifications)[k], now)]
  {
    var n := db.notifications[k];
    N.MarkedReadSpec(n, now, now);
    if !n.isRead {
      db.SaveNotification(n.(isRead := true, readAt := Some(now)), now);
    } else {
      assert db.notifications == db.notifications[k := n];
    }
  }

  /** The model's `mark_as_unread`: a read row loses its read state and is saved; an unread row is left alone. */
  method ModelMarkAsUnread(db: Store.Db, k: Id, now: Instant)
    requires db.Valid()
    requires k in db.notifications
    modifies db`notifications
    ensures db.Valid()
    ensures db.notifications == old(db.notifications)[k := N.MarkedUnread(old(db.notifications)[k], now)]
  {
    var n := db.notifications[k];
    N.MarkedUnreadSpec(n, now, now);
    if n.isRead {
      db.SaveNotification(n.(isRead := false, readAt := None), now);
    } else {
      assert db.notifications == db.notifications[k := n];
    }
  }

  // ---------------------------------------------------------------------------
  // Bulk writes

  /** `mark_all_as_read` (the action and `mark_all_as_read_for_user`): the user's unread rows
      become read at `now`; the count is how many there were. */
  method MarkAllAsRead(db: Store.Db, user: Id, now: Instant) returns (count: nat)
    requires db.Valid()
    modifies db`notifications
    ensures db.Valid()
    ensures count == N.UnreadCount(old(db.notifications), user)
    ensures db.notifications == N.MarkAllRead(old(db.notifications), user, now)
  {
    count := |N.UnreadOf(db.notifications, user)|;
    db.notifications := N.MarkAllRead(db.notifications, user, now);
  }

  /** The keys a bulk request selects within the user's reach. */
  function Selected(m: map<Id, N.Notification>, actor: Users.User, ids: seq<int>): (s: set<Id>)
    ensures s <= Visible(m, actor)
    ensures forall k: Id :: k in s <==> k in Visible(m, actor) && (k as int) in ids
  {
    set k | k in Visible(m, actor) && (k as int) in ids
  }

  /** After the ids passed validation, the selection is exactly the distinct ids sent. */
  lemma ValidatedSelection(m: map<Id, N.Notification>, actor: Users.User, ids: seq<int>)
    requires NS.ValidateBulkIds(m, actor.id, Some(ids)).Ok?
    ensures forall v: int :: v in ids <==> v > 0 && (v as Id) in Selected(m, actor, ids)
  {
  }

  /** `bulk_update`: ids that are not all the user's own are refused; a request without an id list
      passes validation but then fails reading it; otherwise the selected rows get the read flag
      and the count is how many were selected. */
  method BulkUpdate(db: Store.Db, actor: Users.User, ids: Option<seq<int>>, isRead: bool, now: Instant) returns (r: Result<nat, ApiError>)
    requires db.Valid()
    modifies db`notifications
    ensures db.Valid()
    ensures NS.ValidateBulkIds(old(db.notifications), actor.id, ids).Err? ==> r == Err(BadRequest)
    ensures ids.None? ==> r == Err(ServerError)
    ensures r.Err? ==> db.notifications == old(db.notifications)
    ensures r.Ok? <==> ids.Some? && NS.ValidateBulkIds(old(db.notifications), actor.id, ids).Ok?
    ensures r.Ok? ==> && r.value == |Selected(old(db.notifications), actor, ids.value)|
                      && db.notifications == N.BulkSetRead(old(db.notifications), Selected(old(db.notifications), actor, ids.value), isRead, now)
  {
    var v := NS.ValidateBulkIds(db.notifications, actor.id, ids);
    if v.Err? {
      return Err(BadRequest);
    }
    if ids.None? {
      return Err(ServerError);
    }
    var selected := Selected(db.notifications, actor, ids.value);
    db.notifications := N.BulkSetRead(db.notifications, selected, isRead, now);
    r := Ok(|selected|);
  }

  /** `delete_read`: the user's read rows are deleted; the count is how many. */
  method DeleteRead(db: Store.Db, user: Id) returns (count: nat)
    requires db.Valid()
    modifies db`notifications
    ensures db.Valid()
    ensures count == |N.ReadOf(old(db.notifications), user)|
    ensures db.notifications == N.RemoveRead(old(db.notifications), user)
  {
    count := |N.ReadOf(db.notifications, user)|;
    db.notifications := N.RemoveRead(db.notifications, user);
  }

  const RetentionDays: nat := 30

  /** `delete_old`: the user's rows created more than 30 days before `now` are deleted. */
  method DeleteOld(db: Store.Db, user: Id, now: Instant) returns (count: nat)
    requires db.Valid()
    modifies db`notifications
    ensures db.Valid()
    ensures count == |N.OlderThan(old(db.notifications), user, now - RetentionDays * SecondsPerDay)|
    ensures db.notifications == N.RemoveOlderThan(old(db.notifications), user, now - RetentionDays * SecondsPerDay)
  {
    var cutoff := now - RetentionDays * SecondsPerDay;
    count := |N.OlderThan(db.notifications, user, cutoff)|;
    db.notifications := N.RemoveOlderThan(db.notifications, user, cutoff);
  }

  // ---------------------------------------------------------------------------
  // Counts

  datatype Stats = Stats(total: nat, unread: nat, read: nat, recent: nat)

  /** The user's rows created at or after `cutoff`. */
  function CreatedSince(m: map<Id, N.Notification>, user: Id, cutoff: Instant): set<Id>
  {
    set k | k in m && m[k].recipient == user && m[k].createdAt >= cutoff
  }

  /** The counts `stats` intends to answer: the user's rows, the unread and read ones among them,
      and those created in the last seven days. */
  function NotificationStats(m: map<Id, N.Notification>, user: Id, now: Instant): (s: Stats)
    ensures s.total == |N.OwnedBy(m, user)|
    ensures s.unread == N.UnreadCount(m, user) && s.read == |N.ReadOf(m, user)|
    ensures s.recent == |CreatedSince(m, user, now - 7 * SecondsPerDay)|
    ensures s.total == s.unread + s.read
    ensures s.recent <= s.total
  {
    N.ReadUnreadPartition(m, user);
    var cutoff := now - 7 * SecondsPerDay;
    var since := CreatedSince(m, user, cutoff);
    var owned := N.OwnedBy(m, user);
    assert owned == since + (owned - since);
    Stats(|N.OwnedBy(m, user)|, |N.UnreadOf(m, user)|, |N.ReadOf(m, user)|, |since|)
  }

  /** The names a query on `Notification` resolves: its fields, the `_id` columns of its foreign
      keys, and `pk`. */
  const NotificationColumns: set<string> := {
    "id", "pk", "recipient", "recipient_id", "sender", "sender_id", "type", "priority", "title",
    "message", "is_read", "read_at", "related_project", "related_project_id", "related_task",
    "related_task_id", "extra_data", "created_at", "updated_at"}

  /** The `stats` endpoint, which groups the user's rows by the name `groupBy` for
      `notifications_by_type`: a name no column carries raises FieldError while the query is
      built, and the request ends in a 500. */
  function StatsEndpoint(m: map<Id, N.Notification>, user: Id, now: Instant, groupBy: string): (r: Result<Stats, ApiError>)
    ensures r.Ok? <==> groupBy in NotificationColumns
    ensures r.Err? ==> r.error == ServerError
    ensures r.Ok? ==> r.value.total == |N.OwnedBy(m, user)| && r.value.unread == N.UnreadCount(m, user)
                      && r.value.total == r.value.unread + r.value.read
  {
    if groupBy in NotificationColumns then Ok(NotificationStats(m, user, now)) else Err(ServerError)
  }

  /** As written, `stats` groups by `notification_type`, which names no column: every call is a
      server error, whatever the user's rows. */
  lemma StatsAsWritten(m: map<Id, N.Notification>, user: Id, now: Instant)
    ensures StatsEndpoint(m, user, now, "notification_type") == Err(ServerError)
  {
  }

  /** Grouped by the field `type`, the endpoint answers with the counts. */
  lemma StatsByTypeColumn(m: map<Id, N.Notification>, user: Id, now: Instant)
    ensures var r := StatsEndpoint(m, user, now, "type");
            && r.Ok?
            && r.value.total == |N.OwnedBy(m, user)|
            && r.value.unread == N.UnreadCount(m, user)
            && r.value.read == |N.ReadOf(m, user)|
            && r.value.recent == |CreatedSince(m, user, now - 7 * SecondsPerDay)|
  {
  }

  /** `unread_count` drops to zero after `mark_all_as_read` and is unchanged by `delete_read`. */
  lemma UnreadCountAfterBulkWrites(m: map<Id, N.Notification>, user: Id, now: Instant)
    ensures N.UnreadCount(N.MarkAllRead(m, user, now), user) == 0
    ensures N.UnreadCount(N.RemoveRead(m, user), user) == N.UnreadCount(m, user)
  {
    N.DeletionsStayWithinOwner(m, user, now, user + 1);
  }
}
