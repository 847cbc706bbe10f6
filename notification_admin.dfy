/** `NotificationAdmin` (apps/notifications/admin.py): what a staff user reaches in the admin site,
    what they may change or delete, the sender default on creation, and the two bulk actions.

    `get_queryset` is defined twice in the class; the later definition (the filtered one) is the
    one Python keeps, and it is the one modelled here. */
module NotificationAdmin {
  import opened Common
  import Users
  import N = Notifications
  import Store
  import NV = NotificationViews

  // ---------------------------------------------------------------------------
  // Reach and rights

  /** `get_queryset`: everything for the superuser, otherwise what the user received or sent. */
  function AdminVisible(m: map<Id, N.Notification>, user: Users.User): (r: set<Id>)
    ensures r <= m.Keys
    ensures user.isSuperuser ==> r == m.Keys
  {
    set k | k in m && (user.isSuperuser || m[k].recipient == user.id || m[k].sender == Some(user.id))
  }

  /** `has_change_permission`; `None` is the question asked without an object. */
  predicate HasChangePermission(user: Users.User, obj: Option<N.Notification>)
  {
    obj.None? || user.isSuperuser || obj.value.recipient == user.id || obj.value.sender == Some(user.id)
  }

  /** `has_delete_permission`. */
  predicate HasDeletePermission(user: Users.User, obj: Option<N.Notification>)
  {
    obj.None? || user.isSuperuser || obj.value.recipient == user.id
  }

  /** The admin list holds exactly the rows the user may change; deleting is the narrower right,
      and a sender who is not the recipient may change a row but not delete it. */
  lemma AdminRights(m: map<Id, N.Notification>, user: Users.User, k: Id)
    requires k in m
    ensures k in AdminVisible(m, user) <==> HasChangePermission(user, Some(m[k]))
    ensures HasDeletePermission(user, Some(m[k])) ==> HasChangePermission(user, Some(m[k]))
    ensures !user.isSuperuser && m[k].sender == Some(user.id) && m[k].recipient != user.id ==>
              HasChangePermission(user, Some(m[k])) && !HasDeletePermission(user, Some(m[k]))
  {
  }

  /** The admin shows a user everything the API shows them, and in addition what they sent. */
  lemma AdminSeesApiRows(m: map<Id, N.Notification>, user: Users.User)
    ensures NV.Visible(m, user) <= AdminVisible(m, user)
    ensures !user.isSuperuser ==>
              AdminVisible(m, user) == NV.Visible(m, user) + (set k | k in m && m[k].sender == Some(user.id))
  {
  }

  // ---------------------------------------------------------------------------
  // save_model

  /** The sender `save_model` writes: the acting user for a new notification without one, the
      given sender otherwise. */
  function SenderOnSave(sender: Option<Id>, actor: Id, change: bool): (r: Option<Id>)
    ensures r.Some?
            || (change && sender.None?)
    ensures change || sender.Some? ==> r == sender
    ensures !change && sender.None? ==> r == Some(actor)
  {
    if !change && sender.None? then Some(actor) else sender
  }

  /** Adding a notification in the admin: the sender defaults to the acting user, then the row is
      written. */
  method AddNotification(db: Store.Db, actor: Users.User, d: N.Draft, now: Instant) returns (n: N.Notification)
    requires db.Valid()
    modifies db`notifications, db`nextNotification
    ensures db.Valid()
    ensures n == N.FromDraft(old(db.nextNotification), now, d.(sender := SenderOnSave(d.sender, actor.id, false)))
    ensures n.sender.Some? && (d.sender.Some? ==> n.sender == d.sender)
    ensures db.notifications == old(db.notifications)[n.id := n]
  {
    var row := db.InsertNotification(d.(sender := SenderOnSave(d.sender, actor.id, false)), now, false);
    n := row.value;
  }

  /** Changing a notification in the admin: the row is saved as edited; its sender, even a missing
      one, is left as it is. */
  method ChangeNotification(db: Store.Db, n: N.Notification, now: Instant)
    requires db.Valid()
    requires n.id in db.notifications
    modifies db`notifications
    ensures db.Valid()
    ensures db.notifications == old(db.notifications)[n.id := N.SaveAdjusted(n, now)]
    ensures db.notifications[n.id].sender == n.sender
  {
    db.SaveNotification(n, now);
  }

  // ---------------------------------------------------------------------------
  // The mark_as_read and mark_as_unread actions

  /** The table after every selected row went through the model's `mark_as_read`. */
  function AllMarkedRead(m: map<Id, N.Notification>, selected: set<Id>, now: Instant): (r: map<Id, N.Notification>)
    ensures r.Keys == m.Keys
    ensures forall k :: k in m && k !in selected ==> r[k] == m[k]
  {
    map k | k in m :: if k in selected then N.MarkedRead(m[k], now) else m[k]
  }

  /** The table after every selected row went through the model's `mark_as_unread`. */
  function AllMarkedUnread(m: map<Id, N.Notification>, selected: set<Id>, now: Instant): (r: map<Id, N.Notification>)
    ensures r.Keys == m.Keys
    ensures forall k :: k in m && k !in selected ==> r[k] == m[k]
  {
    map k | k in m :: if k in selected then N.MarkedUnread(m[k], now) else m[k]
  }

  function UnreadAmong(m: map<Id, N.Notification>, selected: set<Id>): set<Id>
  {
    set k | k in selected && k in m && !m[k].isRead
  }

  function ReadAmong(m: map<Id, N.Notification>, selected: set<Id>): set<Id>
  {
    set k | k in selected && k in m && m[k].isRead
  }

  /** After the read action every selected row is read; rows that were read already keep their
      read instant. After the unread action every selected row is unread. */
  lemma ActionsOutcome(m: map<Id, N.Notification>, selected: set<Id>, now: Instant)
    ensures forall k :: k in selected && k in m ==> AllMarkedRead(m, selected, now)[k].isRead
    ensures forall k :: k in selected && k in m && m[k].isRead ==> AllMarkedRead(m, selected, now)[k] == m[k]
    ensures forall k :: k in selected && k in m ==> !AllMarkedUnread(m, selected, now)[k].isRead
  {
    forall k | k in selected && k in m
      ensures AllMarkedRead(m, selected, now)[k].isRead && !AllMarkedUnread(m, selected, now)[k].isRead
      ensures m[k].isRead ==> AllMarkedRead(m, selected, now)[k] == m[k]
    {
      N.MarkedReadSpec(m[k], now, now);
      N.MarkedUnreadSpec(m[k], now, now);
    }
  }

  /** One more selected row in the read action. */
  lemma ReadActionStep(start: map<Id, N.Notification>, done: set<Id>, k: Id, now: Instant)
    requires k in start && k !in done
    ensures AllMarkedRead(start, done, now)[k] == start[k]
    ensures AllMarkedRead(start, done, now)[k := N.MarkedRead(start[k], now)] == AllMarkedRead(start, done + {k}, now)
    ensures |UnreadAmong(start, done + {k})| == |UnreadAmong(start, done)| + (if start[k].isRead then 0 else 1)
  {
    assert UnreadAmong(start, done + {k}) == UnreadAmong(start, done) + (if start[k].isRead then {} else {k});
  }

  /** One more selected row in the unread action. */
  lemma UnreadActionStep(start: map<Id, N.Notification>, done: set<Id>, k: Id, now: Instant)
    requires k in start && k !in done
    ensures AllMarkedUnread(start, done, now)[k] == start[k]
    ensures AllMarkedUnread(start, done, now)[k := N.MarkedUnread(start[k], now)] == AllMarkedUnread(start, done + {k}, now)
    ensures |ReadAmong(start, done + {k})| == |ReadAmong(start, done)| + (if start[k].isRead then 1 else 0)
  {
    assert ReadAmong(start, done + {k}) == ReadAmong(start, done) + (if start[k].isRead then {k} else {});
  }

  /** The rows a selection names. */
  function Chosen(selection: seq<Id>): set<Id>
  {
    set x | x in selection
  }

  lemma ChosenPrefix(selection: seq<Id>, i: nat)
    requires i < |selection|
    requires forall a, b :: 0 <= a < b < |selection| ==> selection[a] != selection[b]
    ensures Chosen(selection[..i + 1]) == Chosen(selection[..i]) + {selection[i]}
    ensures selection[i] !in Chosen(selection[..i])
  {
    assert selection[..i + 1] == selection[..i] + [selection[i]];
  }

  /** One turn of the read action: the row goes through `mark_as_read` when it is unread. */
  method ReadOne(db: Store.Db, k: Id, now: Instant, ghost start: map<Id, N.Notification>, ghost done: set<Id>)
    returns (counted: bool)
    requires db.Valid()
    requires k in start && k !in done
    requires db.notifications == AllMarkedRead(start, done, now)
    modifies db`notifications
    ensures db.Valid()
    ensures db.notifications == AllMarkedRead(start, done + {k}, now)
    ensures counted <==> !start[k].isRead
  {
    ReadActionStep(start, done, k, now);
    N.MarkedReadSpec(start[k], now, now);
    counted := !db.notifications[k].isRead;
    if counted {
      NV.ModelMarkAsRead(db, k, now);
    } else {
      assert db.notifications == db.notifications[k := N.MarkedRead(start[k], now)];
    }
  }

  /** One turn of the unread action: the row goes through `mark_as_unread` when it is read. */
  method UnreadOne(db: Store.Db, k: Id, now: Instant, ghost start: map<Id, N.Notification>, ghost done: set<Id>)
    returns (counted: bool)
    requires db.Valid()
    requires k in start && k !in done
    requires db.notifications == AllMarkedUnread(start, done, now)
    modifies db`notifications
    ensures db.Valid()
    ensures db.notifications == AllMarkedUnread(start, done + {k}, now)
    ensures counted <==> start[k].isRead
  {
    UnreadActionStep(start, done, k, now);
    N.MarkedUnreadSpec(start[k], now, now);
    counted := db.notifications[k].isRead;
    if counted {
      NV.ModelMarkAsUnread(db, k, now);
    } else {
      assert db.notifications == db.notifications[k := N.MarkedUnread(start[k], now)];
    }
  }

  /** The `mark_as_read` action over the selected rows: each unread one goes through the model's
      `mark_as_read` and is counted. */
  method MarkAsReadAction(db: Store.Db, selection: seq<Id>, now: Instant) returns (updated: nat)
    requires db.Valid()
    requires forall i :: 0 <= i < |selection| ==> selection[i] in db.notifications
    requires forall i, j :: 0 <= i < j < |selection| ==> selection[i] != selection[j]
    modifies db`notifications
    ensures db.Valid()
    ensures updated == |UnreadAmong(old(db.notifications), Chosen(selection))|
    ensures db.notifications == AllMarkedRead(old(db.notifications), Chosen(selection), now)
  {
    ghost var start := db.notifications;
    updated := 0;
    var i := 0;
    assert Chosen(selection[..0]) == {};
    while i < |selection|
      invariant 0 <= i <= |selection|
      invariant db.Valid()
      invariant db.notifications == AllMarkedRead(start, Chosen(selection[..i]), now)
      invariant updated == |UnreadAmong(start, Chosen(selection[..i]))|
    {
      ChosenPrefix(selection, i);
      ReadActionStep(start, Chosen(selection[..i]), selection[i], now);
      var counted := ReadOne(db, selection[i], now, start, Chosen(selection[..i]));
      if counted {
        updated := updated + 1;
      }
      i := i + 1;
    }
    assert selection[..i] == selection;
  }

  /** The `mark_as_unread` action over the selected rows: each read one goes through the model's
      `mark_as_unread` and is counted. */
  method MarkAsUnreadAction(db: Store.Db, selection: seq<Id>, now: Instant) returns (updated: nat)
    requires db.Valid()
    requires forall i :: 0 <= i < |selection| ==> selection[i] in db.notifications
    requires forall i, j :: 0 <= i < j < |selection| ==> selection[i] != selection[j]
    modifies db`notifications
    ensures db.Valid()
    ensures updated == |ReadAmong(old(db.notifications), Chosen(selection))|
    ensures db.notifications == AllMarkedUnread(old(db.notifications), Chosen(selection), now)
  {
    ghost var start := db.notifications;
    updated := 0;
    var i := 0;
    assert Chosen(selection[..0]) == {};
    while i < |selection|
      invariant 0 <= i <= |selection|
      invariant db.Valid()
      invariant db.notifications == AllMarkedUnread(start, Chosen(selection[..i]), now)
      invariant updated == |ReadAmong(start, Chosen(selection[..i]))|
    {
      ChosenPrefix(selection, i);
      UnreadActionStep(start, Chosen(selection[..i]), selection[i], now);
      var counted := UnreadOne(db, selection[i], now, start, Chosen(selection[..i]));
      if counted {
        updated := updated + 1;
      }
      i := i + 1;
    }
    assert selection[..i] == selection;
  }
}
