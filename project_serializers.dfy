/** The input checks and writes of apps/projects/serializers.py.

    Dates are day numbers and `today` is a parameter. Each entry of a creation request's member
    list is the value under its `user_id` key, or none when the key is missing; user ids are
    integers. DRF's generic field parsing is not part of this model, except for the name column's
    blank and length checks that a `ModelSerializer` derives from the model. */
module ProjectSerializers {
  import opened Common
  import Users
  import P = Projects
  import N = Notifications
  import Store
  import Signals

  datatype ProjectFieldError =
    | EndBeforeStart
    | StartInPast
    | NameTaken
    | NameBlank
    | NameTooLong
    | MissingUserId
    | DuplicateUser(user: int)
    | UserNotFoundOrInactive(user: int)
    | AlreadyMember

  // ---------------------------------------------------------------------------
  // Dates

  /** `ProjectSerializer.validate`: when both dates are given they must be in order, and a new
      project may not start before today; an existing one may. */
  function ValidateDates(start: Option<Day>, end: Option<Day>, creating: bool, today: Day): (r: Outcome<ProjectFieldError>)
    ensures r.Pass? <==> start.None? || end.None? || (start.value <= end.value && (creating ==> today <= start.value))
    ensures r == Fail(EndBeforeStart) <==> start.Some? && end.Some? && start.value > end.value
    ensures r == Fail(StartInPast) <==> start.Some? && end.Some? && start.value <= end.value && creating && start.value < today
  {
    if start.Some? && end.Some? then
      if start.value > end.value then Fail(EndBeforeStart)
      else if creating && start.value < today then Fail(StartInPast)
      else Pass
    else Pass
  }

  /** Dates that pass the check are dates the model's `clean` accepts. */
  lemma CheckedDatesPassClean(p: P.Project, creating: bool, today: Day)
    requires ValidateDates(Some(p.startDate), Some(p.endDate), creating, today).Pass?
    ensures P.Clean(p).Pass?
  {
    P.CleanIsDateOrder(p);
  }

  /** `ProjectUpdateSerializer.validate`: an omitted date is taken from the stored project, then
      the two must be in order; an update may leave a start date in the past. */
  function ValidateUpdateDates(instance: P.Project, start: Option<Day>, end: Option<Day>): (r: Outcome<ProjectFieldError>)
    ensures r.Pass? <==> (if start.Some? then start.value else instance.startDate) <= (if end.Some? then end.value else instance.endDate)
    ensures r.Fail? ==> r.error == EndBeforeStart
  {
    var s := if start.Some? then start.value else instance.startDate;
    var e := if end.Some? then end.value else instance.endDate;
    if s > e then Fail(EndBeforeStart) else Pass
  }

  /** The fallback makes the update check exactly the stored project's `clean` after the update;
      an update that sends no dates always passes for a stored (hence clean) project. */
  lemma UpdateDatesMatchClean(instance: P.Project, start: Option<Day>, end: Option<Day>)
    ensures var updated := instance.(startDate := if start.Some? then start.value else instance.startDate,
                                     endDate := if end.Some? then end.value else instance.endDate);
            ValidateUpdateDates(instance, start, end).Pass? <==> P.Clean(updated).Pass?
    ensures P.Clean(instance).Pass? ==> ValidateUpdateDates(instance, None, None).Pass?
  {
    P.CleanIsDateOrder(instance);
    P.CleanIsDateOrder(instance.(startDate := if start.Some? then start.value else instance.startDate,
                                 endDate := if end.Some? then end.value else instance.endDate));
  }

  // ---------------------------------------------------------------------------
  // Names

  /** Case folding as `iexact` applies it to ASCII letters. */
  function LowerChar(c: char): char
  {
    if 'A' <= c <= 'Z' then (c as int + 32) as char else c
  }

  function Fold(s: string): (r: string)
    ensures |r| == |s|
    ensures forall i :: 0 <= i < |s| ==> r[i] == LowerChar(s[i])
  {
    if s == [] then [] else [LowerChar(s[0])] + Fold(s[1..])
  }

  /** `name__iexact`. */
  predicate SameName(a: string, b: string)
  {
    Fold(a) == Fold(b)
  }

  /** Folding twice is folding once, and names that differ only in letter case are the same name. */
  lemma FoldFacts(a: string, b: string)
    ensures Fold(Fold(a)) == Fold(a)
    ensures SameName(a, Fold(a))
    ensures |a| == |b| && (forall i :: 0 <= i < |a| ==> LowerChar(a[i]) == LowerChar(b[i])) ==> SameName(a, b)
  {
    assert Fold(Fold(a)) == Fold(a);
  }

  /** `validate_name`: no project other than the one being edited may already carry the name,
      ignoring letter case. */
  function ValidateName(projects: map<Id, P.Project>, name: string, instance: Option<Id>): (r: Outcome<ProjectFieldError>)
    ensures r.Fail? <==> exists k :: k in projects && Some(k) != instance && SameName(projects[k].name, name)
    ensures r.Fail? ==> r.error == NameTaken
  {
    if exists k :: k in projects && Some(k) != instance && SameName(projects[k].name, name) then Fail(NameTaken) else Pass
  }

  /** No two stored projects share a name up to letter case. */
  ghost predicate NamesDistinct(projects: map<Id, P.Project>)
  {
    forall a, b :: a in projects && b in projects && a != b ==> !SameName(projects[a].name, projects[b].name)
  }

  /** Writes whose name passed `validate_name` keep names distinct: a new row checked against
      every stored project, an edited row checked against every other one. */
  lemma ValidatedNamesStayDistinct(projects: map<Id, P.Project>, p: P.Project)
    requires NamesDistinct(projects)
    requires ValidateName(projects, p.name, if p.id in projects then Some(p.id) else None).Pass?
    ensures NamesDistinct(projects[p.id := p])
  {
    var m := projects[p.id := p];
    forall a, b | a in m && b in m && a != b
      ensures !SameName(m[a].name, m[b].name)
    {
      if a == p.id {
        assert b in projects && Some(b) != (if p.id in projects then Some(p.id) else None);
      } else if b == p.id {
        assert a in projects && Some(a) != (if p.id in projects then Some(p.id) else None);
      }
    }
  }

  /** The name column's own checks, which a `ModelSerializer` derives from the model. */
  function ValidateNameField(name: string): (r: Outcome<ProjectFieldError>)
    ensures r.Pass? <==> 0 < |name| <= P.NameMaxLength
  {
    if |name| == 0 then Fail(NameBlank) else if |name| > P.NameMaxLength then Fail(NameTooLong) else Pass
  }

  // ---------------------------------------------------------------------------
  // Member lists

  /** An id that `User.objects.filter(id=..., is_active=True)` finds. */
  predicate ActiveUser(users: map<Id, Users.User>, v: int)
  {
    v > 0 && v as Id in users && users[v as Id].isActive
  }

  /** The `user_id` values of the entries that carry one, in order. */
  function SeenIds(entries: seq<Option<int>>): (ids: seq<int>)
    ensures |ids| <= |entries|
  {
    if entries == [] then []
    else
      var front := SeenIds(entries[..|entries| - 1]);
      match entries[|entries| - 1]
      case None => front
      case Some(v) => front + [v]
  }

  /** An id has been seen exactly when some entry carries it. */
  lemma {:induction false} SeenIdsSpec(entries: seq<Option<int>>, v: int)
    ensures v in SeenIds(entries) <==> exists j :: 0 <= j < |entries| && entries[j] == Some(v)
  {
    if entries != [] {
      var front := entries[..|entries| - 1];
      SeenIdsSpec(front, v);
      if v in SeenIds(front) {
        var j :| 0 <= j < |front| && front[j] == Some(v);
        assert entries[j] == Some(v);
      }
      if exists j :: 0 <= j < |entries| && entries[j] == Some(v) {
        var j :| 0 <= j < |entries| && entries[j] == Some(v);
        if j < |front| {
          assert front[j] == Some(v);
        }
      }
    }
  }

  /** What the loop of `ProjectCreateSerializer.validate` raises at entry `i`, given that the
      entries before it passed: a missing key, an id already listed, or an unknown or inactive user. */
  function EntryError(entries: seq<Option<int>>, i: nat, users: map<Id, Users.User>): Option<ProjectFieldError>
    requires i < |entries|
  {
    match entries[i]
    case None => Some(MissingUserId)
    case Some(v) =>
      if v in SeenIds(entries[..i]) then Some(DuplicateUser(v))
      else if !ActiveUser(users, v) then Some(UserNotFoundOrInactive(v))
      else None
  }

  /** The error of the first offending entry at or after `i`. */
  function FirstEntryError(entries: seq<Option<int>>, users: map<Id, Users.User>, i: nat): Option<ProjectFieldError>
    requires i <= |entries|
    decreases |entries| - i
  {
    if i == |entries| then None
    else if EntryError(entries, i, users).Some? then EntryError(entries, i, users)
    else FirstEntryError(entries, users, i + 1)
  }

  /** The error reported is that of the first offending entry, and there is none exactly when no entry offends. */
  lemma {:induction false} FirstEntryErrorSpec(entries: seq<Option<int>>, users: map<Id, Users.User>, i: nat)
    requires i <= |entries|
    ensures FirstEntryError(entries, users, i).None? <==> forall j :: i <= j < |entries| ==> EntryError(entries, j, users).None?
    ensures FirstEntryError(entries, users, i).Some? ==>
              exists j :: i <= j < |entries| && EntryError(entries, j, users) == FirstEntryError(entries, users, i)
                          && forall l :: i <= l < j ==> EntryError(entries, l, users).None?
    decreases |entries| - i
  {
    if i < |entries| && EntryError(entries, i, users).None? {
      FirstEntryErrorSpec(entries, users, i + 1);
    }
  }

  /** A list the loop accepts is exactly a list in which every entry carries the id of an active
      user and no id appears twice. */
  lemma MemberListMeaning(entries: seq<Option<int>>, users: map<Id, Users.User>)
    ensures FirstEntryError(entries, users, 0).None? <==>
              && (forall i :: 0 <= i < |entries| ==> entries[i].Some? && ActiveUser(users, entries[i].value))
              && (forall i, j :: 0 <= i < j < |entries| ==> entries[i] != entries[j])
  {
    FirstEntryErrorSpec(entries, users, 0);
    if FirstEntryError(entries, users, 0).None? {
      forall i, j | 0 <= i < j < |entries|
        ensures entries[i] != entries[j]
      {
        assert EntryError(entries, j, users).None?;
        assert EntryError(entries, i, users).None?;
        SeenIdsSpec(entries[..j], entries[i].value);
        assert entries[..j][i] == entries[i];
      }
      forall i | 0 <= i < |entries|
        ensures entries[i].Some? && ActiveUser(users, entries[i].value)
      {
        assert EntryError(entries, i, users).None?;
      }
    } else {
      var j :| 0 <= j < |entries| && EntryError(entries, j, users).Some?;
      if entries[j].Some? && entries[j].value in SeenIds(entries[..j]) {
        SeenIdsSpec(entries[..j], entries[j].value);
        var l :| 0 <= l < j && entries[..j][l] == entries[j];
      }
    }
  }

  /** The loop of `ProjectCreateSerializer.validate`, which collects the ids it has passed in `seen`
      and raises at the first offending entry. */
  method ValidateMemberList(entries: seq<Option<int>>, users: map<Id, Users.User>) returns (r: Outcome<ProjectFieldError>)
    ensures r.Pass? <==> FirstEntryError(entries, users, 0).None?
    ensures r.Fail? ==> FirstEntryError(entries, users, 0) == Some(r.error)
  {
    r := Pass;
    var seen: seq<int> := [];
    var i := 0;
    while i < |entries|
      invariant 0 <= i <= |entries|
      invariant seen == SeenIds(entries[..i])
      invariant FirstEntryError(entries, users, 0) == FirstEntryError(entries, users, i)
    {
      assert entries[..i + 1][..i] == entries[..i];
      if entries[i].None? {
        return Fail(MissingUserId);
      }
      var v := entries[i].value;
      if v in seen {
        return Fail(DuplicateUser(v));
      }
      seen := seen + [v];
      if !ActiveUser(users, v) {
        return Fail(UserNotFoundOrInactive(v));
      }
      i := i + 1;
    }
  }

  /** What a client sends to create a project. */
  datatype ProjectInput = ProjectInput(name: string, description: string, status: P.ProjectStatus, startDate: Day, endDate: Day)

  /** What `ProjectCreateSerializer.is_valid` accepts: a name the column allows, dates in order
      starting no earlier than today, and a member list whose every entry names a distinct active
      user. No name-uniqueness check runs on creation. */
  predicate CreateRequestValid(input: ProjectInput, entries: seq<Option<int>>, users: map<Id, Users.User>, today: Day)
  {
    && 0 < |input.name| <= P.NameMaxLength
    && input.startDate <= input.endDate && today <= input.startDate
    && (forall i :: 0 <= i < |entries| ==> entries[i].Some? && ActiveUser(users, entries[i].value))
    && (forall i, j :: 0 <= i < j < |entries| ==> entries[i] != entries[j])
  }

  /** `ProjectCreateSerializer.is_valid`: the name column's checks; then `validate`, which checks
      the dates as for a new project and walks a non-empty member list. */
  method ValidateProjectCreate(input: ProjectInput, entries: seq<Option<int>>, users: map<Id, Users.User>, today: Day)
    returns (r: Outcome<ProjectFieldError>)
    ensures r.Pass? <==> CreateRequestValid(input, entries, users, today)
    ensures r.Fail? && ValidateNameField(input.name).Pass? && input.startDate <= input.endDate && today <= input.startDate ==>
              FirstEntryError(entries, users, 0) == Some(r.error)
  {
    MemberListMeaning(entries, users);
    r := ValidateNameField(input.name);
    if r.Fail? {
      return;
    }
    r := ValidateDates(Some(input.startDate), Some(input.endDate), true, today);
    if r.Fail? {
      return;
    }
    if |entries| > 0 {
      r := ValidateMemberList(entries, users);
    }
  }

  /** The ids of a list that passed validation, in order. */
  lemma CheckedListIds(entries: seq<Option<int>>, users: map<Id, Users.User>)
    requires FirstEntryError(entries, users, 0).None?
    ensures var ids := SeenIds(entries);
            && (forall i :: 0 <= i < |ids| ==> ActiveUser(users, ids[i]))
            && (forall i, j :: 0 <= i < j < |ids| ==> ids[i] != ids[j])
            && (forall v :: v in ids <==> Some(v) in entries)
  {
    MemberListMeaning(entries, users);
    var ids := SeenIds(entries);
    forall v
      ensures v in ids <==> Some(v) in entries
    {
      SeenIdsSpec(entries, v);
    }
    AllSomeIds(entries);
  }

  /** When every entry carries an id, the ids are the entries, one for one. */
  lemma {:induction false} AllSomeIds(entries: seq<Option<int>>)
    requires forall i :: 0 <= i < |entries| ==> entries[i].Some?
    ensures |SeenIds(entries)| == |entries|
    ensures forall i :: 0 <= i < |entries| ==> SeenIds(entries)[i] == entries[i].value
  {
    if entries != [] {
      AllSomeIds(entries[..|entries| - 1]);
    }
  }

  // ---------------------------------------------------------------------------
  // ProjectCreateSerializer.create

  /** The memberships of project `pid` are exactly `ids`, one new row each, added by `actor`;
      the rows that were there before (`before`) are untouched. */
  ghost predicate MembersAdded(before: map<Id, P.Assignment>, after: map<Id, P.Assignment>, pid: Id, actor: Id, ids: seq<int>)
  {
    && (forall k :: k in before ==> k in after && after[k] == before[k])
    && (forall k :: k in after && k !in before ==> after[k].project == pid && after[k].assignedBy == actor)
    && (forall u: Id :: P.IsMember(after, pid, u) <==> u in ids)
    && |after| == |before| + |ids|
  }

  /** The notification rows written meanwhile: earlier rows are untouched, every new one tells a
      user of being added to project `pid` by `actor`. */
  ghost predicate NotifiedOfProject(before: map<Id, N.Notification>, after: map<Id, N.Notification>, pid: Id, actor: Id)
  {
    && (forall k :: k in before ==> k in after && after[k] == before[k])
    && (forall k :: k in after && k !in before ==>
          after[k].kind == N.ProjectAssigned && after[k].relatedProject == Some(pid) && after[k].sender == Some(actor))
  }

  /** Adding one fresh row for a user not yet listed extends the listed members by that user. */
  lemma MembersAddedStep(a0: map<Id, P.Assignment>, before: map<Id, P.Assignment>, pid: Id, actor: Id, ids: seq<int>, a: P.Assignment)
    requires MembersAdded(a0, before, pid, actor, ids)
    requires P.PairsUnique(before) && a.id !in before && !P.IsMember(before, a.project, a.user)
    requires a.project == pid && a.assignedBy == actor && a.user !in ids
    ensures MembersAdded(a0, before[a.id := a], pid, actor, ids + [a.user])
  {
    P.AddMembership(before, a);
    var after := before[a.id := a];
    forall u: Id
      ensures P.IsMember(after, pid, u) <==> u in ids + [a.user]
    {
      assert u in ids + [a.user] <==> u in ids || u == a.user;
    }
  }

  /** One more row for project `pid` from `actor` keeps the notification record. */
  lemma NotifiedStep(n0: map<Id, N.Notification>, before: map<Id, N.Notification>, pid: Id, actor: Id, n: N.Notification)
    requires NotifiedOfProject(n0, before, pid, actor)
    requires n.id !in before
    requires n.kind == N.ProjectAssigned && n.relatedProject == Some(pid) && n.sender == Some(actor)
    ensures NotifiedOfProject(n0, before[n.id := n], pid, actor)
  {
  }

  /** Whatever one membership insert did to the notifications (nothing, or one row telling `user`
      of project `pid` from `actor`), the record of the project's notifications is kept. */
  lemma NotifiedAfterInsert(n0: map<Id, N.Notification>, before: map<Id, N.Notification>, after: map<Id, N.Notification>,
                            pid: Id, name: string, user: Id, actor: Id, message: string, next: Id, now: Instant, written: bool)
    requires NotifiedOfProject(n0, before, pid, actor)
    requires next !in before
    requires !written ==> after == before
    requires written ==> after == before[next := N.FromDraft(next, now, N.ProjectAssignedDraft(pid, name, user, actor, message))]
    ensures NotifiedOfProject(n0, after, pid, actor)
  {
    if written {
      NotifiedStep(n0, before, pid, actor, N.FromDraft(next, now, N.ProjectAssignedDraft(pid, name, user, actor, message)));
    }
  }

  /** One `ProjectAssignment.objects.create` of the loop, with the receiver it fires. */
  method AddMember(db: Store.Db, pid: Id, uid: Id, actor: Id, message: string, now: Instant, fails: bool,
                   ghost a0: map<Id, P.Assignment>, ghost n0: map<Id, N.Notification>, ghost ids: seq<int>)
    requires db.Valid()
    requires pid in db.projects && uid in db.users && actor in db.users
    requires MembersAdded(a0, db.assignments, pid, actor, ids) && uid !in ids
    requires NotifiedOfProject(n0, db.notifications, pid, actor)
    modifies db`assignments, db`nextAssignment, db`notifications, db`nextNotification
    ensures db.Valid()
    ensures MembersAdded(a0, db.assignments, pid, actor, ids + [uid])
    ensures NotifiedOfProject(n0, db.notifications, pid, actor)
  {
    ghost var before := db.assignments;
    ghost var notesBefore := db.notifications;
    ghost var nextNote := db.nextNotification;
    assert !P.IsMember(before, pid, uid);
    ghost var name := db.projects[pid].name;
    var r := Signals.CreateAssignment(db, pid, uid, actor, message, now, fails);
    MembersAddedStep(a0, before, pid, actor, ids, r.value);
    NotifiedAfterInsert(n0, notesBefore, db.notifications, pid, name, uid, actor, message, nextNote, now, !fails);
  }

  /** In a list without repeats, no entry occurs before its own position, and each prefix grows
      by its next entry. */
  lemma DistinctPrefix(ids: seq<int>, i: nat)
    requires i < |ids|
    requires forall a, b :: 0 <= a < b < |ids| ==> ids[a] != ids[b]
    ensures ids[i] !in ids[..i]
    ensures ids[..i + 1] == ids[..i] + [ids[i]]
  {
    forall j | 0 <= j < i
      ensures ids[..i][j] != ids[i]
    {
      assert ids[..i][j] == ids[j];
    }
  }

  /** Turn `i` of the loop: the `i`-th listed user is added after the earlier ones. */
  method AddMemberAt(db: Store.Db, pid: Id, ids: seq<int>, i: nat, actor: Id, message: string, now: Instant, fails: bool,
                     ghost a0: map<Id, P.Assignment>, ghost n0: map<Id, N.Notification>)
    requires db.Valid()
    requires pid in db.projects && actor in db.users
    requires i < |ids| && ActiveUser(db.users, ids[i])
    requires forall a, b :: 0 <= a < b < |ids| ==> ids[a] != ids[b]
    requires MembersAdded(a0, db.assignments, pid, actor, ids[..i])
    requires NotifiedOfProject(n0, db.notifications, pid, actor)
    modifies db`assignments, db`nextAssignment, db`notifications, db`nextNotification
    ensures db.Valid()
    ensures MembersAdded(a0, db.assignments, pid, actor, ids[..i + 1])
    ensures NotifiedOfProject(n0, db.notifications, pid, actor)
  {
    DistinctPrefix(ids, i);
    AddMember(db, pid, ids[i] as Id, actor, message, now, fails, a0, n0, ids[..i]);
  }

  /** The loop of `ProjectCreateSerializer.create` over a validated list: one membership per id,
      added by the requester; the receiver's insert for member `i` raises when `i` is in `notifyFails`. */
  method AddMembers(db: Store.Db, pid: Id, ids: seq<int>, actor: Id, message: string, now: Instant, notifyFails: set<nat>)
    requires db.Valid()
    requires pid in db.projects && actor in db.users
    requires forall u: Id :: !P.IsMember(db.assignments, pid, u)
    requires forall i :: 0 <= i < |ids| ==> ActiveUser(db.users, ids[i])
    requires forall i, j :: 0 <= i < j < |ids| ==> ids[i] != ids[j]
    modifies db`assignments, db`nextAssignment, db`notifications, db`nextNotification
    ensures db.Valid()
    ensures MembersAdded(old(db.assignments), db.assignments, pid, actor, ids)
    ensures NotifiedOfProject(old(db.notifications), db.notifications, pid, actor)
  {
    var i := 0;
    while i < |ids|
      invariant 0 <= i <= |ids|
      invariant db.Valid()
      invariant MembersAdded(old(db.assignments), db.assignments, pid, actor, ids[..i])
      invariant NotifiedOfProject(old(db.notifications), db.notifications, pid, actor)
    {
      AddMemberAt(db, pid, ids, i, actor, message, now, i in notifyFails, old(db.assignments), old(db.notifications));
      i := i + 1;
    }
    assert ids[..i] == ids;
  }

  /** A membership of another project, or of a user not listed, is unchanged by the loop. */
  lemma MembersAddedFrame(before: map<Id, P.Assignment>, after: map<Id, P.Assignment>, pid: Id, actor: Id, ids: seq<int>, q: Id, u: Id)
    requires MembersAdded(before, after, pid, actor, ids)
    requires q != pid
    ensures P.IsMember(after, q, u) <==> P.IsMember(before, q, u)
  {
    if P.IsMember(after, q, u) {
      var k :| k in after && after[k].project == q && after[k].user == u;
      assert k in before;
    }
    if P.IsMember(before, q, u) {
      var k :| k in before && before[k].project == q && before[k].user == u;
      assert k in after;
    }
  }

  // ---------------------------------------------------------------------------
  // AssignUserToProjectSerializer

  /** `AssignUserToProjectSerializer.is_valid`: `validate_user_id` (an active user), then `validate`
      (not already a member of the project). */
  function ValidateAssignUser(project: Id, userId: int, users: map<Id, Users.User>, assignments: map<Id, P.Assignment>): (r: Result<Id, ProjectFieldError>)
    ensures r.Ok? <==> ActiveUser(users, userId) && !P.IsMember(assignments, project, userId as Id)
    ensures r.Ok? ==> r.value == userId
    ensures r == Err(UserNotFoundOrInactive(userId)) <==> !ActiveUser(users, userId)
  {
    if !ActiveUser(users, userId) then Err(UserNotFoundOrInactive(userId))
    else if P.IsMember(assignments, project, userId as Id) then Err(AlreadyMember)
    else Ok(userId as Id)
  }
}
