/** Projects and project memberships (apps/projects/models.py).

    A project has a date window and a status; its date order is checked by `clean`, which
    `save` always runs first. A membership (`ProjectAssignment`) links one user to one project;
    the pair is unique. Memberships carry no role: the source never stores one. */
module Projects {
  import opened Common

  datatype ProjectStatus = Pending | InProgress | Completed | Cancelled

  datatype Project = Project(
    id: Id,
    name: string,
    description: string,
    status: ProjectStatus,
    startDate: Day,
    endDate: Day,
    createdBy: Id)

  datatype ProjectError = EndBeforeStart | NameBlank | NameTooLong

  const NameMaxLength: nat := 200

  /** `Project.clean`: the end date may not precede the start date. */
  function Clean(p: Project): Outcome<ProjectError>
  {
    if p.endDate < p.startDate then Fail(EndBeforeStart) else Pass
  }

  /** `full_clean` as `save` runs it: the name column's own checks, then `clean`. */
  function FullClean(p: Project): Outcome<ProjectError>
  {
    if |p.name| == 0 then Fail(NameBlank)
    else if |p.name| > NameMaxLength then Fail(NameTooLong)
    else Clean(p)
  }

  /** `clean` rejects exactly an end date before the start date; equal dates are accepted. */
  lemma CleanIsDateOrder(p: Project)
    ensures Clean(p).Pass? <==> p.startDate <= p.endDate
    ensures p.startDate == p.endDate ==> Clean(p).Pass?
    ensures FullClean(p).Pass? ==> Clean(p).Pass?
  {
  }

  predicate IsActive(p: Project)
  {
    p.status == Pending || p.status == InProgress
  }

  predicate IsOverdue(p: Project, today: Day)
  {
    if p.status == Completed then false else today > p.endDate
  }

  function DurationDays(p: Project): int
  {
    p.endDate - p.startDate
  }

  function DaysRemaining(p: Project, today: Day): int
  {
    if p.status == Completed then 0
    else if today > p.endDate then 0
    else p.endDate - today
  }

  /** Days remaining is never negative, is zero for an overdue project, and otherwise counts down to the end date. */
  lemma DaysRemainingBounds(p: Project, today: Day)
    ensures DaysRemaining(p, today) >= 0
    ensures IsOverdue(p, today) ==> DaysRemaining(p, today) == 0
    ensures p.status == Completed ==> DaysRemaining(p, today) == 0 && !IsOverdue(p, today)
    ensures p.status != Completed && !IsOverdue(p, today) ==> today + DaysRemaining(p, today) == p.endDate
  {
  }

  /** An active project is one that is neither completed nor cancelled, and a late project is
      active unless it was cancelled. */
  lemma ActivityAndLateness(p: Project, today: Day)
    ensures IsActive(p) <==> p.status != Completed && p.status != Cancelled
    ensures IsOverdue(p, today) ==> IsActive(p) || p.status == Cancelled
  {
  }

  /** A project that passed `clean` has a non-negative duration, and once started never has more days left than its duration. */
  lemma DurationOfCleanProject(p: Project, today: Day)
    requires Clean(p).Pass?
    ensures DurationDays(p) >= 0
    ensures today >= p.startDate ==> DaysRemaining(p, today) <= DurationDays(p)
  {
  }

  // ---------------------------------------------------------------------------
  // Memberships

  datatype Assignment = Assignment(id: Id, project: Id, user: Id, assignedBy: Id)

  predicate IsMember(assignments: map<Id, Assignment>, project: Id, user: Id)
  {
    exists k :: k in assignments && assignments[k].project == project && assignments[k].user == user
  }

  /** The users that belong to a project. */
  function MembersOf(assignments: map<Id, Assignment>, project: Id): set<Id>
  {
    set k | k in assignments && assignments[k].project == project :: assignments[k].user
  }

  /** `unique_together = ['project', 'user']`. */
  ghost predicate PairsUnique(assignments: map<Id, Assignment>)
  {
    forall a, b :: a in assignments && b in assignments && a != b ==>
      assignments[a].project != assignments[b].project || assignments[a].user != assignments[b].user
  }

  /** The two views of the membership relation agree. */
  lemma MembersOfIsMembership(assignments: map<Id, Assignment>, project: Id, user: Id)
    ensures user in MembersOf(assignments, project) <==> IsMember(assignments, project, user)
  {
    if IsMember(assignments, project, user) {
      var k :| k in assignments && assignments[k].project == project && assignments[k].user == user;
      assert assignments[k].user in MembersOf(assignments, project);
    }
  }

  /** Adding a row for a pair not yet present keeps pairs unique, makes the user a member
      and changes no other membership. */
  lemma {:induction false} AddMembership(assignments: map<Id, Assignment>, a: Assignment)
    requires PairsUnique(assignments)
    requires a.id !in assignments
    requires !IsMember(assignments, a.project, a.user)
    ensures PairsUnique(assignments[a.id := a])
    ensures IsMember(assignments[a.id := a], a.project, a.user)
    ensures forall p, u :: (p != a.project || u != a.user) ==>
              (IsMember(assignments[a.id := a], p, u) <==> IsMember(assignments, p, u))
  {
    var m := assignments[a.id := a];
    assert m[a.id] == a;
    forall x, y | x in m && y in m && x != y
      ensures m[x].project != m[y].project || m[x].user != m[y].user
    {
      if x == a.id {
        assert y in assignments;
      } else if y == a.id {
        assert x in assignments;
      }
    }
    forall p, u | p != a.project || u != a.user
      ensures IsMember(m, p, u) <==> IsMember(assignments, p, u)
    {
      if IsMember(m, p, u) {
        var k :| k in m && m[k].project == p && m[k].user == u;
        assert k != a.id && k in assignments;
      }
      if IsMember(assignments, p, u) {
        var k :| k in assignments && assignments[k].project == p && assignments[k].user == u;
        assert k in m && m[k] == assignments[k];
      }
    }
  }

  /** Removing a row ends exactly that membership: with unique pairs no other row can keep the user in. */
  lemma {:induction false} RemoveMembership(assignments: map<Id, Assignment>, k: Id)
    requires PairsUnique(assignments)
    requires k in assignments
    ensures PairsUnique(assignments - {k})
    ensures !IsMember(assignments - {k}, assignments[k].project, assignments[k].user)
    ensures forall p, u :: (p != assignments[k].project || u != assignments[k].user) ==>
              (IsMember(assignments - {k}, p, u) <==> IsMember(assignments, p, u))
  {
    var m := assignments - {k};
    var a := assignments[k];
    forall j | j in m
      ensures m[j].project != a.project || m[j].user != a.user
    {
      assert j != k && m[j] == assignments[j];
    }
    forall p, u | p != a.project || u != a.user
      ensures IsMember(m, p, u) <==> IsMember(assignments, p, u)
    {
      if IsMember(assignments, p, u) {
        var j :| j in assignments && assignments[j].project == p && assignments[j].user == u;
        assert j != k && j in m;
      }
    }
  }
}
