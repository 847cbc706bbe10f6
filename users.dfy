/** Users and their global roles (apps/authentication/models.py).

    A user carries one global role out of three; the role alone decides the coarse
    capabilities `can_manage_projects` and `can_manage_tasks`. The Django flags
    `is_superuser` and `is_staff` are separate from the role and are kept as fields. */
module Users {
  import opened Common

  datatype Role = Admin | Collaborator | Viewer

  datatype User = User(
    id: Id,
    email: string,
    firstName: string,
    lastName: string,
    role: Role,
    isActive: bool,
    isStaff: bool,
    isSuperuser: bool)

  /** The role a user gets when none is given. */
  const DefaultRole: Role := Viewer

  predicate IsAdmin(u: User) { u.role == Admin }

  predicate IsCollaborator(u: User) { u.role == Collaborator }

  predicate IsViewer(u: User) { u.role == Viewer }

  predicate CanManageProjects(u: User) { u.role in {Admin, Collaborator} }

  predicate CanManageTasks(u: User) { u.role in {Admin, Collaborator} }

  /** Exactly one of the three role predicates holds for every user. */
  lemma RolesArePartition(u: User)
    ensures IsAdmin(u) || IsCollaborator(u) || IsViewer(u)
    ensures !(IsAdmin(u) && IsCollaborator(u))
    ensures !(IsAdmin(u) && IsViewer(u))
    ensures !(IsCollaborator(u) && IsViewer(u))
  {
  }

  /** Both management capabilities belong to exactly the non-viewers. */
  lemma ManageRightsExcludeViewers(u: User)
    ensures CanManageProjects(u) <==> IsAdmin(u) || IsCollaborator(u)
    ensures CanManageTasks(u) <==> CanManageProjects(u)
    ensures IsViewer(u) ==> !CanManageProjects(u) && !CanManageTasks(u)
  {
  }

  /** A freshly created, active, non-staff user; the role falls back to the default. */
  function NewUser(id: Id, email: string, firstName: string, lastName: string, role: Option<Role>): User
  {
    User(id, email, firstName, lastName, if role.Some? then role.value else DefaultRole, true, false, false)
  }

  lemma NewUserWithoutRoleIsViewer(id: Id, email: string, firstName: string, lastName: string)
    ensures IsViewer(NewUser(id, email, firstName, lastName, None))
    ensures !CanManageProjects(NewUser(id, email, firstName, lastName, None))
  {
  }

  // ---------------------------------------------------------------------------
  // full_name: the two names joined by a space, outer whitespace stripped.

  /** The characters Python's `str.isspace` accepts. */
  predicate IsSpace(c: char)
  {
    ('\U{9}' <= c <= '\U{D}') || ('\U{1C}' <= c <= '\U{20}') || c == '\U{85}' || c == '\U{A0}'
    || c == '\U{1680}' || ('\U{2000}' <= c <= '\U{200A}') || c == '\U{2028}' || c == '\U{2029}'
    || c == '\U{202F}' || c == '\U{205F}' || c == '\U{3000}'
  }

  function TrimStart(s: string): string
  {
    if |s| > 0 && IsSpace(s[0]) then TrimStart(s[1..]) else s
  }

  function TrimEnd(s: string): string
  {
    if |s| > 0 && IsSpace(s[|s| - 1]) then TrimEnd(s[..|s| - 1]) else s
  }

  /** Python's `str.strip()` with no argument. */
  function Strip(s: string): string
  {
    TrimEnd(TrimStart(s))
  }

  predicate AllSpace(s: string)
  {
    forall i :: 0 <= i < |s| ==> IsSpace(s[i])
  }

  /** The result neither starts nor ends with whitespace. */
  predicate Trimmed(s: string)
  {
    |s| == 0 || (!IsSpace(s[0]) && !IsSpace(s[|s| - 1]))
  }

  /** How many whitespace characters `TrimStart` removes. */
  function LeadingSpaces(s: string): (n: nat)
    ensures n <= |s|
  {
    if |s| > 0 && IsSpace(s[0]) then 1 + LeadingSpaces(s[1..]) else 0
  }

  /** How many whitespace characters `TrimEnd` removes. */
  function TrailingSpaces(s: string): (n: nat)
    ensures n <= |s|
  {
    if |s| > 0 && IsSpace(s[|s| - 1]) then 1 + TrailingSpaces(s[..|s| - 1]) else 0
  }

  lemma {:induction false} TrimStartSpec(s: string)
    ensures TrimStart(s) == s[LeadingSpaces(s)..]
    ensures AllSpace(s[..LeadingSpaces(s)])
    ensures |TrimStart(s)| == 0 || !IsSpace(TrimStart(s)[0])
  {
    if |s| > 0 && IsSpace(s[0]) {
      var t := s[1..];
      TrimStartSpec(t);
      var i := LeadingSpaces(t);
      assert t[i..] == s[i + 1..];
      assert s[..i + 1] == [s[0]] + t[..i];
    }
  }

  lemma {:induction false} TrimEndSpec(s: string)
    ensures TrimEnd(s) == s[..|s| - TrailingSpaces(s)]
    ensures AllSpace(s[|s| - TrailingSpaces(s)..])
    ensures |TrimEnd(s)| == 0 || !IsSpace(TrimEnd(s)[|TrimEnd(s)| - 1])
  {
    if |s| > 0 && IsSpace(s[|s| - 1]) {
      var t := s[..|s| - 1];
      TrimEndSpec(t);
      var j := |t| - TrailingSpaces(t);
      assert t[..j] == s[..j];
      assert forall k :: 0 <= k < |t| - j ==> s[j..][k] == t[j..][k];
    }
  }

  /** `Strip(s)` is the slice of `s` that remains after removing whitespace from both ends. */
  lemma StripSpec(s: string)
    ensures Trimmed(Strip(s))
    ensures exists i, j :: 0 <= i <= j <= |s| && Strip(s) == s[i..j] && AllSpace(s[..i]) && AllSpace(s[j..])
  {
    TrimStartSpec(s);
    var i := LeadingSpaces(s);
    var u := s[i..];
    TrimEndSpec(u);
    var j := |u| - TrailingSpaces(u);
    assert u[..j] == s[i..i + j];
    assert u[j..] == s[i + j..];
    if |u[..j]| > 0 {
      assert u[..j][0] == u[0];
    }
    assert Strip(s) == s[i..i + j] && AllSpace(s[..i]) && AllSpace(s[i + j..]);
  }

  /** `s.strip()` is empty exactly when `s` is all whitespace. */
  lemma StripEmpty(s: string)
    ensures |Strip(s)| == 0 <==> AllSpace(s)
  {
    StripSpec(s);
    var i, j :| 0 <= i <= j <= |s| && Strip(s) == s[i..j] && AllSpace(s[..i]) && AllSpace(s[j..]);
    if |Strip(s)| == 0 {
      forall k | 0 <= k < |s|
        ensures IsSpace(s[k])
      {
        if k < i {
          assert s[k] == s[..i][k];
        } else {
          assert s[k] == s[j..][k - j];
        }
      }
    } else {
      assert s[i] == Strip(s)[0];
    }
  }

  /** `full_name`: first and last name separated by one space, outer whitespace stripped. */
  function FullName(u: User): string
  {
    Strip(u.firstName + " " + u.lastName)
  }

  /** When both names are present and carry no outer whitespace, nothing is stripped. */
  lemma FullNameOfCleanNames(u: User)
    requires |u.firstName| > 0 && |u.lastName| > 0
    requires Trimmed(u.firstName) && Trimmed(u.lastName)
    ensures FullName(u) == u.firstName + " " + u.lastName
  {
    var s := u.firstName + " " + u.lastName;
    assert s[0] == u.firstName[0];
    assert s[|s| - 1] == u.lastName[|u.lastName| - 1];
    assert TrimStart(s) == s;
  }

  /** Whatever the names, the full name has no outer whitespace and is a slice of the joined names. */
  lemma FullNameIsStrippedJoin(u: User)
    ensures Trimmed(FullName(u))
    ensures exists i, j :: 0 <= i <= j <= |u.firstName| + 1 + |u.lastName|
                           && FullName(u) == (u.firstName + " " + u.lastName)[i..j]
  {
    StripSpec(u.firstName + " " + u.lastName);
  }

  // ---------------------------------------------------------------------------
  // The email column is unique.

  ghost predicate EmailsUnique(users: map<Id, User>)
  {
    forall a, b :: a in users && b in users && a != b ==> users[a].email != users[b].email
  }

  predicate EmailTaken(users: map<Id, User>, email: string)
  {
    exists k :: k in users && users[k].email == email
  }

  datatype UserError = EmailAlreadyUsed | IdInUse

  /** Inserting a user row; the unique constraint on `email` refuses a second user with the same address. */
  function InsertUser(users: map<Id, User>, u: User): (r: Result<map<Id, User>, UserError>)
    ensures r.Ok? <==> u.id !in users && !EmailTaken(users, u.email)
    ensures r.Ok? ==> r.value.Keys == users.Keys + {u.id} && r.value[u.id] == u
  {
    if u.id in users then Err(IdInUse)
    else if EmailTaken(users, u.email) then Err(EmailAlreadyUsed)
    else Ok(users[u.id := u])
  }

  /** Inserting through `InsertUser` never produces two users with one email. */
  lemma InsertUserKeepsEmailsUnique(users: map<Id, User>, u: User)
    requires EmailsUnique(users)
    ensures InsertUser(users, u).Ok? ==> EmailsUnique(InsertUser(users, u).value)
  {
    if InsertUser(users, u).Ok? {
      var m := InsertUser(users, u).value;
      forall a, b | a in m && b in m && a != b
        ensures m[a].email != m[b].email
      {
        if a == u.id {
          assert users[b].email != u.email;
        } else if b == u.id {
          assert users[a].email != u.email;
        }
      }
    }
  }
}
