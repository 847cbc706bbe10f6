/** The input checks and writes of apps/tasks/serializers.py.

    Inputs arrive already parsed into typed values; DRF's generic field parsing (types,
    `required`, choice lists, whitespace trimming of `CharField`s) is not part of this model. A
    serializer reports the errors of all its field validators together and runs `validate` only
    when there are none, so field-level errors are a set and `validate`'s error is a single value.
    A reference to a user id arrives as a positive integer; a missing user is refused like an
    inactive one. */
module TaskSerializers {
  import opened Common
  import Users
  import P = Projects
  import T = Tasks

  // ---------------------------------------------------------------------------
  // TaskStatusUpdateSerializer.validate_status

  /** `valid_transitions`: the statuses each status may move to. */
  function Transitions(current: T.TaskStatus): seq<T.TaskStatus>
  {
    match current
    case Pending => [T.InProgress, T.Completed]
    case InProgress => [T.Pending, T.Completed]
    case Completed => [T.Pending, T.InProgress]
  }

  datatype StatusError = TransitionNotAllowed(from: T.TaskStatus, to: T.TaskStatus)

  /** `validate_status`: the requested status must be listed for the current one. */
  function ValidateStatus(current: T.TaskStatus, requested: T.TaskStatus): (r: Result<T.TaskStatus, StatusError>)
    ensures r.Ok? <==> requested != current
    ensures r.Ok? ==> r.value == requested
    ensures r.Err? ==> r.error == TransitionNotAllowed(current, current)
  {
    if requested in Transitions(current) then Ok(requested) else Err(TransitionNotAllowed(current, requested))
  }

  /** The table has no terminal status and no self-loop: each status lists exactly the other two. */
  lemma TransitionTable(s: T.TaskStatus, t: T.TaskStatus)
    ensures t in Transitions(s) <==> t != s
    ensures |Transitions(s)| == 2
  {
  }

  // ---------------------------------------------------------------------------
  // Comment content

  /** Python's `str.isalnum` for one character, over the range U+0000..U+00FF: ASCII letters and
      digits, the Latin-1 letters (ª µ º À-Ö Ø-ö ø-ÿ) and the Latin-1 numerals (² ³ ¹ ¼ ½ ¾). */
  predicate IsAlnum(c: char)
  {
    || ('0' <= c <= '9') || ('A' <= c <= 'Z') || ('a' <= c <= 'z')
    || c == 'ª' || c == 'µ' || c == 'º'
    || ('À' <= c <= 'Ö') || ('Ø' <= c <= 'ö') || ('ø' <= c <= 'ÿ')
    || c == '²' || c == '³' || c == '¹' || ('¼' <= c <= '¾')
  }

  /** Whitespace is never alphanumeric. */
  lemma SpaceIsNotAlnum(c: char)
    ensures Users.IsSpace(c) ==> !IsAlnum(c)
  {
  }

  const CommentMaxLength: nat := 1000

  datatype ContentError = ContentEmpty | ContentTooLong | ContentNotAlphanumeric

  /** `CommentCreateSerializer.validate_content`: not blank, at most 1000 characters once
      stripped, at least one alphanumeric character; the stripped text is what gets stored. */
  function ValidateCommentContent(value: string): (r: Result<string, ContentError>)
    ensures r == Err(ContentEmpty) <==> Users.AllSpace(value)
    ensures r.Ok? <==> && !Users.AllSpace(value)
                       && |Users.Strip(value)| <= CommentMaxLength
                       && (exists i :: 0 <= i < |value| && IsAlnum(value[i]))
    ensures r.Ok? ==> r.value == Users.Strip(value) && 0 < |r.value| <= CommentMaxLength && Users.Trimmed(r.value)
  {
    Users.StripEmpty(value);
    Users.StripSpec(value);
    if |value| == 0 || |Users.Strip(value)| == 0 then Err(ContentEmpty)
    else if |Users.Strip(value)| > CommentMaxLength then Err(ContentTooLong)
    else if !(exists i :: 0 <= i < |value| && IsAlnum(value[i])) then Err(ContentNotAlphanumeric)
    else Ok(Users.Strip(value))
  }

  /** `CommentSerializer.validate_content` and `CommentUpdateSerializer.validate_content`: only
      blank content is refused; the stripped text is stored. */
  function ValidateCommentEdit(value: string): (r: Result<string, ContentError>)
    ensures r.Err? <==> Users.AllSpace(value)
    ensures r.Err? ==> r.error == ContentEmpty
    ensures r.Ok? ==> r.value == Users.Strip(value) && |r.value| > 0 && Users.Trimmed(r.value)
  {
    Users.StripEmpty(value);
    Users.StripSpec(value);
    if |Users.Strip(value)| == 0 then Err(ContentEmpty) else Ok(Users.Strip(value))
  }

  /** Whatever the creation check accepts, the edit check accepts too, with the same result. */
  lemma CreateContentIsStricter(value: string)
    ensures ValidateCommentContent(value).Ok? ==> ValidateCommentEdit(value) == ValidateCommentContent(value)
  {
  }

  // ---------------------------------------------------------------------------
  // CommentCreateSerializer.validate

  datatype CommentPermissionError = TaskNotSpecified | NoProjectAccess

  /** `CommentCreateSerializer.validate`: a task must be given; a user who is not a superuser must
      belong to its project. The further "task participant" test can only refuse through the
      membership's `role`, which memberships do not have, so a member always passes it. */
  function ValidateCommentCreate(user: Users.User, task: Option<T.Task>, assignments: map<Id, P.Assignment>): (r: Outcome<CommentPermissionError>)
    ensures r.Pass? <==> task.Some? && (user.isSuperuser || P.IsMember(assignments, task.value.project, user.id))
    ensures task.None? ==> r == Fail(TaskNotSpecified)
  {
    if task.None? then Fail(TaskNotSpecified)
    else if !user.isSuperuser && !P.IsMember(assignments, task.value.project, user.id) then Fail(NoProjectAccess)
    else Pass
  }

  /** A comment this check lets a non-superuser write also passes the model's own `clean`. */
  lemma CommentCreateMeetsClean(user: Users.User, task: T.Task, assignments: map<Id, P.Assignment>)
    requires !user.isSuperuser
    requires ValidateCommentCreate(user, Some(task), assignments).Pass?
    ensures T.CommentClean(user, task, assignments).Pass?
  {
  }

  // ---------------------------------------------------------------------------
  // Task inputs

  datatype TaskFieldError =
    | UserNotFoundOrInactive
    | NoAccessToProject
    | DueDateInPast
    | DueBeforeProjectStart
    | DueAfterProjectEnd
    | AssigneeNotInProject

  /** `validate_assigned_to_id` (create, update and the full serializer): a given id must name an active user. */
  predicate AssigneeIdValid(value: Option<Id>, users: map<Id, Users.User>)
  {
    value.None? || (value.value in users && users[value.value].isActive)
  }

  /** `validate_project`: a user who is not a superuser must belong to the project. */
  predicate ProjectAccessValid(user: Users.User, project: Id, assignments: map<Id, P.Assignment>)
  {
    user.isSuperuser || P.IsMember(assignments, project, user.id)
  }

  /** What a client sends to create a task. */
  datatype TaskInput = TaskInput(
    name: string,
    description: string,
    status: T.TaskStatus,
    priority: T.Priority,
    project: Id,
    assignedTo: Option<Id>,
    dueDate: Instant)

  /** `TaskCreateSerializer.validate`: the due date is not before today, and an assignee belongs
      to the project. */
  function ValidateTaskCreate(input: TaskInput, assignments: map<Id, P.Assignment>, now: Instant): (r: Outcome<TaskFieldError>)
    ensures r.Pass? <==> DateOf(now) <= DateOf(input.dueDate)
                         && (input.assignedTo.Some? ==> P.IsMember(assignments, input.project, input.assignedTo.value))
    ensures r == Fail(DueDateInPast) <==> DateOf(input.dueDate) < DateOf(now)
  {
    if DateOf(input.dueDate) < DateOf(now) then Fail(DueDateInPast)
    else if input.assignedTo.Some? && !P.IsMember(assignments, input.project, input.assignedTo.value) then Fail(AssigneeNotInProject)
    else Pass
  }

  /** `TaskCreateSerializer.is_valid`: the field validators (assignee, then project), all reported
      together; then `validate`. */
  function CheckTaskCreate(user: Users.User, input: TaskInput, users: map<Id, Users.User>,
                           assignments: map<Id, P.Assignment>, now: Instant): (r: Result<TaskInput, set<TaskFieldError>>)
    ensures r.Ok? <==> && AssigneeIdValid(input.assignedTo, users)
                       && ProjectAccessValid(user, input.project, assignments)
                       && ValidateTaskCreate(input, assignments, now).Pass?
    ensures r.Ok? ==> r.value == input
    ensures r.Err? ==> r.error != {}
    ensures UserNotFoundOrInactive in (if r.Err? then r.error else {}) <==> !AssigneeIdValid(input.assignedTo, users)
  {
    var fieldErrors := (if AssigneeIdValid(input.assignedTo, users) then {} else {UserNotFoundOrInactive})
                       + (if ProjectAccessValid(user, input.project, assignments) then {} else {NoAccessToProject});
    if fieldErrors != {} then Err(fieldErrors)
    else match ValidateTaskCreate(input, assignments, now)
      case Fail(e) => Err({e})
      case Pass => Ok(input)
  }

  /** `TaskCreateSerializer.create`: the requester becomes the creator, the assignee is kept only
      when given. The row's key and `completed_at` are the store's to fill. */
  function NewTask(input: TaskInput, requester: Id): (t: T.Task)
    ensures t.createdBy == requester && t.assignedTo == input.assignedTo && t.project == input.project
    ensures t.name == input.name && t.status == input.status && t.dueDate == input.dueDate
    ensures t.completedAt.None?
  {
    T.Task(1, input.name, input.description, input.status, input.priority, input.project, input.assignedTo,
           requester, input.dueDate, None)
  }

  /** An input that passed `TaskCreateSerializer` also passes the model's `clean`, except for the
      project window, which only `clean` checks. */
  lemma CreateChecksCoverClean(user: Users.User, input: TaskInput, users: map<Id, Users.User>, project: P.Project,
                               assignments: map<Id, P.Assignment>, now: Instant, requester: Id)
    requires CheckTaskCreate(user, input, users, assignments, now).Ok?
    requires project.startDate <= DateOf(input.dueDate) <= project.endDate
    ensures T.Clean(NewTask(input, requester), project, assignments, now).Pass?
  {
    T.CleanAccepts(NewTask(input, requester), project, assignments, now);
  }

  /** `TaskSerializer.validate`: the due date is not before today and lies within the project's
      window; an assignee belongs to the project. Dates are compared by calendar day. */
  function ValidateTask(dueDate: Option<Instant>, project: Option<P.Project>, assignedTo: Option<Id>,
                        assignments: map<Id, P.Assignment>, now: Instant): (r: Outcome<TaskFieldError>)
    ensures r.Pass? <==> && (dueDate.Some? ==> DateOf(now) <= DateOf(dueDate.value))
                         && (dueDate.Some? && project.Some? ==>
                               project.value.startDate <= DateOf(dueDate.value) <= project.value.endDate)
                         && (assignedTo.Some? && project.Some? ==> P.IsMember(assignments, project.value.id, assignedTo.value))
  {
    if dueDate.Some? && DateOf(dueDate.value) < DateOf(now) then Fail(DueDateInPast)
    else if dueDate.Some? && project.Some? && DateOf(dueDate.value) < project.value.startDate then Fail(DueBeforeProjectStart)
    else if dueDate.Some? && project.Some? && DateOf(dueDate.value) > project.value.endDate then Fail(DueAfterProjectEnd)
    else if assignedTo.Some? && project.Some? && !P.IsMember(assignments, project.value.id, assignedTo.value) then Fail(AssigneeNotInProject)
    else Pass
  }

  /** `TaskSerializer.validate` and the model's `clean` refuse the same tasks of a known project. */
  lemma TaskValidateAgreesWithClean(t: T.Task, project: P.Project, assignments: map<Id, P.Assignment>, now: Instant)
    requires project.id == t.project
    ensures ValidateTask(Some(t.dueDate), Some(project), t.assignedTo, assignments, now).Pass? <==>
              T.Clean(t, project, assignments, now).Pass?
  {
    T.CleanAccepts(t, project, assignments, now);
  }

  // ---------------------------------------------------------------------------
  // TaskUpdateSerializer

  /** `TaskUpdateSerializer.validate`: a new assignee must belong to the task's project. */
  function ValidateTaskUpdate(task: T.Task, assignedTo: Option<Option<Id>>, assignments: map<Id, P.Assignment>): (r: Outcome<TaskFieldError>)
    ensures r.Fail? <==> assignedTo.Some? && assignedTo.value.Some? && !P.IsMember(assignments, task.project, assignedTo.value.value)
    ensures r.Fail? ==> r.error == AssigneeNotInProject
  {
    if assignedTo.Some? && assignedTo.value.Some? && !P.IsMember(assignments, task.project, assignedTo.value.value)
    then Fail(AssigneeNotInProject)
    else Pass
  }

  /** `TaskUpdateSerializer.is_valid`: `validate_assigned_to_id` on a sent id, then `validate`. */
  function CheckTaskUpdate(task: T.Task, assignedTo: Option<Option<Id>>, users: map<Id, Users.User>,
                           assignments: map<Id, P.Assignment>): (r: Outcome<TaskFieldError>)
    ensures r.Pass? <==> assignedTo.None? || assignedTo.value.None?
                         || (assignedTo.value.value in users && users[assignedTo.value.value].isActive
                             && P.IsMember(assignments, task.project, assignedTo.value.value))
    ensures r == Fail(UserNotFoundOrInactive) <==> assignedTo.Some? && !AssigneeIdValid(assignedTo.value, users)
  {
    if assignedTo.Some? && !AssigneeIdValid(assignedTo.value, users) then Fail(UserNotFoundOrInactive)
    else ValidateTaskUpdate(task, assignedTo, assignments)
  }

  /** One validated field of an update, other than the assignee. */
  datatype FieldValue =
    | NameValue(name: string)
    | DescriptionValue(description: string)
    | StatusValue(status: T.TaskStatus)
    | PriorityValue(priority: T.Priority)
    | DueDateValue(dueDate: Instant)

  /** `setattr(instance, attr, value)` for one field. */
  function SetField(t: T.Task, f: FieldValue): T.Task
  {
    match f
    case NameValue(v) => t.(name := v)
    case DescriptionValue(v) => t.(description := v)
    case StatusValue(v) => t.(status := v)
    case PriorityValue(v) => t.(priority := v)
    case DueDateValue(v) => t.(dueDate := v)
  }

  /** The instance after every field of `fields` has been set, in order. */
  function SetFields(t: T.Task, fields: seq<FieldValue>): T.Task
  {
    if fields == [] then t else SetField(SetFields(t, fields[..|fields| - 1]), fields[|fields| - 1])
  }

  predicate SetsName(fields: seq<FieldValue>) { exists f :: f in fields && f.NameValue? }
  predicate SetsDescription(fields: seq<FieldValue>) { exists f :: f in fields && f.DescriptionValue? }
  predicate SetsStatus(fields: seq<FieldValue>) { exists f :: f in fields && f.StatusValue? }
  predicate SetsPriority(fields: seq<FieldValue>) { exists f :: f in fields && f.PriorityValue? }
  predicate SetsDueDate(fields: seq<FieldValue>) { exists f :: f in fields && f.DueDateValue? }

  /** Setting fields changes only the fields that were sent: the key, project, creator, assignee
      and completion instant are untouched, and every unsent field is kept. */
  lemma {:induction false} SetFieldsFrame(t: T.Task, fields: seq<FieldValue>)
    ensures var u := SetFields(t, fields);
            && u.id == t.id && u.project == t.project && u.createdBy == t.createdBy
            && u.assignedTo == t.assignedTo && u.completedAt == t.completedAt
            && (!SetsName(fields) ==> u.name == t.name)
            && (!SetsDescription(fields) ==> u.description == t.description)
            && (!SetsStatus(fields) ==> u.status == t.status)
            && (!SetsPriority(fields) ==> u.priority == t.priority)
            && (!SetsDueDate(fields) ==> u.dueDate == t.dueDate)
  {
    if fields != [] {
      var front := fields[..|fields| - 1];
      SetFieldsFrame(t, front);
      assert forall f :: f in front ==> f in fields;
      assert fields[|fields| - 1] in fields;
    }
  }

  /** Which attribute a value is for. */
  function FieldOf(f: FieldValue): nat
  {
    match f
    case NameValue(_) => 0
    case DescriptionValue(_) => 1
    case StatusValue(_) => 2
    case PriorityValue(_) => 3
    case DueDateValue(_) => 4
  }

  /** The instance holds the value `f` carries. */
  predicate Holds(t: T.Task, f: FieldValue)
  {
    match f
    case NameValue(v) => t.name == v
    case DescriptionValue(v) => t.description == v
    case StatusValue(v) => t.status == v
    case PriorityValue(v) => t.priority == v
    case DueDateValue(v) => t.dueDate == v
  }

  /** `validated_data` is a dict: each attribute appears at most once. */
  predicate OneEntryPerField(fields: seq<FieldValue>)
  {
    forall i, j :: 0 <= i < j < |fields| ==> FieldOf(fields[i]) != FieldOf(fields[j])
  }

  /** Setting one attribute stores its value and keeps what every other attribute holds. */
  lemma SetFieldStores(t: T.Task, g: FieldValue, f: FieldValue)
    ensures Holds(SetField(t, g), g)
    ensures FieldOf(f) != FieldOf(g) ==> (Holds(SetField(t, g), f) <==> Holds(t, f))
  {
  }

  /** Every value sent is the value stored. */
  lemma {:induction false} SentValuesStored(t: T.Task, fields: seq<FieldValue>)
    requires OneEntryPerField(fields)
    ensures forall f :: f in fields ==> Holds(SetFields(t, fields), f)
  {
    if fields != [] {
      var front := fields[..|fields| - 1];
      var last := fields[|fields| - 1];
      assert OneEntryPerField(front);
      SentValuesStored(t, front);
      assert SetFields(t, fields) == SetField(SetFields(t, front), last);
      forall f | f in fields
        ensures Holds(SetFields(t, fields), f)
      {
        SetFieldStores(SetFields(t, front), last, f);
        if f != last {
          var i :| 0 <= i < |fields| && fields[i] == f;
          if i == |fields| - 1 {
            assert false;
          }
          assert front[i] == f;
          assert FieldOf(f) != FieldOf(last);
        }
      }
    }
  }

  /** `TaskUpdateSerializer.update` before `save`: the assignee changes only when the key was
      sent (possibly to none), then every other validated field is set in turn. */
  method ApplyUpdate(instance: T.Task, assignedTo: Option<Option<Id>>, fields: seq<FieldValue>) returns (t: T.Task)
    ensures t == SetFields(if assignedTo.Some? then instance.(assignedTo := assignedTo.value) else instance, fields)
    ensures t.assignedTo == (if assignedTo.Some? then assignedTo.value else instance.assignedTo)
    ensures t.id == instance.id && t.project == instance.project && t.createdBy == instance.createdBy
    ensures OneEntryPerField(fields) ==> forall f :: f in fields ==> Holds(t, f)
    ensures (!SetsName(fields) ==> t.name == instance.name)
            && (!SetsDescription(fields) ==> t.description == instance.description)
            && (!SetsStatus(fields) ==> t.status == instance.status)
            && (!SetsPriority(fields) ==> t.priority == instance.priority)
            && (!SetsDueDate(fields) ==> t.dueDate == instance.dueDate)
            && t.completedAt == instance.completedAt
  {
    t := instance;
    if assignedTo.Some? {
      t := t.(assignedTo := assignedTo.value);
    }
    ghost var start := t;
    var i := 0;
    while i < |fields|
      invariant 0 <= i <= |fields|
      invariant t == SetFields(start, fields[..i])
    {
      assert fields[..i + 1][..i] == fields[..i];
      t := SetField(t, fields[i]);
      i := i + 1;
    }
    assert fields[..i] == fields;
    SetFieldsFrame(start, fields);
    if OneEntryPerField(fields) {
      SentValuesStored(start, fields);
    }
  }

  // ---------------------------------------------------------------------------
  // AssignTaskSerializer

  /** `AssignTaskSerializer.validate_assigned_to_id`: none clears the assignee; an id must name
      an active user who belongs to the task's project. */
  function ValidateAssignment(value: Option<Id>, task: T.Task, users: map<Id, Users.User>,
                              assignments: map<Id, P.Assignment>): (r: Result<Option<Id>, TaskFieldError>)
    ensures r.Ok? <==> value.None? || (AssigneeIdValid(value, users) && P.IsMember(assignments, task.project, value.value))
    ensures r.Ok? ==> r.value == value
    ensures r == Err(UserNotFoundOrInactive) <==> !AssigneeIdValid(value, users)
  {
    if value.None? then Ok(None)
    else if !AssigneeIdValid(value, users) then Err(UserNotFoundOrInactive)
    else if !P.IsMember(assignments, task.project, value.value) then Err(AssigneeNotInProject)
    else Ok(value)
  }

  /** An assignee accepted by `AssignTaskSerializer` passes the model's membership rule. */
  lemma AssignedUserPassesClean(value: Option<Id>, task: T.Task, users: map<Id, Users.User>,
                                assignments: map<Id, P.Assignment>, project: P.Project, now: Instant)
    requires ValidateAssignment(value, task, users, assignments).Ok?
    requires T.Clean(task, project, assignments, now).Pass?
    ensures T.Clean(task.(assignedTo := value), project, assignments, now).Pass?
  {
    T.CleanAccepts(task, project, assignments, now);
    T.CleanAccepts(task.(assignedTo := value), project, assignments, now);
  }
}
