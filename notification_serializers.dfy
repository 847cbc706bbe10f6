/** The input checks of apps/notifications/serializers.py.

    Ids in a request are integers. The field validators of one serializer report their errors
    together, as a set; `validate` runs only when there are none. */
module NotificationSerializers {
  import opened Common
  import Users
  import P = Projects
  import T = Tasks
  import N = Notifications

  datatype NotificationFieldError =
    | RecipientNotFoundOrInactive
    | SenderNotFoundOrInactive
    | ProjectNotFound
    | TaskNotFound
    | TitleRequired
    | MessageRequired

  /** An id that `User.objects.get(id=..., is_active=True)` finds. */
  predicate ActiveUserId(users: map<Id, Users.User>, v: int)
  {
    v > 0 && v as Id in users && users[v as Id].isActive
  }

  /** What an administrator sends to create a notification. */
  datatype NotificationInput = NotificationInput(
    recipient: int,
    sender: Option<int>,
    kind: N.NotificationType,
    priority: N.NotificationPriority,
    title: string,
    message: string,
    relatedProject: Option<int>,
    relatedTask: Option<int>,
    extra: map<string, int>)

  /** The field validators of `NotificationCreateSerializer`: the recipient and a given sender are
      active users, a given project or task exists. */
  function FieldErrors(input: NotificationInput, users: map<Id, Users.User>, projects: map<Id, P.Project>, tasks: map<Id, T.Task>)
    : (errs: set<NotificationFieldError>)
    ensures errs == {} <==> && ActiveUserId(users, input.recipient)
                            && (input.sender.Some? ==> ActiveUserId(users, input.sender.value))
                            && (input.relatedProject.Some? ==> input.relatedProject.value > 0 && input.relatedProject.value as Id in projects)
                            && (input.relatedTask.Some? ==> input.relatedTask.value > 0 && input.relatedTask.value as Id in tasks)
    ensures TitleRequired !in errs && MessageRequired !in errs
  {
    (if ActiveUserId(users, input.recipient) then {} else {RecipientNotFoundOrInactive})
    + (if input.sender.None? || ActiveUserId(users, input.sender.value) then {} else {SenderNotFoundOrInactive})
    + (if input.relatedProject.None? || (input.relatedProject.value > 0 && input.relatedProject.value as Id in projects)
       then {} else {ProjectNotFound})
    + (if input.relatedTask.None? || (input.relatedTask.value > 0 && input.relatedTask.value as Id in tasks)
       then {} else {TaskNotFound})
  }

  /** `NotificationCreateSerializer.validate`: the title is checked first, then the message. */
  function ValidateCreate(title: string, message: string): (r: Outcome<NotificationFieldError>)
    ensures r.Pass? <==> |title| > 0 && |message| > 0
    ensures r == Fail(TitleRequired) <==> |title| == 0
    ensures r == Fail(MessageRequired) <==> |title| > 0 && |message| == 0
  {
    if |title| == 0 then Fail(TitleRequired)
    else if |message| == 0 then Fail(MessageRequired)
    else Pass
  }

  /** An optional id kept only when it is given and truthy, as `create` does. */
  function Truthy(v: Option<int>): (r: Option<Id>)
    ensures r.Some? <==> v.Some? && v.value > 0
    ensures r.Some? ==> r.value == v.value
  {
    if v.Some? && v.value > 0 then Some(v.value as Id) else None
  }

  /** `NotificationCreateSerializer.is_valid` and `create`: the row to write, or the errors. */
  function CheckCreate(input: NotificationInput, users: map<Id, Users.User>, projects: map<Id, P.Project>, tasks: map<Id, T.Task>)
    : (r: Result<N.Draft, set<NotificationFieldError>>)
    ensures r.Ok? <==> FieldErrors(input, users, projects, tasks) == {} && ValidateCreate(input.title, input.message).Pass?
    ensures r.Err? ==> r.error != {}
    ensures r.Ok? ==> && r.value.recipient == input.recipient
                      && r.value.sender == Truthy(input.sender)
                      && r.value.relatedProject == Truthy(input.relatedProject)
                      && r.value.relatedTask == Truthy(input.relatedTask)
                      && r.value.title == input.title && r.value.message == input.message
                      && r.value.kind == input.kind && r.value.priority == input.priority
  {
    var errs := FieldErrors(input, users, projects, tasks);
    if errs != {} then Err(errs)
    else match ValidateCreate(input.title, input.message)
      case Fail(e) => Err({e})
      case Pass =>
        Ok(N.Draft(input.recipient as Id, Truthy(input.sender), input.kind, input.priority, input.title, input.message,
                   Truthy(input.relatedProject), Truthy(input.relatedTask), input.extra))
  }

  /** After validation every id that was sent is positive, so the truthiness test of `create`
      drops only ids that were not sent. */
  lemma ValidatedIdsAreKept(input: NotificationInput, users: map<Id, Users.User>, projects: map<Id, P.Project>, tasks: map<Id, T.Task>)
    requires CheckCreate(input, users, projects, tasks).Ok?
    ensures Truthy(input.sender).Some? <==> input.sender.Some?
    ensures Truthy(input.relatedProject).Some? <==> input.relatedProject.Some?
    ensures Truthy(input.relatedTask).Some? <==> input.relatedTask.Some?
  {
  }

  // ---------------------------------------------------------------------------
  // BulkNotificationUpdateSerializer.validate_notification_ids

  /** A missing or empty list passes; otherwise every id must be one of the user's notifications,
      and the error lists exactly the ids that are not. */
  function ValidateBulkIds(m: map<Id, N.Notification>, user: Id, ids: Option<seq<int>>): (r: Result<Option<seq<int>>, set<int>>)
    ensures r.Ok? <==> ids.None? || forall i :: 0 <= i < |ids.value| ==> 0 < ids.value[i] && ids.value[i] in N.OwnedBy(m, user)
    ensures r.Ok? ==> r.value == ids
    ensures r.Err? ==> ids.Some? && r.error == N.ForeignIds(m, user, set i | i in ids.value) && r.error != {}
  {
    if ids.None? || |ids.value| == 0 then Ok(ids)
    else
      var bad := N.ForeignIds(m, user, set i | i in ids.value);
      if bad != {} then Err(bad)
      else
        assert forall i :: 0 <= i < |ids.value| ==> ids.value[i] !in bad;
        Ok(ids)
  }

  // ---------------------------------------------------------------------------
  // NotificationPreferencesSerializer.validate

  /** The preference flags a client sends; a missing flag is none. */
  datatype Preferences = Preferences(
    email: Option<bool>,
    push: Option<bool>,
    projectUpdates: Option<bool>,
    taskAssignments: Option<bool>,
    taskComments: Option<bool>,
    projectInvitations: Option<bool>,
    deadlineReminders: Option<bool>)

  /** `attrs.get(key, True)`. */
  function Enabled(flag: Option<bool>): bool
  {
    flag.None? || flag.value
  }

  datatype PreferencesError = NoCategoryEnabled

  function ValidatePreferences(p: Preferences): (r: Outcome<PreferencesError>)
    ensures r.Fail? <==> p.projectUpdates == Some(false) && p.taskAssignments == Some(false) && p.taskComments == Some(false)
                         && p.projectInvitations == Some(false) && p.deadlineReminders == Some(false)
  {
    if Enabled(p.projectUpdates) || Enabled(p.taskAssignments) || Enabled(p.taskComments)
       || Enabled(p.projectInvitations) || Enabled(p.deadlineReminders)
    then Pass else Fail(NoCategoryEnabled)
  }

  /** The email and push flags play no part in the decision. */
  lemma ChannelsIgnored(p: Preferences, email: Option<bool>, push: Option<bool>)
    ensures ValidatePreferences(p.(email := email, push := push)) == ValidatePreferences(p)
  {
  }
}
