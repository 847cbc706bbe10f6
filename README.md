# Project and task tracker: a Dafny model of its domain rules

This project models the domain layer of a Django project and task tracker and proves properties of the model. The tracker has:

- users with one of three roles (admin, collaborator, viewer);
- projects with a date window and a status;
- project memberships, where one user belongs to one project at most once;
- tasks with a due date, an optional assignee and a status machine;
- comments on tasks;
- notifications, each with a read state.

The model covers these parts of the source:

- the model-level rules: `clean`/`save`, the derived `completed_at` and `read_at` instants, and the date properties;
- the seven REST permission classes and the inline checks of the views;
- the serializers' validators, and the writes done by `create`/`update`;
- the three `post_save` receivers that fan out notifications;
- the notification bulk operations, the task and comment endpoints, the project endpoints and the two admin classes;
- the dashboard counts.

The ORM is a class `Store.Db`. It holds one `map` per table and one counter per table for the next key. Its `Valid()` predicate is the set of invariants every write keeps:

- stored projects pass `clean`;
- membership pairs are unique;
- `completed_at` is set exactly when a task is completed;
- `read_at` is set exactly when a notification is read;
- emails are unique;
- a project's creator and a task's creator are stored users;
- a membership's project and user, a task's project, and a comment's task and author are stored rows.

The keeping of references stops there. A task's assignee is checked as a member of the task's project by `clean` when the task is saved (`Store.Db.AssigneeIsUser`). Nothing ties it to the membership rows afterwards. A notification's recipient, sender and related project or task are not tied to stored rows either.

Every database write is a method that names in `modifies` the table fields it changes.

Other modelling choices:

- Pure rules (role predicates, permission classes, validators, recipient lists) are functions and predicates over these values.
- Loops of the source are `while` loops with invariants: the completion and comment notification builders, the member-list check and the membership inserts of project creation, and the two admin actions.
- Dates are integer day numbers and instants are integer seconds; `DateOf` turns an instant into its day.
- The clock is a parameter (`now`, `today`).
- A notification insert that raises is a parameter (`fails`, `failAt`, `notifyFails`). This is how the model shows that a failed notification never undoes the save that triggered it.
- Titles and message texts are opaque strings.
- HTTP outcomes are `ApiError` values: `BadRequest` (400), `Forbidden` (403), `NotFound` (404) and `ServerError` (500).

Three hazards in the source are handled as follows:

- **Memberships have no `role`.** `ProjectAssignment` has no such field. Every test of a membership role is modelled as "no such role", i.e. false. Where the literal code would raise, the line under "Left out" that starts with the member's name says so.
- **`is_admin` is used without a call.** In `apps/tasks/models.py` it appears without parentheses, so it is always truthy. The model uses the intended role test. The as-written behaviour is exhibited under "Findings".
- **Later definitions win.** Both admin classes define `get_queryset` twice. Python keeps the later definition, and that is the one modelled.

The documentation of the system and its code differ in three places. The model follows the code:

- A request to move a task to its current status is rejected, not treated as a no-op success (`TaskSerializers.ValidateStatus`).
- `TaskComment.clean` admits the assignee, a project member, the task's creator or an admin. The project's creator is not named.
- `Task.can_be_deleted_by` admits an admin or the creator, not the creator alone.

One consequence the proofs bring out: `save` re-runs the due-date check. So once its due day has passed, a task's status can no longer be changed (`TaskViews.StatusOfLateTaskIsFrozen`).

## Model

| member | source | states |
|---|---|---|
| `Users.RolesArePartition` | apps/authentication/models.py:42-49 | exactly one of `is_admin`, `is_collaborator`, `is_viewer` holds for every user |
| `Users.ManageRightsExcludeViewers` | apps/authentication/models.py:51-55 | both management capabilities hold exactly for admins and collaborators; a viewer has neither |
| `Users.NewUserWithoutRoleIsViewer` | apps/authentication/models.py:16-21 | a user created without a role is a viewer and cannot manage projects |
| `Users.TrimStartSpec` | apps/authentication/models.py:38-40 | left trimming removes exactly a whitespace prefix and leaves a non-space first character |
| `Users.TrimEndSpec` | apps/authentication/models.py:38-40 | right trimming removes exactly a whitespace suffix and leaves a non-space last character |
| `Users.StripSpec` | apps/authentication/models.py:38-40 | `strip()` yields a slice with no outer whitespace, and what it cut off on both sides is whitespace |
| `Users.StripEmpty` | apps/authentication/models.py:38-40 | the stripped text is empty exactly when the text is all whitespace |
| `Users.FullNameOfCleanNames` | apps/authentication/models.py:38-40 | with two non-empty names without outer whitespace, `full_name` is first name, one space, last name |
| `Users.FullNameIsStrippedJoin` | apps/authentication/models.py:38-40 | for any names, `full_name` has no outer whitespace and is a slice of the space-joined names |
| `Users.InsertUser` | apps/authentication/models.py:13 | a user row is inserted exactly when its key is new and no stored user has its email |
| `Users.InsertUserKeepsEmailsUnique` | apps/authentication/models.py:13 | inserting users never produces two users with one email |
| `Projects.CleanIsDateOrder` | apps/projects/models.py:59-69 | `clean` passes exactly when the start date is not after the end date, equal dates included; `full_clean` implies it |
| `Projects.ActivityAndLateness` | apps/projects/models.py:71-81 | a project is active exactly when neither completed nor cancelled; an overdue project is active or cancelled |
| `Projects.DaysRemainingBounds` | apps/projects/models.py:76-96 | days remaining are never negative, are 0 for a completed or overdue project, and otherwise reach the end date from today |
| `Projects.DurationOfCleanProject` | apps/projects/models.py:83-96 | a project that passed `clean` has a non-negative duration, and once started has no more days left than its duration |
| `Projects.MembersOfIsMembership` | apps/projects/models.py:98-100 | the member set of a project and the membership test agree |
| `Projects.AddMembership` | apps/projects/models.py:119-146 | adding a row for a pair not yet present keeps pairs unique and makes exactly that user a new member |
| `Projects.RemoveMembership` | apps/projects/models.py:142-146 | deleting one row of unique pairs removes exactly that user from that project |
| `Tasks.CleanAccepts` | apps/tasks/models.py:88-113 | `clean` passes exactly when the due day is not before today and lies in the project window, and any assignee is a member |
| `Tasks.CompletedAtDerivation` | apps/tasks/models.py:115-123 | after `save`, `completed_at` is set exactly when completed; an existing instant of a completed task is kept; only that field changes; a second save changes nothing |
| `Tasks.DateOfMonotonic` | apps/tasks/models.py:125-145 | a later instant never falls on an earlier day |
| `Tasks.DeadlineFlags` | apps/tasks/models.py:125-145 | a completed task is neither overdue nor urgent and has no day count; an overdue task is urgent; a negative day count means overdue |
| `Tasks.DeleteRightImpliesEditRight` | apps/tasks/models.py:151-162 | whoever may delete a task may edit it; a plain member may edit but not delete |
| `Tasks.CommentCleanRejectsOutsiders` | apps/tasks/models.py:199-210 | `TaskComment.clean` refuses exactly an author who is neither assignee, member, task creator nor admin |
| `Tasks.CommentRightsCoincide` | apps/tasks/models.py:216-222 | editing and deleting a comment are the same right: admin or author |
| `Tasks.CommentCleanAsWritten` | apps/tasks/models.py:199-210 | the comment check as written, with `user.is_admin` uncalled, passes for every author |
| `Tasks.StrangerPassesAsWritten` | apps/tasks/models.py:151-162 | a concrete viewer with no tie to a task gets every task and comment right as written, and none with the role test |
| `Tasks.StrangersHaveNoRights` | apps/tasks/models.py:199-222 | with the role test, someone who is neither admin, creator, assignee, member nor author can neither edit nor delete the task or comment, and may not comment |
| `Store.Db.InsertProject` | apps/projects/models.py:59-69 | a project is written under the next key exactly when `full_clean` passes; otherwise nothing changes and the error is `clean`'s |
| `Store.Db.UpdateProject` | apps/projects/models.py:67-69 | an existing project is overwritten exactly when `full_clean` passes |
| `Store.Db.InsertAssignment` | apps/projects/models.py:119-147 | a membership is written exactly when the pair is new and the rows it refers to exist, after which the user is a member |
| `Store.Db.DeleteAssignment` | apps/projects/views.py:144-161 | exactly that membership row goes, and its user is no longer a member |
| `Store.Db.InsertTask` | apps/tasks/models.py:115-123 | a new task is written with its derived `completed_at` under the next key exactly when `full_clean` passes |
| `Store.Db.AssigneeIsUser` | apps/tasks/models.py:109-113 | a task that passes `full_clean` is assigned, if at all, to a member of its project, and so to a stored user |
| `Store.Db.UpdateTask` | apps/tasks/models.py:115-123 | an existing task is overwritten with its derived `completed_at` exactly when `full_clean` passes |
| `Store.Db.InsertComment` | apps/tasks/models.py:199-214 | a comment is written under the next key exactly when its content is not blank and its author passes `clean` |
| `Store.Db.UpdateComment` | apps/tasks/models.py:199-214 | a comment's new content is written exactly when the comment's `full_clean` passes |
| `Store.Db.DeleteComment` | apps/tasks/views.py:491-497 | exactly that comment row goes |
| `Store.Db.InsertNotification` | apps/notifications/models.py:111-118 | an insert that does not raise writes the draft as an unread row under the next key; one that raises writes nothing |
| `Store.Db.SaveNotification` | apps/notifications/models.py:111-118 | saving writes the row with its read instant adjusted, keeping read ⇔ read instant |
| `Notifications.SaveAdjustedSpec` | apps/notifications/models.py:111-118 | after `save`, read ⇔ read instant; the read flag is kept; an existing read instant is kept; only the read instant changes; a consistent row is unchanged |
| `Notifications.MarkedReadSpec` | apps/notifications/models.py:120-125 | `mark_as_read` leaves the row read, changes nothing on a read row, stamps `now` on an unread one, is idempotent and keeps the invariant |
| `Notifications.MarkedUnreadSpec` | apps/notifications/models.py:127-132 | `mark_as_unread` leaves the row unread with no read instant, is a no-op on an unread row and is idempotent |
| `Notifications.UrgencyIgnoresReadState` | apps/notifications/models.py:134-137 | `is_urgent` holds exactly for urgent priority, and reading or unreading does not change it |
| `Notifications.Without` | apps/notifications/models.py:164-192 | dropping one user keeps every other element and no duplicates |
| `Notifications.CompletionRecipients` | apps/notifications/models.py:164-192 | completion recipients are the project creator and the task creator without the user who completed the task, without duplicates, at most two |
| `Notifications.CommentRecipients` | apps/notifications/models.py:211-241 | comment recipients are the assignee and the task creator without the author, without duplicates, at most two, the assignee first |
| `Notifications.FromDraft` | apps/notifications/models.py:58-62 | a created row is unread with no read instant and carries the draft's recipient, sender, type, priority and related objects |
| `Notifications.TaskAssignedDraft` | apps/notifications/models.py:146-162 | the assignment notification goes to the assignee from the assigner, with medium priority, the task and its project |
| `Notifications.TaskCompletedDraft` | apps/notifications/models.py:175-189 | a completion notification comes from the user who completed the task, with low priority, the task and its project |
| `Notifications.ProjectAssignedDraft` | apps/notifications/models.py:195-209 | the membership notification goes to the new member from the assigner, with medium priority, the project and no task |
| `Notifications.CommentDraft` | apps/notifications/models.py:223-238 | a comment notification comes from the author, with low priority, the task and its project |
| `Notifications.Batch` | apps/notifications/models.py:172-190 | a run of inserts writes one row per draft |
| `Notifications.BatchAt` | apps/notifications/models.py:172-190 | row j of a run is draft j, unread, under key start + j |
| `Notifications.BatchAppend` | apps/notifications/models.py:172-190 | one more draft adds one more row at the end |
| `Notifications.CompletedDrafts` | apps/notifications/models.py:175-189 | one completion draft per recipient |
| `Notifications.CommentDrafts` | apps/notifications/models.py:223-238 | one comment draft per recipient |
| `Notifications.Appended` | apps/notifications/models.py:172-190 | the table after a run: the new rows under consecutive keys, every other row kept |
| `Notifications.BatchStep` | apps/notifications/models.py:172-190 | one more insert extends the run and the table by the next row under the next key |
| `Notifications.ReadUnreadPartition` | apps/notifications/views.py:265-272 | a user's notifications split into unread and read, disjointly, so read plus unread is the total |
| `Notifications.MarkAllRead` | apps/notifications/models.py:249-254 | `mark_all_as_read_for_user` makes exactly the user's unread rows read at `now`, leaves all others, and their unread count becomes 0 |
| `Notifications.ForeignIds` | apps/notifications/serializers.py:176-193 | the reported ids are exactly the sent ids that are not the user's notifications |
| `Notifications.BulkSetRead` | apps/notifications/views.py:157-186 | exactly the selected rows get the flag, with `read_at` now when reading and none when unreading; no other row changes |
| `Notifications.RemoveRead` | apps/notifications/views.py:190-201 | `delete_read` removes exactly the user's read rows and keeps every other row unchanged |
| `Notifications.RemoveOlderThan` | apps/notifications/views.py:205-218 | `delete_old` removes exactly the user's rows older than the cutoff and keeps every other row unchanged |
| `Notifications.DeletionsStayWithinOwner` | apps/notifications/views.py:190-218 | neither deletion touches another user's notifications, and deleting read rows keeps the unread ones |
| `NotificationFactory.CreateTaskAssigned` | apps/notifications/models.py:146-162 | one row for the assignee is added under the next key, or nothing when the insert raises |
| `NotificationFactory.CreateProjectAssigned` | apps/notifications/models.py:195-209 | one row for the new member is added under the next key, or nothing when the insert raises |
| `NotificationFactory.WithoutOfPrefix` | apps/notifications/models.py:172-174 | the recipients met in a prefix of the candidates are a prefix of all recipients |
| `NotificationFactory.WithoutStep` | apps/notifications/models.py:172-174 | a kept candidate is the next recipient; a skipped one adds none |
| `NotificationFactory.InsertNext` | apps/notifications/models.py:175-190 | one insert of a run adds the next draft under the next key, or raises exactly at the failing index and writes nothing |
| `NotificationFactory.VisitCandidate` | apps/notifications/models.py:172-190 | one loop turn skips the completing user and otherwise inserts that candidate's row |
| `NotificationFactory.NotifyCandidates` | apps/notifications/models.py:172-192 | the loop writes one row per candidate other than the completing user, in order, up to the insert that raises, and the rest of the table is kept |
| `NotificationFactory.CreateTaskCompleted` | apps/notifications/models.py:164-192 | the rows written are exactly the completion recipients' notifications, in order, until an insert raises |
| `NotificationFactory.CreateCommentNotifications` | apps/notifications/models.py:211-241 | the rows written are exactly the comment recipients' notifications, in order, until an insert raises |
| `Signals.OnAssignmentSaved` | apps/notifications/signals.py:12-22 | a notification is written only for a newly created membership, and a failing insert is swallowed |
| `Signals.OnTaskSaved` | apps/notifications/signals.py:25-37 | a notification is written only for a new task with an assignee, sent by its creator; a failure is swallowed |
| `Signals.Written` | apps/notifications/signals.py:45-50 | a run cut short by a failing insert writes no more rows than planned |
| `Signals.OnCommentSaved` | apps/notifications/signals.py:40-50 | every new comment runs the comment fan-out; an edited one writes nothing; a failure is swallowed |
| `Signals.CreateAssignment` | apps/notifications/signals.py:12-22 | the membership insert succeeds or fails on its own terms whether or not its notification can be written |
| `Signals.CreateTask` | apps/notifications/signals.py:25-37 | the task insert follows `full_clean` whatever happens to its notification; the assignee is notified only on success |
| `Signals.SaveTask` | apps/tasks/models.py:115-123 | saving an existing task writes no notification |
| `Signals.CreateComment` | apps/notifications/signals.py:40-50 | the comment insert follows `full_clean` whatever happens to its notifications, and the fan-out runs only on success |
| `Permissions.SuperusersPassEveryCheck` | apps/shared/permissions.py:18-200 | every class that tests for superusers lets them through, whatever the object or method |
| `Permissions.ProjectMemberDecisions` | apps/shared/permissions.py:18-53 | for other users, access follows membership of the object's project; objects without a project and views without one are open |
| `Permissions.ProjectManagerWrites` | apps/shared/permissions.py:56-95 | a write to a project-scoped object needs membership and being the project's creator; other objects are refused |
| `Permissions.AssignedOrManagerWrites` | apps/shared/permissions.py:98-129 | the task's creator or assignee may write even without membership; a non-member otherwise may not |
| `Permissions.CommentAuthorDecisions` | apps/shared/permissions.py:132-148 | reading a comment follows membership of its task's project; writing it is the author's alone |
| `Permissions.AdminOrReadOnlyDecisions` | apps/shared/permissions.py:163-172 | anonymous users get nothing, signed-in users read, writes need staff or superuser |
| `Permissions.AssignmentManagers` | apps/shared/permissions.py:175-200 | assignment management is open to the superuser and the creator of the view's project, and closed when no project is resolved |
| `Permissions.OwnerDecisions` | apps/shared/permissions.py:5-15 | reads are open; writes belong to the creator of a project or task |
| `TaskSerializers.ValidateStatus` | apps/tasks/serializers.py:401-421 | a status change is accepted exactly when it differs from the current status, and the requested status is returned |
| `TaskSerializers.TransitionTable` | apps/tasks/serializers.py:412-416 | each status lists exactly the two other statuses: no terminal status, no self-loop |
| `TaskSerializers.SpaceIsNotAlnum` | apps/tasks/serializers.py:305-309 | whitespace is never alphanumeric |
| `TaskSerializers.ValidateCommentContent` | apps/tasks/serializers.py:292-311 | new comment content is refused exactly when blank, longer than 1000 once stripped, or without an alphanumeric character; otherwise the stripped text is returned |
| `TaskSerializers.ValidateCommentEdit` | apps/tasks/serializers.py:367-373 | edited content is refused exactly when blank; otherwise the stripped, non-empty text is returned |
| `TaskSerializers.CreateContentIsStricter` | apps/tasks/serializers.py:292-311 | whatever the creation check accepts, the edit check accepts with the same text |
| `TaskSerializers.ValidateCommentCreate` | apps/tasks/serializers.py:313-351 | a comment request passes exactly when a task is given and the user is a superuser or a member of its project |
| `TaskSerializers.CommentCreateMeetsClean` | apps/tasks/serializers.py:313-331 | a non-superuser this check admits also passes `TaskComment.clean` |
| `TaskSerializers.ValidateTaskCreate` | apps/tasks/serializers.py:156-178 | task creation passes exactly when the due day is not in the past and any assignee is a project member |
| `TaskSerializers.CheckTaskCreate` | apps/tasks/serializers.py:132-178 | the create serializer accepts exactly an active assignee, an accessible project and a passing `validate`, and reports an inactive assignee |
| `TaskSerializers.NewTask` | apps/tasks/serializers.py:180-192 | the created task has the requester as creator and the sent name, status, due date, project and assignee |
| `TaskSerializers.CreateChecksCoverClean` | apps/tasks/serializers.py:156-192 | a created task that passed the serializer and lies in the project window passes the model's `clean` |
| `TaskSerializers.ValidateTask` | apps/tasks/serializers.py:84-116 | the full serializer passes exactly when the due day is not past and lies in the project window, and any assignee is a member |
| `TaskSerializers.TaskValidateAgreesWithClean` | apps/tasks/serializers.py:84-116 | for a known project, the full serializer and the model's `clean` refuse the same tasks |
| `TaskSerializers.ValidateTaskUpdate` | apps/tasks/serializers.py:218-229 | an update is refused exactly when it sets an assignee outside the task's project |
| `TaskSerializers.CheckTaskUpdate` | apps/tasks/serializers.py:207-229 | an update passes exactly when no assignee is sent, none is sent, or the assignee is active and a member |
| `TaskSerializers.SetFieldsFrame` | apps/tasks/serializers.py:239-241 | setting the sent fields leaves the key, project, creator, assignee and completion instant alone, and each of name, description, status, priority and due date unchanged when not sent |
| `TaskSerializers.SetFieldStores` | apps/tasks/serializers.py:239-241 | one `setattr` stores its value and keeps what every other attribute holds |
| `TaskSerializers.SentValuesStored` | apps/tasks/serializers.py:239-241 | when each attribute is sent at most once, as in a dict, every value sent is the value the instance holds afterwards |
| `TaskSerializers.ApplyUpdate` | apps/tasks/serializers.py:231-244 | the assignee changes only when its key was sent (possibly to none); every other value sent is stored; every unsent field, the key, project, creator and completion instant stay |
| `TaskSerializers.ValidateAssignment` | apps/tasks/serializers.py:376-398 | an assignment passes exactly for none, or for an active user who belongs to the task's project |
| `TaskSerializers.AssignedUserPassesClean` | apps/tasks/serializers.py:381-398 | an assignee this check accepts keeps a clean task clean |
| `ProjectSerializers.ValidateDates` | apps/projects/serializers.py:55-72 | dates pass exactly when one is missing or they are in order, and for a new project the start is not in the past; each failure has its own error |
| `ProjectSerializers.CheckedDatesPassClean` | apps/projects/serializers.py:106-121 | dates this check passes are dates the model's `clean` accepts |
| `ProjectSerializers.ValidateUpdateDates` | apps/projects/serializers.py:185-196 | an omitted date falls back to the stored one, and then the pair must be in order |
| `ProjectSerializers.UpdateDatesMatchClean` | apps/projects/serializers.py:185-196 | the update check is exactly `clean` of the updated project, and an update without dates always passes |
| `ProjectSerializers.Fold` | apps/projects/serializers.py:74-85 | case folding keeps the length and folds letter by letter |
| `ProjectSerializers.FoldFacts` | apps/projects/serializers.py:74-85 | folding is idempotent, and names that differ only in letter case are the same name |
| `ProjectSerializers.ValidateName` | apps/projects/serializers.py:74-85 | a name is refused exactly when a project other than the edited one carries it, ignoring case |
| `ProjectSerializers.ValidatedNamesStayDistinct` | apps/projects/serializers.py:198-209 | writing a name that passed the check keeps the stored names distinct up to case |
| `ProjectSerializers.ValidateNameField` | apps/projects/models.py:16-19 | the name column accepts exactly 1 to 200 characters |
| `ProjectSerializers.SeenIds` | apps/projects/serializers.py:126-138 | the collected ids are no more than the entries |
| `ProjectSerializers.SeenIdsSpec` | apps/projects/serializers.py:126-138 | an id is collected exactly when some entry carries it |
| `ProjectSerializers.FirstEntryErrorSpec` | apps/projects/serializers.py:123-144 | the reported error is the first offending entry's, and there is none exactly when no entry offends |
| `ProjectSerializers.MemberListMeaning` | apps/projects/serializers.py:123-144 | a list passes exactly when every entry carries the id of an active user and no id repeats |
| `ProjectSerializers.ValidateMemberList` | apps/projects/serializers.py:123-144 | the loop passes exactly when no entry offends, and otherwise reports the first offending entry's error |
| `ProjectSerializers.ValidateProjectCreate` | apps/projects/serializers.py:106-148 | a creation request passes exactly when the name, the dates for a new project and the member list pass |
| `ProjectSerializers.CheckedListIds` | apps/projects/serializers.py:123-144 | a passing list yields distinct active user ids, exactly those sent |
| `ProjectSerializers.AllSomeIds` | apps/projects/serializers.py:126-138 | when every entry carries an id, the ids are the entries one for one |
| `ProjectSerializers.MembersAddedStep` | apps/projects/serializers.py:160-165 | one fresh row for an unlisted user extends the added members by that user |
| `ProjectSerializers.NotifiedStep` | apps/projects/serializers.py:160-165 | one more membership notification from the creator keeps the notification record |
| `ProjectSerializers.NotifiedAfterInsert` | apps/projects/serializers.py:160-165 | whether or not one membership insert wrote its notification, the record of the project's membership notifications is kept |
| `ProjectSerializers.DistinctPrefix` | apps/projects/serializers.py:160-165 | in a list of distinct ids, each id is not among the ones before it, and the prefix grows by that id |
| `ProjectSerializers.AddMemberAt` | apps/projects/serializers.py:160-165 | the loop's turn `i` adds the `i`-th listed user after the earlier ones and keeps the notification record |
| `ProjectSerializers.AddMember` | apps/projects/serializers.py:160-165 | one membership insert with its receiver adds that user, added by the requester |
| `ProjectSerializers.AddMembers` | apps/projects/serializers.py:150-167 | the project's members become exactly the listed ids, one new row each, added by the requester; earlier rows are kept; every new notification is a membership notification |
| `ProjectSerializers.MembersAddedFrame` | apps/projects/serializers.py:150-167 | the memberships of other projects are unchanged |
| `ProjectSerializers.ValidateAssignUser` | apps/projects/serializers.py:281-304 | a user can be added exactly when active and not yet a member, with the inactive case reported as such |
| `ProjectViews.VisibleProjects` | apps/projects/views.py:44-58 | the project list is drawn from the stored projects |
| `ProjectViews.VisibleIsMemberPermission` | apps/projects/views.py:44-58 | a project is listed exactly when `IsProjectMember` lets the user at it |
| `ProjectViews.MyProjects` | apps/projects/views.py:221-231 | `my_projects` is a subset of the visible projects |
| `ProjectViews.MyProjectsMeaning` | apps/projects/views.py:221-231 | for a non-superuser `my_projects` is the visible list; otherwise it is the projects the user belongs to or created |
| `ProjectViews.CreateProject` | apps/projects/views.py:85-94 | a valid request writes the project with the requester as creator; its members become exactly the listed users and the creator; the request fails with a server error exactly when the creator listed themself |
| `ProjectViews.NewProjectHasNoMembers` | apps/projects/views.py:85-94 | a project not yet stored has no members |
| `ProjectViews.AddCreator` | apps/projects/views.py:89-94 | the creator's membership is added exactly when the creator was not among the listed members |
| `ProjectViews.ManageGate` | apps/projects/views.py:106-109 | the assignment actions proceed exactly for a stored project and the superuser or its creator who is a member; 404 for a missing project, 403 for a non-creator |
| `ProjectViews.AssignUser` | apps/projects/views.py:105-125 | exactly one membership is written, added by the actor, exactly when both gates and the serializer pass; otherwise nothing changes |
| `ProjectViews.RemoveAssignment` | apps/projects/views.py:142-161 | exactly that membership of that project is deleted, except the creator's (400); a missing one is 404; the creator's membership is never removed |
| `TaskViews.VisibleTasks` | apps/tasks/views.py:49-63 | the task list is drawn from stored tasks, and is all of them for the superuser |
| `TaskViews.VisibleTaskIsMemberPermission` | apps/tasks/views.py:49-63 | a task is listed exactly when `IsProjectMember` lets the user at it |
| `TaskViews.VisibleComments` | apps/tasks/views.py:377-387 | a non-superuser's comments are on visible tasks only |
| `TaskViews.VisibleCommentIsReadable` | apps/tasks/views.py:377-387 | a comment is listed exactly when `IsCommentAuthorOrReadOnly` lets the user read it |
| `TaskViews.OverdueFilterMeansLate` | apps/tasks/views.py:124-128 | a task the overdue filter selects is late by its own reckoning; one due today is not selected |
| `TaskViews.StatusPartition` | apps/tasks/views.py:299-316 | the three statuses split any set of tasks, and the overdue ones are among the open ones |
| `TaskViews.DashboardTaskCounts` | apps/tasks/views.py:299-316 | the total is the number of visible tasks; each status count is the visible tasks with that status and the overdue count the visible tasks the overdue filter selects; the status counts add up to the total, and the overdue ones are among the open ones |
| `TaskViews.StatusRightWithinEditRight` | apps/tasks/views.py:206-220 | whoever may update a status may edit the task; a plain member may edit it but not update its status |
| `TaskViews.StatusChanged` | apps/tasks/views.py:222-234 | the saved row has the new status, keeps its key, dates, project and assignee, and has a completion instant exactly when completed |
| `TaskViews.StatusOfLateTaskIsFrozen` | apps/tasks/views.py:222-234 | once the due day has passed, every status change fails in `save` |
| `TaskViews.UpdateStatus` | apps/tasks/views.py:201-235 | not visible is 404; anyone but the superuser, assignee or creator gets 403; the current status is 400; otherwise the row is saved exactly when `full_clean` passes; no notification is written |
| `TaskViews.ChangeStatusAccessIsImplied` | apps/tasks/views.py:242-251 | the membership test of `change_status` always holds once the task is found |
| `TaskViews.ChangeStatus` | apps/tasks/views.py:237-279 | never 403; the current status is 400; a valid change is saved, and the answer is a server error exactly when another user is the assignee; no notification is written |
| `TaskViews.CommentTarget` | apps/tasks/views.py:442-448 | the target task is found exactly when it exists and the user belongs to its project |
| `TaskViews.CreateComment` | apps/tasks/views.py:431-479 | a missing or malformed task is 400; an inaccessible task is 404 (400 for the superuser); bad content is 400; otherwise the stripped comment is written and both fan-outs run; a failure writes nothing |
| `TaskViews.SaveAndNotify` | apps/tasks/views.py:453-479 | the comment is written, then the receiver's fan-out and the view's own fan-out follow |
| `TaskViews.UpdateComment` | apps/tasks/views.py:481-489 | not visible is 404; a non-author non-superuser gets 403; blank content is 400; otherwise the stripped content is saved when `full_clean` passes |
| `TaskViews.DeleteComment` | apps/tasks/views.py:491-497 | not visible is 404; the comment is deleted exactly for its author or the superuser, which the comment permission also admits |
| `NotificationSerializers.FieldErrors` | apps/notifications/serializers.py:74-117 | the field validators pass exactly when the recipient and any sender are active users and any related project or task exists |
| `NotificationSerializers.ValidateCreate` | apps/notifications/serializers.py:119-132 | the title is checked first, then the message; both must be non-empty |
| `NotificationSerializers.Truthy` | apps/notifications/serializers.py:134-155 | an optional id is kept exactly when given and positive |
| `NotificationSerializers.CheckCreate` | apps/notifications/serializers.py:58-155 | a request is accepted exactly when the field checks and `validate` pass, and the row carries the sent fields with only truthy ids |
| `NotificationSerializers.ValidatedIdsAreKept` | apps/notifications/serializers.py:134-155 | after validation, an id is kept exactly when it was sent |
| `NotificationSerializers.ValidateBulkIds` | apps/notifications/serializers.py:176-193 | a missing or empty list passes; otherwise it passes exactly when every id is the user's, and the error lists exactly the others |
| `NotificationSerializers.ValidatePreferences` | apps/notifications/serializers.py:218-229 | preferences are refused exactly when all five categories are explicitly off; a missing key counts as on |
| `NotificationSerializers.ChannelsIgnored` | apps/notifications/serializers.py:207-229 | the email and push flags play no part |
| `NotificationViews.Visible` | apps/notifications/views.py:40-49 | a non-superuser reaches exactly their own notifications |
| `NotificationViews.VisibleIsRecipientPermission` | apps/notifications/views.py:40-49 | the queryset and `IsNotificationRecipient` agree on every row |
| `NotificationViews.Create` | apps/notifications/views.py:103-111 | a non-superuser gets 403; an invalid request is 400; otherwise the validated row is written |
| `NotificationViews.MarkAsRead` | apps/notifications/views.py:114-123 | a reachable row becomes read with `now` as its read instant, whatever it was; otherwise 404 and nothing changes |
| `NotificationViews.MarkAsUnread` | apps/notifications/views.py:126-135 | a reachable row becomes unread with no read instant; otherwise 404 and nothing changes |
| `NotificationViews.ActionAndModelMarkRead` | apps/notifications/views.py:114-123 | the action and the model method agree on an unread row, but the action re-stamps a read one |
| `NotificationViews.ModelMarkAsRead` | apps/notifications/models.py:120-125 | the model method, saved, writes its result for that row only |
| `NotificationViews.ModelMarkAsUnread` | apps/notifications/models.py:127-132 | the model method, saved, writes its result for that row only |
| `NotificationViews.MarkAllAsRead` | apps/notifications/views.py:138-153 | exactly the user's unread rows become read, and the count is how many there were |
| `NotificationViews.Selected` | apps/notifications/views.py:157-186 | the selection is exactly the sent ids within the user's reach |
| `NotificationViews.ValidatedSelection` | apps/notifications/views.py:157-186 | after validation, the selection is exactly the ids sent |
| `NotificationViews.BulkUpdate` | apps/notifications/views.py:156-186 | foreign ids are 400 and nothing changes; otherwise exactly the selected rows get the flag and the count is their number |
| `NotificationViews.DeleteRead` | apps/notifications/views.py:189-201 | exactly the user's read rows are deleted, and the count is how many |
| `NotificationViews.DeleteOld` | apps/notifications/views.py:204-218 | exactly the user's rows older than 30 days are deleted, and the count is how many |
| `NotificationViews.NotificationStats` | apps/notifications/views.py:264-297 | the counts the endpoint intends: the total is the user's rows, unread and read their unread and read rows, recent those created in the last seven days; read plus unread is the total and recent is at most the total |
| `NotificationViews.StatsEndpoint` | apps/notifications/views.py:264-297 | the endpoint answers with the counts exactly when the grouping name is a column of `Notification`, and is a server error otherwise |
| `NotificationViews.StatsAsWritten` | apps/notifications/views.py:274-279 | grouped by `notification_type`, as written, every call is a server error |
| `NotificationViews.StatsByTypeColumn` | apps/notifications/views.py:274-279 | grouped by the field `type`, the endpoint answers with the user's total, unread, read and recent counts |
| `NotificationViews.UnreadCountAfterBulkWrites` | apps/notifications/views.py:221-230 | the unread count is 0 after marking all read, and unchanged by deleting read rows |
| `NotificationAdmin.AdminVisible` | apps/notifications/admin.py:70-79 | the admin list is drawn from the stored rows, and is all of them for the superuser |
| `NotificationAdmin.AdminRights` | apps/notifications/admin.py:85-99 | a row is listed exactly when the user may change it; delete implies change; a sender who is not the recipient may change but not delete |
| `NotificationAdmin.AdminSeesApiRows` | apps/notifications/admin.py:70-79 | the admin shows everything the API shows, plus for a non-superuser exactly the rows they sent |
| `NotificationAdmin.SenderOnSave` | apps/notifications/admin.py:101-105 | the sender becomes the actor only for a new notification without one; otherwise it is kept |
| `NotificationAdmin.AddNotification` | apps/notifications/admin.py:101-105 | an added notification always has a sender, the given one when there was one |
| `NotificationAdmin.ChangeNotification` | apps/notifications/admin.py:101-105 | a change is saved with its sender left as it is |
| `NotificationAdmin.AllMarkedRead` | apps/notifications/admin.py:109-121 | unselected rows are unchanged |
| `NotificationAdmin.AllMarkedUnread` | apps/notifications/admin.py:123-135 | unselected rows are unchanged |
| `NotificationAdmin.ActionsOutcome` | apps/notifications/admin.py:109-135 | after the read action every selected row is read, and read ones keep their read instant; after the unread action every selected row is unread |
| `NotificationAdmin.ReadActionStep` | apps/notifications/admin.py:112-115 | one more row of the read action is marked, and it is counted exactly when it was unread |
| `NotificationAdmin.UnreadActionStep` | apps/notifications/admin.py:126-129 | one more row of the unread action is marked, and it is counted exactly when it was read |
| `NotificationAdmin.ReadOne` | apps/notifications/admin.py:112-115 | one loop turn marks the row read and counts it exactly when it was unread |
| `NotificationAdmin.UnreadOne` | apps/notifications/admin.py:126-129 | one loop turn marks the row unread and counts it exactly when it was read |
| `NotificationAdmin.MarkAsReadAction` | apps/notifications/admin.py:109-121 | the count is the number of selected rows that were unread, and the table is the selection marked read |
| `NotificationAdmin.MarkAsUnreadAction` | apps/notifications/admin.py:123-135 | the count is the number of selected rows that were read, and the table is the selection marked unread |
| `TaskAdmin.AdminTasks` | apps/tasks/admin.py:100-110 | the admin task list is drawn from stored tasks, and is all of them for the superuser |
| `TaskAdmin.AdminComments` | apps/tasks/admin.py:172-183 | the admin comment list always includes the user's own comments, and is everything for the superuser |
| `TaskAdmin.AdminReachesApiRows` | apps/tasks/admin.py:100-110 | the admin reaches every task and comment the API reaches; the extra tasks are exactly those the user created or is assigned to |
| `TaskAdmin.AdminTasksAreEditable` | apps/tasks/admin.py:100-110 | every task the admin shows a non-superuser is one they may edit |
| `TaskAdmin.AddTask` | apps/tasks/admin.py:86-90 | an added task gets the acting user as creator, whatever the form held, and is written exactly when `full_clean` passes |
| `TaskAdmin.ChangeTask` | apps/tasks/admin.py:86-90 | a changed task keeps the creator the form holds, and no notification is written |
| `TaskAdmin.AddComment` | apps/tasks/admin.py:166-170 | an added comment gets the acting user as author and is written exactly when its `full_clean` passes, with the fan-out |
| `TaskAdmin.ChangeComment` | apps/tasks/admin.py:166-170 | a change of a comment's content keeps its author, task and key, and the content is written exactly when `full_clean` passes |
| `TaskAdmin.Without` | apps/tasks/admin.py:92-98 | removing a filter drops exactly that entry and keeps the others |
| `TaskAdmin.WithoutDistributes` | apps/tasks/admin.py:92-98 | removing an entry keeps the order of the rest |
| `TaskAdmin.ListFilter` | apps/tasks/admin.py:92-98 | the superuser gets every filter; others get the same list without `created_by`, in order |
| `TaskAdmin.ContentPreview` | apps/tasks/admin.py:149-154 | content over 50 characters becomes its first 50 characters and "..."; shorter content is unchanged |
| `Dashboard.DashboardProjects` | apps/dashboard/views.py:40-48 | an admin-role user counts every project; anyone else counts exactly the projects they created or belong to |
| `Dashboard.DashboardCoversProjectList` | apps/dashboard/views.py:40-48 | a non-superuser's dashboard covers their project list, and the extras are ones they created (or all, for an admin) |
| `Dashboard.OverdueFilterIsLateAndOpen` | apps/dashboard/views.py:59-64 | the overdue filter is the model's `is_overdue` without cancelled projects |
| `Dashboard.OpenCount` | apps/dashboard/views.py:53-57 | the open projects are the pending ones plus the in-progress ones |
| `Dashboard.ClosedCount` | apps/dashboard/views.py:53-57 | the closed projects are the completed ones plus the cancelled ones |
| `Dashboard.OpenClosedSplit` | apps/dashboard/views.py:51-57 | every project is open or closed, never both |
| `Dashboard.StatusPartition` | apps/dashboard/views.py:51-64 | the four status counts add up to the total, and the overdue ones are among the open ones |
| `Dashboard.DashboardStats` | apps/dashboard/views.py:31-75 | the total is the covered projects counted once; each status count is the covered projects with that status; they add up to the total; overdue is at most the open ones |

## Left out

- Authentication, JWT tokens, password handling, the seeding command, the URL configuration, and the project and user admin pages. These are library calls and I/O.
- Floating-point values: project progress percentages, `age_in_hours` and `timesince`.
- Titles and messages: their text and date formatting are opaque strings passed in.
- `str.isalnum` is modelled for characters up to U+00FF only. Beyond Latin-1 every character counts as not alphanumeric.
- DRF's generic field parsing: types, required fields, choices, and the whitespace trimming of `CharField` (`trim_whitespace=True`, so a name or title of blanks arrives empty). The model takes already-typed inputs, and strings as they are after trimming. URL ids that are not integers are not modelled.
- ORM mechanics: pagination, search, ordering, `select_related`, and the order of querysets. Querysets are finite sets.
- Locking and concurrent requests. The source has none, and the model is sequential.
- Response shaping by the read-only serializers.
- `NotificationViews.NotificationStats`: these are the counts the `stats` endpoint intends to return. As written, the endpoint never returns them: it groups by `notification_type`, which is not a field of `Notification`, so every call ends in a 500 (see Findings and `NotificationViews.StatsAsWritten`).
- The per-type counts of `notifications_by_type`, and the shaping of the `stats` response by `NotificationStatsSerializer`.
- The `recent` and `unread` list endpoints.
- The `tasks`, `stats` and `dashboard_stats` endpoints of the project views, and the `list` filters other than `overdue`.
- The `comments`, `add_comment`, `assign` and `my_tasks` actions of the task views.
- `update_assignment`.
- `get_form` and `get_list_display` of the notification admin.
- `ProjectSerializer.validate`/`validate_name` and `TaskSerializer.validate` are modelled as checks, but no view write goes through them.
- `TaskSerializers.ValidateTask` and `TaskSerializers.TaskValidateAgreesWithClean`: `due_date` is a `DateTimeField` (apps/tasks/models.py:61), and apps/tasks/serializers.py:93 compares it with `date.today()`. Python raises TypeError when a datetime is compared with a date, so the source answers 500 for every request that carries a due date. The model instead compares calendar days and answers 400 or passes. Both members state that intended check, not the crash.
- `Permissions.ProjectManagerWrites`: on a write by a member, the source reads `assignment.role`, which `ProjectAssignment` does not have, so it raises AttributeError (500). The lemma instead grants a member who created the project and refuses other members. On a write to a comment or a notification, the source reads `obj.created_by`, which neither has (500). The lemma states a refusal there (403).
- `Permissions.ProjectManagerOrReadOnly`: the source reads `assignment.role` before comparing the creator, so the literal code raises (500) for any member on a write. The model treats the role test as false and grants a member who created the project.
- `Permissions.AssignedOrProjectManager`: the same `assignment.role` read raises (500) for a member who is neither the task's creator nor its assignee. The model answers by the creator test.
- `Permissions.CanManageProjectAssignments`: for a non-creator, the source's `role__in` lookup raises a FieldError (500). The model refuses (403), and so does `ProjectViews.ManageGate`.
- `TaskViews.UpdateStatus`: for anyone but the superuser, the assignee or the creator, the source's `role__in` lookup raises a FieldError (500). The model answers 403.
- `TaskSerializers.ValidateCommentCreate`: for a plain member who is neither the assignee nor the task's creator, the source's `role__in` lookup raises a FieldError (500). The model lets the member pass, and so `TaskViews.CreateComment` writes their comment (201) where the source answers 500.
- `Permissions.OwnerOrReadOnly`: on a write to an object without `created_by` (a comment, a membership or a notification), the source raises AttributeError (500). The model denies the write (403), and `Permissions.OwnerDecisions` states that denial.
- `ProjectSerializers.Fold`: the case fold covers A-Z only, as SQLite's `iexact` does, and so `ProjectSerializers.ValidateName` accepts a name such as "DISEÑO" beside "Diseño". On a database whose `iexact` folds Unicode, such as PostgreSQL's `UPPER`, the source refuses more names. The database in use is not part of this model.
- `TaskAdmin.ChangeComment`: the admin change form also lets a staff user move a comment to another task or give it another author. The model takes only new content.
- `TaskViews.ChangeStatus`: the notification the source builds after the save uses keyword names the model lacks. The model writes no notification and answers 500 with the new status kept. It does not model the TypeError text.
- `NotificationViews.BulkUpdate`: a request without `notification_ids` passes validation and then fails to read the key. The model answers 500 and changes nothing.
- `NotificationAdmin.AddNotification`: the admin form's read flag is not an input. An added notification is unread, as `objects.create` leaves it.

## Findings

| source | as written | input that shows it | evidently intended | confidence | as-written member | corrected member |
|---|---|---|---|---|---|---|
| apps/tasks/models.py:151-162 | `user.is_admin` is used without a call in `can_be_edited_by`, `can_be_deleted_by`, `TaskComment.clean` and the comment rights (lines 154, 162, 207, 218, 222). A bound method is always truthy, so every user passes these checks. | A viewer (id 2) with no membership, who neither created nor is assigned the task, created by user 1 in project 1. As written, they may edit and delete the task, comment on it, and edit or delete user 1's comment. | `user.is_admin()`: the role test, so that only admins bypass the other conditions | high; not executed | `Tasks.StrangerPassesAsWritten` | `Tasks.StrangersHaveNoRights` |
| apps/notifications/views.py:274-279 | `stats` groups by `values('notification_type')`, but the field of `Notification` is `type` (apps/notifications/models.py:39). Django raises FieldError when it builds the query. | Any signed-in user calling `GET /notifications/stats/`, even one with no notifications: the answer is a 500. | `values('type')` and `values_list('type', 'count')` | high; not executed | `NotificationViews.StatsAsWritten` | `NotificationViews.StatsByTypeColumn` |
