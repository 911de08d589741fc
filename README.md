# CampusCollab: authorization-scoped rooms and the decisions around them

CampusCollab is a project-collaboration app: an Express/Mongoose backend with a
socket.io server, and a React client. This Dafny project models the parts of
it that make decisions:

- **Project access** (`ProjectAccess`). The owner/member/admin predicates compare ids
  after `toIdString`, so a raw id and a populated document compare alike.
- **Task routes** (`TaskRoutes`):
  - who may create, update, delete or list tasks, and the order of those checks;
  - the task that results;
  - the activity records written and the events emitted to the project room.
- **Socket server** (`SocketServer.Server`):
  - the handshake binds an optional identity (a bad token gives an anonymous
    connection, not a refusal);
  - the private `user:<id>` room;
  - `joinProject` is gated on owner-or-member and fails closed;
  - `leaveProject` is unconditional;
  - delivery of room events.
- **Dashboard client** (`Dashboard`):
  - `dedupeTasks`, modelled as the JavaScript `Map` it fills;
  - the lead and ownership predicates and how they relate to the backend's;
  - the task and activity socket reducers;
  - the polling fallback that runs exactly while the socket is down;
  - room switching;
  - the access-revoked and access-denied handlers.
- **Chat panel** (`Chat.ChatPanel`): list append, replace and remove; clearing
  on project switch; a poll whose stale responses are discarded.
- **Tasks page** (`TasksPage`): the list updates.
- **Passwords and forms**:
  - the shared password rules and strength meter (`Passwords`);
  - the register form (`RegisterPage`);
  - the reset form (`ResetPasswordPage`).
- **Account routes** (`AuthRoutes`):
  - login;
  - forgot-password, which issues a one-hour token;
  - reset-password, which consumes it.
- **Small pure functions**: the pie chart's status counts (`PieChart`) and the
  socket URL (`SocketUrl`).

`Js` holds the JavaScript semantics the models need:

- truthiness and `String(...)` on wire values;
- `trim` with the ECMAScript white-space set;
- ASCII case mapping;
- UTF-16 length.

`ListOps` holds the keyed list updates (`map` replace and `filter` remove),
which several clients share.

Some consequences of the code as written, proved here:

- `joinProject` names the room `String(projectId)` while `leaveProject` uses the
  raw value. The two agree for every id the project query can find, since only a
  string id passes it (`SocketServer.FoundRoomIsRawId`). A numeric id is refused
  with `project:access_denied` and never joins a room
  (`SocketServer.NumericIdIsRefused`).
- The reset route trims the new password before checking and storing it, but
  login compares the password as typed. After a reset typed with surrounding
  spaces, the typed password no longer logs in; its trimmed form does
  (`AuthRoutes.ResetThenLogin`).
- The reset page checks the password as typed, so it accepts "Abcdefg1 ", whose
  only symbol is the trailing space. The route trims it and refuses it as weak
  (`AuthRoutes.PageAndRouteDisagreeOnPadding`).
- `createdBy` is not a field of the Task schema in backend/models/Task.js, although
  the task routes write and read it. The task routes are modelled as they are
  written, with a task that keeps `createdBy`. What the schema does to that is
  the second row under "## Findings".
- The forgot-password reply hides whether an address is registered only while
  the reset mail goes out. When sending fails, a known address gets a 500 and an
  unknown one the generic 200 (`AuthRoutes.MailFailureRevealsAccount`).

## Model

| member | source | states |
|---|---|---|
| Js.ToJsString | backend/server.js:55 | `String(v)` of a truthy wire value is non-empty, and of a string is the string itself |
| Js.Trim | backend/routes/authRoutes.js:80 | `trim()` drops white space at both ends only, and is empty exactly when the input is all white space |
| Js.TrimIdempotent | backend/routes/authRoutes.js:115-116 | trimming twice is trimming once |
| ListOps.ReplaceWhere | frontend/src/pages/Dashboard.jsx:462 | `map(t => t._id === id ? v : t)` keeps the length, keeps every other element and puts `v` at every matching position |
| ListOps.ReplaceKeepsKeys | frontend/src/pages/Dashboard.jsx:462 | replacing by a value that carries the same id keeps the key sequence, and so keeps the ids distinct |
| ListOps.RemoveWhere | frontend/src/pages/Dashboard.jsx:465 | `filter(t => t._id !== id)` keeps exactly the elements with another id, and no element with that id survives |
| ListOps.RemoveDistributes | frontend/src/pages/tasks/Tasks.jsx:52-54 | filtering a concatenation is concatenating the filtered halves, so the survivors keep their order |
| ListOps.RemoveKeepsDistinct | frontend/src/pages/Dashboard.jsx:465 | removing by id keeps a list of distinct ids distinct |
| ListOps.AppendIfAbsent | frontend/src/pages/tasks/Tasks.jsx:29 | the value is appended exactly when no element has its id, and distinct ids stay distinct |
| ProjectAccess.ToIdString | backend/utils/projectAccess.js:3-7 | "" for a falsy reference, the `_id` of a populated document, the raw id otherwise |
| ProjectAccess.AnyIdIs | backend/utils/projectAccess.js:13 | `some(m => toIdString(m) === uid)` holds exactly when some entry's id string is `uid` |
| ProjectAccess.IsMember | backend/utils/projectAccess.js:9-14 | false without a project or user id; true for the owner whatever `members` holds; otherwise true exactly when some member has the id |
| ProjectAccess.ProjectUserIsMember | backend/utils/projectAccess.js:16-21 | `isProjectUser` agrees with `isMember` on every input |
| ProjectAccess.IsProjectAdmin | backend/utils/projectAccess.js:23-28 | the owner or an id listed in `admins`, only with a project and a user id |
| ProjectAccess.AdminIgnoresMembers | backend/utils/projectAccess.js:23-28 | admin status does not depend on `members` |
| ProjectAccess.PopulatedMemberSame | backend/utils/projectAccess.js:5-13 | a member stored raw and the same member populated give the same membership |
| ProjectAccess.LoadProjectIfMember | backend/utils/projectAccess.js:30-34 | the fetched project exactly when the user is a member; none when nothing was fetched |
| TaskRoutes.StatusCode | backend/routes/taskRoutes.js:99-137 | 404 only for a missing task, 400 only for a non-member assignee, 403 for every other refusal |
| TaskRoutes.NormalizeAssignee | backend/routes/taskRoutes.js:39-41 | the trimmed id exactly for a non-blank string, otherwise null |
| TaskRoutes.CreateTask | backend/routes/taskRoutes.js:31-73 | 403 for a non-member first, then 400 for a non-member assignee, then 403 for a non-manager assigning someone else; otherwise a "To-Do" task created by the requester with the normalised assignee, and `task:created` then `activity:created` to the project room |
| TaskRoutes.CreateAssignsOnlyAllowed | backend/routes/taskRoutes.js:42-47 | after a successful create the requester is a member, the assignee is a member, and a non-manager can only have assigned themselves |
| TaskRoutes.CollectUpdates | backend/routes/taskRoutes.js:119-127 | `updates` takes status and text only when they are strings, null only for an explicit null, and the trimmed id only for a non-blank string |
| TaskRoutes.ActivityEvents | backend/routes/taskRoutes.js:149-175 | the activity log holds `status_changed` when the status really changes, then `assignee_changed` when a supplied assignee differs, each for this task and requester |
| TaskRoutes.UpdateLogUnique | backend/routes/taskRoutes.js:149-175 | an update writes at most two activity records, and which ones is determined by the update |
| TaskRoutes.ActivityEmits | backend/routes/taskRoutes.js:186-188 | one `activity:created` to the project room per record, in order |
| TaskRoutes.UpdateTask | backend/routes/taskRoutes.js:96-189 | 404, then 403 for a non-member, then the remaining checks in source order; on success only validly typed fields change, the log is as above, and `task:updated` precedes the activity events |
| TaskRoutes.UpdateAsMember | backend/routes/taskRoutes.js:102-189 | for a loaded member the verdict follows the update permission rules; on success the changed fields, the activity log and the emitted events are exactly those of the request |
| TaskRoutes.BlankAssigneeIsNoReassignment | backend/routes/taskRoutes.js:125-134 | a whitespace-only `assignedTo` is no reassignment, so it is judged as if it were absent |
| TaskRoutes.DeleteTask | backend/routes/taskRoutes.js:197-225 | 404, then 403 for a non-member, then 403 for anyone but the creator; success emits `task:deleted` then `activity:created` |
| TaskRoutes.StoredUnderSchema | backend/models/Task.js:3-8 | a task saved under the Task schema keeps every declared field and has no creator |
| TaskRoutes.SchemaDropsCreator | backend/routes/taskRoutes.js:207-212 | a task stored under the schema can be deleted by nobody (403 for every member); the update route's creator check (lines 106-108 and 132) refuses every text or assignee edit of it likewise |
| TaskRoutes.CreatorMayDelete | backend/routes/taskRoutes.js:207-212 | with `createdBy` kept, the requester who created a task may delete it |
| TaskRoutes.DeleteIgnoresRole | backend/routes/taskRoutes.js:203-212 | the global role makes no difference to deletion, so owners and admins who did not create the task are refused |
| TaskRoutes.ListActivity | backend/routes/taskRoutes.js:11-24 | 403 for a non-member; otherwise the prefix of the newest-first list of length 50, or the whole list when it is shorter, so exactly the 50 newest |
| TaskRoutes.ListTasks | backend/routes/taskRoutes.js:81-89 | 403 for a non-member; otherwise the project's tasks |
| SocketServer.Handshake | backend/server.js:27-37 | a missing token or secret, or a failed verification, gives an anonymous connection; a verified token binds its id |
| SocketServer.StoreLookupIsMembership | backend/server.js:47-50 | the owner-or-members query finds the project exactly when the user is a member by `isMember` |
| SocketServer.DeliveredOutsideRoom | backend/server.js:55 | a connection in none of the rooms receives nothing |
| SocketServer.DeliveredInsideRoom | backend/routes/taskRoutes.js:72-73 | a connection in every room receives each event once, in emit order |
| SocketServer.Server.Connect | backend/server.js:39-42 | of the rooms the server names, an authenticated connection starts in `user:<id>` alone and an anonymous one in none; no grant is added |
| SocketServer.Server.JoinProject | backend/server.js:44-59 | no change for a falsy id or an anonymous connection; a found project adds room `String(projectId)` and records it as granted; a miss or a failed lookup leaves the rooms alone and sends one `project:access_denied` to the requester only |
| SocketServer.Server.LeaveProject | backend/server.js:60-62 | removes the raw value from this connection's rooms with no check; other connections and a room not joined are unaffected |
| SocketServer.Server.Publish | backend/server.js:55 | an emit reaches every connection in the room once and no other connection |
| SocketServer.Server.Broadcast | backend/routes/taskRoutes.js:178-188 | each connection's inbox grows by the route's emits to rooms it is in, in order |
| SocketServer.PublishReachesOnlyRoom | backend/server.js:46-58 | under the project query, the owner's join lets a task event published to the project reach that connection and no other |
| SocketServer.DeniedJoinOnlyNotifies | backend/server.js:47-58 | under the project query, a user who neither owns nor belongs to the project stays in its private room only, and the refusal goes to it alone |
| SocketServer.FoundRoomIsRawId | backend/server.js:47-55 | an id the project query finds is a string, so the room `String(projectId)` is the raw value that `leaveProject` removes |
| SocketServer.NumericIdIsRefused | backend/server.js:46-61 | under the project query a numeric id joins no room: a non-zero one gets `project:access_denied` and a zero one is ignored, and leaving it changes nothing |
| Dashboard.DedupedWellKeyed | frontend/src/pages/Dashboard.jsx:46-52 | the result has distinct ids and no task without an id |
| Dashboard.DedupedHasKey | frontend/src/pages/Dashboard.jsx:46-52 | an id survives exactly when it is present in the input and not missing |
| Dashboard.DedupedLastWins | frontend/src/pages/Dashboard.jsx:49 | every kept task is the last input task with its id |
| Dashboard.DedupedFirstOrder | frontend/src/pages/Dashboard.jsx:49-51 | the ids keep the order of their first occurrence |
| Dashboard.DedupedOfWellKeyed | frontend/src/pages/Dashboard.jsx:46-52 | a list with distinct, present ids is left as it is |
| Dashboard.DedupedIdempotent | frontend/src/pages/Dashboard.jsx:46-52 | de-duplicating twice is de-duplicating once |
| Dashboard.CreatedAppendsOrReplaces | frontend/src/pages/Dashboard.jsx:458-460 | `task:created` appends a new id, replaces a known id in place, and drops a task without an id; ids stay distinct |
| Dashboard.DedupeTasks | frontend/src/pages/Dashboard.jsx:46-52 | the `Map`-filling loop computes the reference de-duplication |
| Dashboard.IsOwnerAgreesWithBackend | frontend/src/pages/Dashboard.jsx:54-59 | the client's owner test is the backend's `toIdString(owner) === userId` |
| Dashboard.CanLeadIsProjectAdmin | frontend/src/pages/Dashboard.jsx:61-71 | `canLeadProject` holds exactly when the backend's `isProjectAdmin` does: the owner or an id in `admins`, whatever the members |
| Dashboard.GetProjectAdmins | frontend/src/pages/Dashboard.jsx:73-78 | the admins minus exactly the entries naming the owner, so the owner never appears |
| Dashboard.TaskCreatorIgnoresPopulate | frontend/src/pages/Dashboard.jsx:80-87 | a populated and a raw creator compare alike, and a task without a creator belongs to nobody |
| Dashboard.PrependActivity | frontend/src/pages/Dashboard.jsx:468-470 | the new activity comes first, followed by the previous ones in order, at most 50 in all |
| Dashboard.Session.StartPolling | frontend/src/pages/Dashboard.jsx:483-485 | an interval starts only when none is active, so at most one runs |
| Dashboard.Session.StopPolling | frontend/src/pages/Dashboard.jsx:486-491 | the active interval is cleared, and stopping when idle changes nothing |
| Dashboard.Session.ClearSelection | frontend/src/pages/Dashboard.jsx:89-95 | the selection, tasks and activity are cleared and polling stops; the previous-room ref is reset as well, which the access handlers do right before the call |
| Dashboard.Session.BeginSelect | frontend/src/pages/Dashboard.jsx:245-249 | the selection becomes the new project, the effect keyed on it restarts (polling only while disconnected), and a leave is sent only for a previous, different project |
| Dashboard.Session.SelectProject | frontend/src/pages/Dashboard.jsx:245-253 | leave for a previous, different project, then join the new one; no leave on reselect; tasks de-duplicated; polling restarts only when disconnected |
| Dashboard.Session.OnTaskCreated | frontend/src/pages/Dashboard.jsx:458-460 | tasks become `dedupeTasks([...prev, task])` and keep distinct ids |
| Dashboard.Session.OnTaskUpdated | frontend/src/pages/Dashboard.jsx:461-463 | the task with the payload's id is replaced in place |
| Dashboard.Session.OnTaskDeleted | frontend/src/pages/Dashboard.jsx:464-466 | tasks with the payload's id are removed and the rest kept in order |
| Dashboard.Session.OnActivityCreated | frontend/src/pages/Dashboard.jsx:468-470 | the feed is the capped prepend |
| Dashboard.Session.OnConnect | frontend/src/pages/Dashboard.jsx:497 | connecting stops polling |
| Dashboard.Session.OnDisconnect | frontend/src/pages/Dashboard.jsx:498 | disconnecting starts polling, keeping an already active interval |
| Dashboard.Session.PollTick | frontend/src/pages/Dashboard.jsx:473-482 | an active poll replaces tasks (de-duplicated) and activity; a failed request changes nothing |
| Dashboard.Session.OnAccessRevoked | frontend/src/pages/Dashboard.jsx:525-536 | the project leaves the list; a matching selection emits `leaveProject` and is cleared |
| Dashboard.Session.OnAccessDenied | frontend/src/pages/Dashboard.jsx:538-548 | only a matching selection is cleared, nothing is emitted, and the list is reloaded, not filtered |
| Dashboard.SwitchThenReselect | frontend/src/pages/Dashboard.jsx:247-251 | reselecting emits only a join; switching emits leave of the old room before the join |
| Chat.ChatPanel.SwitchProject | frontend/src/components/Chat.jsx:17-44 | the old run is cancelled and its interval cleared; for a project the messages, menu and edit state are cleared and one new interval runs |
| Chat.ChatPanel.LoadResponse | frontend/src/components/Chat.jsx:30-35 | a response replaces the list wholesale only if its run is the latest and not cancelled |
| Chat.ChatPanel.Send | frontend/src/components/Chat.jsx:56-66 | a blank draft or a failed post changes nothing; a success appends the server's message at the end |
| Chat.ChatPanel.StartEdit | frontend/src/components/Chat.jsx:68-72 | the editor opens on the message and the menu closes |
| Chat.ChatPanel.SaveEdit | frontend/src/components/Chat.jsx:74-86 | blank text or no edit in progress changes nothing; an answer replaces only the message with the returned id, keeping the length |
| Chat.ChatPanel.ConfirmDelete | frontend/src/components/Chat.jsx:88-91 | the dialog opens for that message |
| Chat.ChatPanel.DeleteMsg | frontend/src/components/Chat.jsx:93-100 | with a pending id, a success removes that id's messages, and the dialog resets whether or not the delete succeeded |
| Chat.StaleLoadIsDiscarded | frontend/src/components/Chat.jsx:19-41 | a load for a previous project or after unmount is discarded |
| TasksPage.AddTask | frontend/src/pages/tasks/Tasks.jsx:27-31 | the returned task is appended only if its id is not yet listed |
| TasksPage.AddTaskIdempotent | frontend/src/pages/tasks/Tasks.jsx:29 | adding the same answer twice adds it once |
| TasksPage.SaveTask | frontend/src/pages/tasks/Tasks.jsx:38-45 | blank text changes nothing; otherwise the edited id is replaced in place |
| TasksPage.UpdateStatus | frontend/src/pages/tasks/Tasks.jsx:47-50 | only the task with the id is replaced, and the length is unchanged |
| TasksPage.DeleteTask | frontend/src/pages/tasks/Tasks.jsx:52-55 | exactly the tasks with another id remain |
| TasksPage.DeleteKeepsOrder | frontend/src/pages/tasks/Tasks.jsx:52-55 | deletion keeps the survivors' order |
| TasksPage.DeleteAfterUpdate | frontend/src/pages/tasks/Tasks.jsx:47-55 | deleting after an update of the same id is deleting |
| Passwords.IsStrongPassword | frontend/src/pages/Register.jsx:16-23 | true exactly for length at least 8 with a lower-case letter, a capital, a digit and a symbol |
| Passwords.IsStrongPasswordValue | backend/routes/authRoutes.js:10-18 | false for a non-string; otherwise the five rules |
| Passwords.MetCriteria | frontend/src/pages/ResetPassword.jsx:20-26 | each criterion is listed exactly when the password meets it, at most five in all |
| Passwords.Label | frontend/src/pages/Register.jsx:64-66 | Weak for 0-2 points, Okay for 3-4, Strong for 5 |
| Passwords.CountIsMetCriteria | frontend/src/pages/Register.jsx:58-63 | the points added up are the number of criteria met |
| Passwords.Strength | frontend/src/pages/ResetPassword.jsx:20-39 | the score is the number of criteria met (at most 5), and the label is Strong exactly when the password is strong |
| RegisterPage.ValidEmailHasShape | frontend/src/pages/Register.jsx:15 | every string the pattern accepts has no white space, a single "@" after a non-empty local part and a "." after it with text on both sides |
| RegisterPage.ShapeIsValidEmail | frontend/src/pages/Register.jsx:15 | every string of that shape is accepted by the pattern |
| RegisterPage.ValidEmailShape | frontend/src/pages/Register.jsx:15 | the pattern accepts exactly: no white space, one "@" after a non-empty local part, a "." after the "@" with text on both sides |
| RegisterPage.Register | frontend/src/pages/Register.jsx:33-55 | checks required fields, then the trimmed lower-cased e-mail, then strength, and posts only when all pass, with the password as typed |
| RegisterPage.RegisterPostsNormalized | frontend/src/pages/Register.jsx:35-50 | a posted e-mail has no white space and no capital, and the password meets all five criteria |
| RegisterPage.PendingCode | frontend/src/pages/Register.jsx:25-31 | a non-empty `code` is stored as its character-by-character upper-casing; an absent or empty one is not stored |
| RegisterPage.PendingCodeStable | frontend/src/pages/Register.jsx:29 | storing a stored code again changes nothing |
| ResetPasswordPage.TokenFromQuery | frontend/src/pages/ResetPassword.jsx:15-18 | the `token` parameter, "" when absent |
| ResetPasswordPage.Submit | frontend/src/pages/ResetPassword.jsx:41-57 | a missing token, then a weak password, then a mismatched confirmation is refused; otherwise token and password are posted as typed |
| AuthRoutes.BodyString | backend/routes/authRoutes.js:115-116 | `String` of the field or of "" is "" for a falsy field and the string itself for a string |
| AuthRoutes.QueryEmail | backend/models/User.js:5 | the filter value a string e-mail is cast to: no longer than the input, with no capital, and empty exactly when the input is blank |
| AuthRoutes.QueryNormalizesAddress | backend/routes/authRoutes.js:52 | " Bob@X.COM" is looked up as "bob@x.com" |
| AuthRoutes.FindByEmail | backend/routes/authRoutes.js:52 | the first record with that e-mail, or none when no record has it |
| AuthRoutes.FindByToken | backend/routes/authRoutes.js:127-130 | the first record whose token digest matches and whose expiry is still ahead, or none |
| AuthRoutes.Issued | backend/routes/authRoutes.js:90-91 | a record with the token digest and an expiry one hour after issue, all else unchanged |
| AuthRoutes.Cleared | backend/routes/authRoutes.js:144-146 | a record with the new password hash and both reset fields unset |
| AuthRoutes.IssuedTokenLifetime | backend/routes/authRoutes.js:91-129 | an issued token opens the record only with its own digest and only before one hour has passed |
| AuthRoutes.ClearedTokenNeverValid | backend/routes/authRoutes.js:145-146 | a consumed token never opens the record again |
| AuthRoutes.Login | backend/routes/authRoutes.js:48-61 | the e-mail is looked up after the schema's trim and lower-casing; an unknown e-mail and a wrong password get the same 400 reply; success exactly when the password matches the stored hash |
| AuthRoutes.FindByEmailKeepsIndex | backend/routes/authRoutes.js:52 | updating a record without changing its e-mail leaves every lookup where it was |
| AuthRoutes.ResetThenLogin | backend/routes/authRoutes.js:116-144 | after a reset, login succeeds exactly with the trimmed password, so a password typed with surrounding spaces no longer works |
| AuthRoutes.AccountStore.ForgotPassword | backend/routes/authRoutes.js:78-110 | 400 for an e-mail empty after trimming; an unknown e-mail gets the generic 200; a known one gets a fresh token saved before the mail, whatever the mail outcome, and then the generic 200 when the mail goes out and a 500 when it does not |
| AuthRoutes.MailFailureRevealsAccount | backend/routes/authRoutes.js:84-109 | a known and an unknown address get the same reply exactly when the mail goes out; otherwise the known one gets 500 and the unknown one 200 |
| AuthRoutes.AccountStore.ResetPassword | backend/routes/authRoutes.js:113-153 | missing fields, then a weak password, then an invalid or expired token are refused with no change; success replaces the hash and clears both reset fields |
| AuthRoutes.PageAndRouteDisagreeOnPadding | backend/routes/authRoutes.js:116-125 | the page accepts "Abcdefg1 " and the route, which trims it, refuses it as weak |
| PieChart.CountOf | frontend/src/components/TaskPieChart.jsx:16-18 | a count never exceeds the number of tasks |
| PieChart.BuildData | frontend/src/components/TaskPieChart.jsx:9-25 | three entries, Completed, In-Progress, To-Do, each counting exactly the tasks with that status; the denominator is the task count, and 1 for no tasks |
| PieChart.CountsCoverKnown | frontend/src/components/TaskPieChart.jsx:16-18 | the counts add up to at most the number of tasks, and to exactly that when every status is one of the three |
| PieChart.KeysAsWritten | frontend/src/components/TaskPieChart.jsx:16-21 | the keys as written always start with the three statuses |
| PieChart.ExtraKeysAreInheritedStatuses | frontend/src/components/TaskPieChart.jsx:16-21 | the keys after the three are exactly the inherited names used as statuses, each once |
| PieChart.NoInheritedStatusThreeKeys | frontend/src/components/TaskPieChart.jsx:16-21 | with no inherited name among the statuses the keys are just the three |
| PieChart.KeysGrowInOrder | frontend/src/components/TaskPieChart.jsx:16-18 | the keys after some tasks are a prefix of the keys after more, so extra keys come in the order first met |
| PieChart.InheritedStatusAddsSlice | frontend/src/components/TaskPieChart.jsx:17-21 | a task with status "toString" adds a fourth key |
| SocketUrl.StripApiSuffix | frontend/src/services/socket.js:4 | one trailing "/api" is removed, and a URL without one is unchanged |
| SocketUrl.SocketUrl | frontend/src/services/socket.js:3-4 | a non-empty socket variable is used verbatim; otherwise the API URL, or its default, with a trailing "/api" removed |
| SocketUrl.DefaultSocketUrl | frontend/src/services/socket.js:3-4 | with neither variable set the URL is "http://localhost:5000" |
| SocketUrl.InnerApiKept | frontend/src/services/socket.js:4 | an "/api" followed by more path is untouched |
| SocketUrl.StripOnce | frontend/src/services/socket.js:4 | only the last of two trailing "/api" is removed |

## Left out

- Mongoose queries, Express routing and `populate`:
  - each lookup is a parameter (`fetched`, a record sequence, or a lookup function);
  - an absent id is "" and a populated reference is `Doc`;
  - of the schema's setters on query values, only the `trim` and `lowercase` of `User.email` are modelled, as AuthRoutes.QueryEmail;
  - a non-string `email` in the login body is not modelled;
  - AuthRoutes.Login takes `password` as a string: a missing or non-string `password` makes `bcrypt.compare` throw (backend/routes/authRoutes.js:57), so the route answers 500 "Login failed" (line 73), and that case is not modelled.
- TaskRoutes.CreateTask, TaskRoutes.ListTasks, TaskRoutes.UpdateTask: do not model `populate("createdBy")` (backend/routes/taskRoutes.js:59, 88 and 147) on a path the Task schema does not declare. Under Mongoose's `strictPopulate` (version 6 and later) it throws, and these routes would answer 500 after their checks pass. The package versions are not part of this model.
- bcrypt, `jwt.verify`, `crypto.randomBytes` and SHA-256 are uninterpreted function parameters. ResetThenLogin assumes only that `compare(x, bcrypt(y))` holds exactly when `x == y`. That does not hold for real bcrypt beyond 72 bytes, where passwords differing only after byte 72 compare equal.
- The signed login token and the registration, invitation, project and message routes have no decision logic beyond their query filters, and are not modelled.
- Mail delivery (backend/utils/mailer.js) is reduced to its outcome, `MailOutcome`. The AI route is an external API call and is not modelled.
- The server-side emitters of `project:member_*` and `project:access_revoked` are not part of this model: no such server code exists to model. Only the client handlers are modelled.
- Timing and concurrency (socket.io transport, `await` interleaving, interval timing, status-notice timeouts) are out of scope:
  - each handler is one atomic step;
  - an interval is a handle in a set and a poll is an explicit tick;
  - a Chat load carries the run that issued it, in place of the `cancelled` closure flag.
- TaskRoutes.ActivityEmits: the re-read `TaskActivity.find({ _id: { $in: … } })` (backend/routes/taskRoutes.js:181-185) has no sort. The model takes it to return the inserted records in insertion order.
- SocketServer.Server.Connect: socket.io also puts every socket in a default room named by its own socket id. Nothing in the server or the routes emits to it, so that room is left out, and `rooms` holds only the rooms the server names.
- Percentages and `formatPercent` in the pie chart use floating point; only the counts and the denominator are modelled.
- PieChart.KeysAsWritten models only the keys of the as-written `counts` object, not the string values an inherited entry takes.
- Unicode case mapping: `toLowerCase`/`toUpperCase` are modelled on ASCII letters only. Other letters are left unchanged.
- JSX rendering, the kebab menu, ConfirmModal, ForgotPassword.jsx and Login.jsx are UI glue.
- Running the reset route's strength check a second time (backend/routes/authRoutes.js:137-141) can never fail after the first. It is modelled once.
- Dashboard `loadProjects`, member lists and project details are requests whose results are parameters (`reloaded`) or are not kept.
- Dashboard project management (`deleteProject`, leaving or removing members, admin updates) is request glue and is not modelled. Of the callers of `clearSelectedProject`, only the access handlers are, and these also reset `previousProjectId`; `deleteProject` (frontend/src/pages/Dashboard.jsx:237-243) clears the selection without that reset.
- The dashboard's pending invitation code (Dashboard.jsx:101-108) is the same step as the register page's and is modelled once, as RegisterPage.PendingCode.

## Findings

| source | as written | input that shows it | evidently intended | confidence | as-written member | corrected member |
|---|---|---|---|---|---|---|
| frontend/src/components/TaskPieChart.jsx:17 | `counts[t.status] !== undefined` also holds for names `counts` inherits from `Object.prototype`, and `+= 1` makes them own keys that `Object.keys` lists | a task whose status is "toString"; the update route stores any string status (backend/routes/taskRoutes.js:120) | count only the three statuses and always return three entries | not executed; medium | PieChart.InheritedStatusAddsSlice | PieChart.BuildData |
| backend/models/Task.js:3-8 | the schema declares no `createdBy`, so Mongoose's default strict mode drops the `createdBy` the create route sets (backend/routes/taskRoutes.js:49-56); `isCreator` is then false for everyone | any task created through the route, then a DELETE or a text edit by its creator | declare `createdBy` in the schema so that the creator may edit and delete the task | not executed; medium | TaskRoutes.SchemaDropsCreator | TaskRoutes.CreatorMayDelete |
