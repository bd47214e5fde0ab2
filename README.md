# Classroom management: a verified model of the server core and the chat client

This project models, in Dafny, the core of a school classroom-management web
application. The application has an Express/Mongoose server and a Next.js client.
The modelled parts are:

- **Accounts and access.** The nine user roles and their rank hierarchy
  (`models/User.js`), the role predicates of `utils/permissions.js`, the JWT
  authentication and authorisation middleware (`middleware/auth.js`), and
  registration, login and user administration (`controllers/authController.js`).
- **Chat.** The direct- and group-chat documents with their methods
  (`models/Chat.js`), the REST chat controller (`controllers/chatController.js`)
  and the Socket.io event handlers (`socket/index.js`). Each works on one store
  of chats and a directory of users.
- **Classes.** The class document with its officer virtuals (`models/Class.js`)
  and the class controller's update, roster, structure and privacy operations
  (`controllers/classController.js`).
- **Finance, gallery and schedule.** These three per-class documents and the
  controllers that use them: transactions with approval, income and expense
  totals and categories; albums and photos with likes and comments; the
  regular timetable, special events and tasks.
- **The chat client.** The contact list, the chat window, the dashboard
  sidebar and the chat page's state (`components/chat/*.js`,
  `components/dashboard/Sidebar.js`, `pages/chat/index.js`).

Server documents that handlers change in place are Dafny classes. Their fields
are sequences or maps, and their methods have `modifies` clauses. Each
handler's answer is a `Status` (`Done`, or `Failed` with one of the error
classes `BadRequest`, `Unauthorized`, `Forbidden`, `NotFound` and `ServerError`)
or a `Result` carrying the value it sends back. A failed Mongoose
validation (`required`, `trim`, `maxlength`, `enum`, `min`) is a `ServerError`
that leaves the stored state unchanged, because the handler's `catch` answers
500 before anything is written. Pure helpers are functions with lemmas about
them. These include the permission predicates, the aggregation of totals, the
grouping of messages by date and the routing of outgoing socket events. Loops
of the source that update variables are methods with loop invariants, and each
is proved against a specification function.

Password hashing (`bcrypt`), token signing and verification (`jsonwebtoken`),
clocks, identifier generation and the date formatting of the browser are
parameters of the operations that use them. Identifiers are natural numbers,
times are integers in milliseconds, and strings are sequences of characters.

The shared vocabulary is in `common.dfy`, `seqs.dfy` and `strings.dfy`.
`strings.dfy` holds whitespace trimming, lower-casing and substring search.

## Model

| member | source | states |
|---|---|---|
| Common.ParseVisibility | models/Class.js:70-86 | the `enum` check of a visibility field: a result names the string it parsed, and any of the three names parses |
| Common.VisibilityRoundTrip | models/Class.js:70-86 | every visibility's stored name parses back to it |
| Roles.ParseRole | models/User.js:41-45 | a string is accepted by the `role` enum exactly when it is the stored name of a role, and it parses to that role |
| Roles.RoleNameRoundTrip | models/User.js:5-15 | every role's stored name parses back to the role |
| Roles.Rank | models/User.js:91-102 | the hierarchy values lie between 10 and 100; only `super_admin` has 100 and only `student` has 10 |
| Roles.RankInjective | models/User.js:92-102 | distinct roles have distinct ranks, so the hierarchy is a total order |
| Roles.HasPermissionNamed | models/User.js:91-105 | `hasPermission(name)` holds exactly when the name is a role whose rank the user's rank reaches |
| Roles.PermissionPreorder | models/User.js:104 | every role meets its own requirement, and meeting requirements is transitive |
| Roles.PermissionAntisymmetric | models/User.js:104 | two roles that each meet the other's requirement are equal |
| Roles.PermissionExtremes | models/User.js:93-104 | a super administrator meets every requirement; a student meets only the student requirement; every role meets it |
| Users.ActorOf | middleware/auth.js:21-40 | the signed-in user a handler sees carries the stored user's id, role and class |
| Users.NormalizeEmail | models/User.js:24-34 | the stored address is the trimmed one with each ASCII capital lowered: as long as the trimmed address, character by character its lower case, with no ASCII capital and no white space at either end, and empty exactly when the address is all white space |
| Users.NormalizeEmailIdempotent | models/User.js:32-33 | normalising an address that is already normal changes nothing |
| Permissions.VicePresidentNeedsApproval | utils/permissions.js:79-83 | the approval hook answers "no approval needed" for every action |
| Permissions.AccessGroups | utils/permissions.js:4-21 | administrator access implies teacher access, and no teacher-access role is a class officer |
| Permissions.AccessByRank | utils/permissions.js:4-11 | teacher access is exactly a rank at or above `class_teacher`, and administrator access a rank at or above `admin` |
| Permissions.ManagementImpliesView | utils/permissions.js:29-58 | whoever may manage a class's structure may manage its finances, and whoever may manage them may view them at every visibility |
| Permissions.NonMembersCannotManage | utils/permissions.js:24-76 | a non-administrator outside the class manages neither its finances nor its structure, and adds group members only as a group admin |
| Permissions.FinanceVisibilityCases | utils/permissions.js:46-58 | with `school` or `public` visibility anyone views finances; with `class_only` a non-administrator views them exactly when they belong to the class |
| Auth.SecondWord | middleware/auth.js:9 | `split(' ')[1]` exists exactly when the header holds a space, contains no space, and is the text after the first space up to the next one |
| Auth.BearerHeaderYieldsToken | middleware/auth.js:9 | a `Bearer <token>` header yields the token |
| Auth.TokenFrom | middleware/auth.js:8-11 | the token is the first non-empty one of header, cookie and query, in that order, and none exists exactly when all three are missing or empty |
| Auth.Gate | middleware/auth.js:13-33 | the request is admitted exactly when the token is present, verifies and names a stored user who is approved and not blocked; each refusal is answered exactly when the checks before it pass and its own fails, in the source's order: no token, a token that does not verify, an unknown user, an unapproved account, a blocked account |
| Auth.AuthenticateError | middleware/auth.js:13-45 | a missing, invalid or unknown-user token is answered 401; a pending or blocked account is answered 403 |
| Auth.ApprovalCheckedBeforeBlock | middleware/auth.js:27-33 | an account that is both unapproved and blocked is reported as pending approval |
| Auth.SomeRolePermits | middleware/auth.js:56 | `roles.some(hasPermission)` holds exactly when some listed name is a role the user's rank reaches |
| Auth.Authorize | middleware/auth.js:50-64 | 401 without a user; otherwise the request passes exactly when some listed role permits the user, and is refused 403 otherwise |
| Auth.AuthorizeNothingRefuses | middleware/auth.js:56-60 | an empty role list refuses every signed-in user with 403 |
| Auth.AuthorizeMonotone | middleware/auth.js:56 | whatever a user passes, every user of equal or higher rank passes too |
| Auth.RoleGuard | middleware/auth.js:67-126 | the single-role guards pass exactly when a user is present and their role is allowed; they answer 401 exactly without a user, and 403 otherwise |
| Auth.RequireSuperAdmin | middleware/auth.js:67-77 | passes exactly for `super_admin` |
| Auth.RequireAdmin | middleware/auth.js:80-90 | passes exactly for `super_admin` and `admin` |
| Auth.RequireTeacher | middleware/auth.js:93-108 | passes exactly for roles ranked at or above `class_teacher` |
| Auth.RequireClassOfficer | middleware/auth.js:111-126 | passes exactly for the four class officer roles |
| Auth.GuardLadder | middleware/auth.js:67-126 | super admin passes the admin guard, admin passes the teacher guard, and a teacher-access user is refused by the class officer guard |
| Auth.ClassGuard | middleware/auth.js:129-153 | 401 without a user, 400 without a class id in params or body; passes exactly for administrators and for users whose class is the requested one, the route parameter taking precedence |
| Auth.ClassGuardAgreesWithBelongsToClass | middleware/auth.js:147 | for a non-administrator the middleware guard and the `belongsToClass` utility agree |
| Accounts.EmailIndex | controllers/authController.js:19 | the first stored user with the given email, and none exactly when no user has it |
| Accounts.NewAccount | controllers/authController.js:28-34 | a registered account is an unapproved, unblocked student without a class, with the normalised email and the given password |
| Accounts.LoginOutcome | controllers/authController.js:53-91 | 401 exactly for an unknown email or a wrong password; 403 for a pending or blocked account; success only for an approved, unblocked account whose password matches |
| Accounts.LoginAgreesWithGate | controllers/authController.js:53-91 | once the password matches, sign-in succeeds exactly when the authentication middleware admits the same account's token |
| Accounts.Approved | controllers/authController.js:263-269 | approval sets `isApproved`, changes the role only for a given valid role name, and changes nothing else |
| Accounts.ApproveIdempotent | controllers/authController.js:263-271 | approving twice with the same arguments is approving once |
| Accounts.Directory.constructor | models/User.js:17-70 | an empty collection has unique emails |
| Accounts.Directory.FindByEmail | controllers/authController.js:19 | the lookup normalises the query and finds the first account with that email |
| Accounts.Directory.Register | controllers/authController.js:14-50 | 400 for a taken email; success exactly for a free email and valid fields, appending the new account; a failure changes nothing; emails stay unique |
| Accounts.Directory.Login | controllers/authController.js:53-126 | the outcome is `LoginOutcome`; a success stamps only that account's `lastActive`, and a failure changes nothing |
| Accounts.Directory.Authenticate | middleware/auth.js:5-47 | admits exactly when `Gate` does; a refusal answers `AuthenticateError` and changes nothing; an admission stamps `lastActive` and returns that user |
| Accounts.Directory.ChangePassword | controllers/authController.js:206-247 | 404 for an unknown user, 401 for a wrong current password; success exactly when the current password matches and the new one has at least 6 characters, replacing only the password |
| Accounts.Directory.ApproveUser | controllers/authController.js:249-286 | 404 exactly for an unknown user; otherwise the record becomes `Approved` and nothing else changes |
| Accounts.Directory.ToggleBlockUser | controllers/authController.js:289-320 | 404 exactly for an unknown user; otherwise only `isBlocked` is set to the given flag |
| Accounts.Directory.ChangeUserRole | controllers/authController.js:323-362 | 400 for a string that names no role, before the lookup; 404 for an unknown user; succeeds exactly for a named role and a known user, and then only the role changes |
| ChatModel.FirstRecord | controllers/chatController.js:582-584 | `findIndex` by user: the first record for the user, and none exactly when the user is not a participant |
| ChatModel.AdminIsParticipant | models/Chat.js:116-128 | a group admin is a group participant |
| ChatModel.LaterAdminRecordIgnored | models/Chat.js:123-128 | `isAdmin` looks only at the first record: a member record followed by an admin record for the same user is not an admin |
| ChatModel.NewMessage | controllers/chatController.js:110-115 | a new message carries its sender and time, the content trimmed by the schema, each attachment trimmed, and the sender's own read receipt as its only receipt |
| ChatModel.MarkRead | controllers/chatController.js:170-183 | after marking, the message is read by the user; a receipt is appended exactly when the message was unread, and nothing else changes |
| ChatModel.MarkAllRead | controllers/chatController.js:170-183 | marking a conversation marks each message and keeps the number and order of messages |
| ChatModel.MarkAllReadProperties | controllers/chatController.js:170-183 | after marking nothing is unread by the user; the user's own messages are untouched; marking again changes nothing |
| ChatModel.CountUnread | socket/index.js:235-301 | the unread count is at most the number of messages, and zero exactly when no message is unread by the user |
| ChatModel.MarkAllReadClearsUnread | controllers/chatController.js:170-183 | marking everything read leaves nothing unread |
| ChatModel.MarkAllReadChangesIffUnread | controllers/chatController.js:168-187 | marking changes the conversation exactly when something was unread, which is when the handler saves |
| ChatModel.Roster | controllers/chatController.js:229-258 | the creator comes first as admin; every other record is a member from the list who is not the creator; every listed non-creator is a participant |
| ChatModel.RosterSize | controllers/chatController.js:239-258 | the roster has one record per listed id other than the creator, repeats included |
| ChatModel.RosterKeepsRepeats | controllers/chatController.js:239-258 | a repeated id yields two member records |
| ChatModel.FirstUnknown | controllers/chatController.js:239-251 | the first listed non-creator id that is not a known user, and none exactly when every listed non-creator is known |
| ChatModel.AddAll | controllers/chatController.js:461-482 | adding keeps the old records as a prefix, makes every listed id a participant, appends only member records for known users added by the caller, and keeps users distinct |
| ChatModel.AddAllTwice | controllers/chatController.js:461-482 | adding the same ids again changes nothing |
| ChatModel.AddAllPresent | controllers/chatController.js:463-464 | ids that are all participants already add nothing |
| ChatModel.AddAllSucceeds | controllers/chatController.js:461-482 | adding succeeds exactly when every listed id that is not already a participant names a known user |
| ChatModel.AddAllNewIds | controllers/chatController.js:461-482 | every appended record is for a listed id that was not a participant before |
| ChatModel.AddAllOrder | controllers/chatController.js:461-482 | the appended records follow the order of their ids' first occurrences in the list, so each new id is added once |
| ChatModel.WithoutUser | controllers/chatController.js:538-540 | the records left are exactly the others' records; the user is no longer a participant; distinct users stay distinct |
| ChatModel.FilterKeepsDistinct | controllers/chatController.js:538-540 | filtering a roster with distinct users keeps them distinct |
| ChatModel.Promote | controllers/chatController.js:594 | the record at the index becomes admin, so the group has an admin; every other record and every other field is unchanged |
| ChatModel.PromoteFirstRecord | controllers/chatController.js:582-594 | promoting through the first record makes the user an admin by `isAdmin`, and promoting again changes nothing |
| ChatModel.FirstRecordUnderSameUsers | controllers/chatController.js:582-584 | the first record depends only on the users, not on the roles |
| ChatStore.WithMessages | controllers/chatController.js:118-121 | replacing the messages keeps the chat's kind, members and other fields |
| ChatStore.NewGroup | controllers/chatController.js:260-270 | a new group has no messages, is created by the caller for the given class, and has the roster with the caller as admin |
| ChatStore.BuildRoster | controllers/chatController.js:229-258 | the loop fails exactly when some listed non-creator id is unknown, and otherwise builds `Roster` |
| ChatStore.WithParticipants | controllers/chatController.js:484-542 | replacing the participants keeps the messages, name and class |
| ChatStore.Appended | controllers/chatController.js:118-121 | appending a message adds it at the end, stamps `lastMessage`, keeps who is a participant, and undoing it restores the chat |
| ChatStore.AfterLeave | controllers/chatController.js:635-661 | after the user leaves the group has an admin and no record of the user; a group that kept an admin is just filtered; otherwise the filtered roster is sorted by `addedAt` with `SortBy` and its head made admin |
| ChatStore.AfterLeavePromotesEarliest | controllers/chatController.js:650-660 | when nobody was admin, the promoted record is one of the earliest added, and apart from its role the roster is a permutation of the filtered one |
| ChatStore.AfterLeavePromotesFirstOfTies | controllers/chatController.js:650-660 | the sort is stable, so the promoted record is the first remaining record added at the earliest time: every record listed before it was added later |
| ChatStore.UpdatedGroup | controllers/chatController.js:703-706 | a truthy name is set (trimmed), a given description is set even when empty, a truthy image is set; participants, messages and class are kept |
| ChatStore.GroupReplaced | controllers/chatController.js:484-542 | replacing a group by a group whose messages are well formed keeps every stored chat well formed |
| ChatStore.GroupAdded | controllers/chatController.js:260-270 | storing a new well-formed group under a new id keeps the store well formed |
| ChatStore.ChatStore.constructor | models/Chat.js:130-139 | an empty store is well formed |
| ChatStore.ChatStore.GetOrCreateDirectChat | controllers/chatController.js:6-58 | 400 for a chat with oneself, 404 for an unknown recipient; otherwise the returned chat is the only one between the pair, and a new chat is created only when none existed |
| ChatStore.ChatStore.SendMessage | controllers/chatController.js:87-142 | 404 unless a chat of that kind exists, 403 for a non-participant, 500 for content the schema refuses; success appends `NewMessage` and stamps `lastMessage`; a failure changes nothing |
| ChatStore.MarkEveryMessage | controllers/chatController.js:168-183 | the loop gives every message `MarkRead` of itself, and reports a change exactly when some message was unread by the reader |
| ChatStore.ChatStore.MarkDirectMessagesAsRead | controllers/chatController.js:145-201 | 404 for a missing direct chat, 403 for a non-participant; the chat is saved exactly when something was unread, and then its messages become `MarkAllRead` |
| ChatStore.ChatStore.CreateGroupChat | controllers/chatController.js:204-291 | 400 for an empty list, 404 for a missing class or an unknown participant; otherwise `NewGroup` is stored under a new id; a failure changes nothing |
| ChatStore.ChatStore.AddGroupParticipants | controllers/chatController.js:420-504 | 400 for an empty list, 404 for a missing group, 403 for a caller who is neither a group admin nor a president or vice-president, 404 when adding fails on an unknown user; success (exactly when `AddAll` succeeds, see `AddAllSucceeds`) stores `AddAll`; a failure changes nothing |
| ChatStore.ChatStore.RemoveGroupParticipant | controllers/chatController.js:507-555 | succeeds exactly for a group admin removing a participant, and then stores `WithoutUser` |
| ChatStore.ChatStore.MakeGroupAdmin | controllers/chatController.js:559-609 | succeeds exactly for a group admin naming a participant, and then promotes that participant's first record |
| ChatStore.ChatStore.LeaveGroupChat | controllers/chatController.js:613-676 | succeeds exactly for a participant; the group is deleted exactly when no one is left; otherwise it stores `AfterLeave`, which has an admin |
| ChatStore.ChatStore.UpdateGroupChat | controllers/chatController.js:680-722 | succeeds exactly for a group admin, whose update stores `UpdatedGroup` |
| ChatStore.MarkAllReadKeepsMessagesOk | controllers/chatController.js:170-183 | marking keeps every message's readers distinct and the sender among them |
| ChatStore.FirstUnknownOfPrefix | controllers/chatController.js:239-251 | an unknown id in the list makes the whole list fail |
| ChatStore.AddAllNoneExtends | controllers/chatController.js:461-474 | once adding fails on a prefix of the list it fails on the whole list |
| ChatStore.AddAllStepNone | controllers/chatController.js:464-474 | a new id that is not a known user makes adding fail |
| ChatStore.RemovalCanLeaveNoAdmin | controllers/chatController.js:537-542 | unlike leaving, removal promotes nobody: an admin removing themselves as the only admin leaves a group without an admin |
| ChatStore.AddRuleDiffersFromHelper | controllers/chatController.js:442-453 | the handler's add rule and `canAddGroupMembers` disagree both ways: a president of another class may add, and a site administrator who is not a group admin may not |
| Socket.Recipients | socket/index.js:158 | `io.to(room)` reaches the room's connections; `socket.to(room)` reaches them except the sender; `socket.emit` reaches the sender only; `io.emit` reaches every live connection |
| Socket.RelayExcludesSender | socket/index.js:220-232 | a typing notice never returns to its sender, and it reaches every other connection in the chat's room |
| Socket.InitialRooms | socket/index.js:62-68 | an admitted connection joins its user room, and a class room exactly when the user has that class |
| Socket.ChatRoomOf | socket/index.js:223 | the room is `group:<id>` exactly for a group chat, and `chat:<id>` otherwise |
| Socket.TypingEmission | socket/index.js:220-232 | a typing notice goes to the chat's room except the sender, and names the chat, the user and the flag |
| Socket.FanOut | socket/index.js:157-162 | one `direct-message` emission per participant, to that participant's user room, in participant order |
| Socket.DirectEmissions | socket/index.js:157-162 | the `forEach` loop collects exactly `FanOut` |
| Socket.MessageIndex | socket/index.js:258 | `messages.id(id)`: the first message with the id, and none exactly when no message has it |
| Socket.MarkOne | socket/index.js:258-267 | after the single-message path the reader has a receipt; an already-read message is unchanged; otherwise exactly one receipt is appended |
| Socket.MarkOneAgreesWithMarkRead | socket/index.js:260 | on a stored message, whose sender already has a receipt, the single-message path and the HTTP mark-read step agree |
| Socket.Server.constructor | socket/index.js:6-15 | a new server has no connections, no rooms and no emissions |
| Socket.Server.Connect | socket/index.js:18-68 | the connection is admitted exactly when the authentication chain admits its token; a refusal changes nothing; an admission records the user and joins the initial rooms |
| Socket.Server.JoinChat | socket/index.js:71-116 | the connection joins the chat's room exactly when a chat of that kind exists and the user takes part in it; otherwise an error goes back to the sender and no room changes |
| Socket.Server.SendDirect | socket/index.js:118-167 | success exactly when the direct chat exists, the sender takes part and the content is valid; the message is appended as by the HTTP handler and fanned out to each participant's room; a failure changes no chat and answers an error |
| Socket.Server.SendGroup | socket/index.js:170-217 | as for direct messages, with one emission to the group's room |
| Socket.Server.SetStatus | socket/index.js:303-309 | the status is broadcast to everyone and nothing else changes |
| Socket.Server.Disconnect | socket/index.js:312-320 | the connection leaves every room and `offline` is broadcast |
| Socket.Server.Typing | socket/index.js:220-232 | one relayed notice and no chat read or changed |
| Socket.Server.MarkRead | socket/index.js:235-300 | an error for a missing chat or a non-participant; otherwise the chat is saved exactly when the receipts change it, and only then is a `message-read` notice sent to the room except the reader |
| Socket.NewReceipts | socket/index.js:256-281 | either path keeps the number of messages |
| Socket.NewReceiptsAtMostOnce | socket/index.js:256-281 | each message gains at most one receipt, by the reader; marking all leaves nothing unread; the named message ends with the reader's receipt |
| Socket.NewReceiptsKeepMessagesOk | socket/index.js:256-281 | the receipts keep every message's readers distinct |
| Socket.GroupOrDirectReplaced | socket/index.js:283-284 | saving a chat whose messages are well formed keeps the store well formed |
| ClassModel.HolderOf | models/Class.js:89-121 | `structure.find` on the lower-cased title: a found holder comes from a position whose title is one of the names, and none is found when no title matches |
| ClassModel.HolderOfFirst | models/Class.js:91-95 | the first matching position decides, even when it has no holder |
| ClassModel.VirtualsMatchWholeTitles | models/Class.js:89-121 | the titles match without regard to case but otherwise exactly: "Class President" gives the president, "Class Treasurer" gives no treasurer, and a title with a trailing space would not match "secretary" (stored titles are trimmed, see `StoredPosition`, so this needs an untrimmed title) |
| ClassModel.PositionRole | controllers/classController.js:332-343 | the role given to a position's holder is an officer role or student; it is class president exactly when the title contains "president" but not "vice" |
| ClassModel.PresidentTitlesGiveRole | controllers/classController.js:335-336 | the two president titles of the virtual give the class president role |
| ClassModel.VicePresidentTitlesGiveRole | controllers/classController.js:337-338 | the two vice-president titles give the vice president role, although they also contain "president" |
| ClassModel.OfficerTitlesGiveRole | controllers/classController.js:339-342 | "treasurer" and "secretary" give the treasurer and secretary roles |
| ClassModel.RoleWithoutVirtual | controllers/classController.js:339-340 | the role mapping accepts titles the virtuals do not: a "Class Treasurer" holder becomes a treasurer, but the `treasurer` virtual finds nobody |
| ClassModel.StoredPosition | models/Class.js:3-17 | a stored position has its title and description trimmed and keeps its holder |
| ClassModel.ClassDoc.constructor | models/Class.js:19-87 | a new class has the given details, no students, no structure, no class teacher, and every visibility `class_only` |
| ClassController.WithRole | controllers/classController.js:156-164 | `findByIdAndUpdate(id, { role })` changes only that user's role, and changes nothing for an unknown id |
| ClassController.SameEmailsKeepUnique | models/User.js:24-34 | updates that keep every email keep the emails unique |
| ClassController.SetRoles | controllers/classController.js:317-348 | a run of role updates keeps the number of accounts |
| ClassController.LastRole | controllers/classController.js:317-348 | the role the last update for a user sets, and none exactly when no update names the user |
| ClassController.SetRolesEffect | controllers/classController.js:317-348 | after a run of updates each user has the role of their last update, and every other field is unchanged |
| ClassController.LastRoleAppend | controllers/classController.js:317-348 | a user's last update in two runs is their last in the second run, or else their last in the first |
| ClassController.SetRolesKeepsUnique | controllers/classController.js:317-348 | role updates keep the emails unique |
| ClassController.AddNew | controllers/classController.js:209-215 | the old students are kept as a prefix |
| ClassController.AddNewProperties | controllers/classController.js:209-215 | the new list holds exactly the old students and the given ids, and a list without duplicates stays without duplicates |
| ClassController.JoinClass | controllers/classController.js:216-219 | updating the class of the added students keeps the number of accounts |
| ClassController.JoinClassEffect | controllers/classController.js:216-219 | exactly the added students now belong to the class, and nothing else about any account changes |
| ClassController.AddStudents | controllers/classController.js:188-237 | 400 for an empty list, 404 without the class; otherwise the students become `AddNew`, and the accounts of exactly the newly added students get the class |
| ClassController.AddEach | controllers/classController.js:209-220 | the loop computes `AddNew` and sets the class of exactly the students it appended |
| ClassController.Detached | controllers/classController.js:272-277 | the removed student's account loses its class and becomes a student; no other account changes |
| ClassController.RemoveStudent | controllers/classController.js:240-292 | 404 without the class, 400 for someone not enrolled; otherwise the student leaves the list, every position they held is removed, and their account is `Detached` |
| ClassController.ResetUpdates | controllers/classController.js:316-323 | the first loop sets only the student role, and it touches exactly the holders of the current positions |
| ClassController.FirstUntitled | controllers/classController.js:329-332 | the first entry that has a holder but no title, where `position.toLowerCase()` throws; none exactly when every entry with a holder has a title |
| ClassController.StoredStructure | controllers/classController.js:326 | the stored structure is the request with each entry stored as `StoredPosition` |
| ClassController.ApplyStructureRoles | controllers/classController.js:316-348 | the two loops stop exactly at an untitled entry with a holder; otherwise the accounts receive the resets and then the assignments, in order |
| ClassController.ResetHolders | controllers/classController.js:317-323 | the first loop makes every current holder a student, in structure order (`SetRoles` of `ResetUpdates`) |
| ClassController.AssignHolders | controllers/classController.js:329-348 | the second loop stops exactly at the first entry with a holder and no title; before it, each holder gets the role of their title, in request order |
| ClassController.SetRolesAppend | controllers/classController.js:316-348 | applying the resets and then the assignments is applying the two lists of updates one after the other |
| ClassController.UpdateStructure | controllers/classController.js:295-365 | 404 without the class; success exactly when no entry throws and every title survives the schema; the structure is replaced and the students kept; the account updates done before a failure stay done |
| ClassController.StructureRoles | controllers/classController.js:316-348 | after an update a holder named in the request has the role of the last position naming them; a former officer not named becomes a student; everyone else keeps their role |
| ClassController.LastRoleIsSome | controllers/classController.js:317-348 | the role of the last update is one of the roles updated to |
| ClassController.TeacherSwap | controllers/classController.js:153-167 | the new class teacher gets the role and the class, the previous one becomes a teacher, and no other account changes |
| ClassController.Replaced | controllers/classController.js:146-148 | a truthy field replaces the stored one, trimmed; otherwise the stored one is kept |
| ClassController.SwapTeacher | controllers/classController.js:153-167 | the two `findByIdAndUpdate` calls apply `TeacherSwap` |
| ClassController.Edited | controllers/classController.js:145-168 | a field keeps its stored value unless the new one is truthy; new text is stored trimmed, as the schema's `trim` does; the teacher changes only when a new one is given |
| ClassController.SaveDetails | controllers/classController.js:145-170 | the save succeeds exactly when the edited details have a non-empty name of at most 100 characters and a non-empty grade and year; then the stored details are exactly the edited ones, and a failure changes nothing |
| ClassController.UpdateClass | controllers/classController.js:131-185 | 404 without the class; a different truthy teacher id swaps the accounts before the save; the class is saved exactly when the schema accepts it, with the truthy fields replaced |
| ClassController.Setting | controllers/classController.js:383-393 | an absent or empty setting keeps the stored one; a given one must name a visibility |
| ClassController.UpdatePrivacy | controllers/classController.js:368-410 | 404 without the class; success exactly when every truthy setting names a visibility, and then the given settings are replaced and the others kept |
| ClassController.PrivacyOnlyGivenFields | controllers/classController.js:383-393 | a setting that is not given keeps the stored one, and a given name sets its visibility |
| FinanceModel.ParseTxKind | models/Finance.js:5-9 | the `type` enum accepts exactly "income" and "expense" |
| FinanceModel.ParseCategoryKind | models/Finance.js:74-78 | the category `type` enum accepts exactly "income", "expense" and "both" |
| FinanceModel.SumAppend | models/Finance.js:172-174 | the `reduce` sum of amounts adds up over concatenation |
| FinanceModel.Select | models/Finance.js:172-173 | the filter keeps exactly the transactions of the kind and status, in order |
| FinanceModel.TotalIsSumOfSelect | models/Finance.js:171-182 | a total is the source's filter-then-reduce |
| FinanceModel.TotalAppend | models/Finance.js:171-182 | totals add up over concatenation |
| FinanceModel.TotalPush | models/Finance.js:115 | appending a transaction moves a total by that transaction's share |
| FinanceModel.TotalReplace | models/Finance.js:133-135 | replacing one transaction moves a total by the difference of the two shares |
| FinanceModel.TotalsCountOnlyApproved | models/Finance.js:171-182 | pending and rejected transactions leave both totals where they are; an approved one moves only its own kind's total, by its amount |
| FinanceModel.Signed | models/Finance.js:107-112 | approved income adds its amount to the balance and an approved expense subtracts it |
| FinanceModel.TxIndex | models/Finance.js:123 | `transactions.id(id)`: the first transaction with that id, and none exactly when no transaction has it |
| FinanceModel.Stored | models/Finance.js:101-104 | the stored transaction keeps kind, amount and status, trims description and category, and dates itself now when no date is given |
| FinanceModel.PushKeepsLedger | models/Finance.js:106-116 | appending a transaction, with the balance moved when it is approved, keeps balance = approved income − approved expenses |
| FinanceModel.SettleKeepsLedger | models/Finance.js:122-168 | settling a pending transaction, with the balance moved only on approval, keeps that equation |
| FinanceModel.Finance.constructor | models/Finance.js:57-97 | a new ledger for a class has balance 0, no transactions, no categories and no last updater |
| FinanceModel.Finance.AddTransaction | models/Finance.js:100-119 | succeeds exactly when the schema accepts the data; then the stored transaction is appended, the balance moves only if it is approved, and its recorder becomes the last updater; a failure changes nothing |
| FinanceModel.Finance.Decide | models/Finance.js:122-168 | succeeds exactly for a pending transaction that exists; then it takes the new status with approver and time, only approval moves the balance, and the approver becomes the last updater; otherwise it throws and nothing changes |
| FinanceModel.Finance.GetTotalIncome | models/Finance.js:171-182 | on a ledger, approved income minus approved expenses equals the stored balance |
| FinanceModel.RejectionNeutral | models/Finance.js:150-168 | rejecting a pending transaction changes neither approved total |
| FinanceModel.StatusCountsPartition | controllers/financeController.js:433-435 | the approved, pending and rejected transactions together are all the transactions |
| FinanceController.ViewRuleWidensHelper | controllers/financeController.js:26-40 | the handler admits everyone `canViewFinances` admits, and also a class teacher of another class, whom the helper refuses |
| FinanceController.RecordAndSettleRules | controllers/financeController.js:115-119 | the recording rule is `canManageFinances`; settling is recording without the treasurer; a recorder may view |
| FinanceController.Entry | controllers/financeController.js:138-154 | the new transaction records the caller; it is approved, with the caller as approver at the current time, exactly when the caller is an administrator or the class teacher; otherwise it is pending without an approver |
| FinanceController.GetClassFinance | controllers/financeController.js:6-78 | 404 for an unknown class, 403 without view access; otherwise success, with a new ledger created exactly when the class had none |
| FinanceController.AddTransaction | controllers/financeController.js:81-173 | 400 for a bad type or a missing or non-positive amount, 404 for an unknown class, 403 without recording access; otherwise the ledger, or a new one, records `Entry` exactly as `Finance.AddTransaction` does |
| FinanceController.SettleTransaction | controllers/financeController.js:176-285 | 404 for an unknown class, 403 unless an administrator or the class teacher, 404 without a ledger; then success exactly when the transaction exists and is pending, else 500; on success only that transaction changes, taking the new status, the approver and the time; the balance moves by the transaction's signed amount on approval only, and the approver becomes the last updater |
| FinanceController.WithCategory | controllers/financeController.js:378-382 | the push keeps the old categories as a prefix and appends the name trimmed, with its kind |
| FinanceController.CategoryExistsKeepsUnique | controllers/financeController.js:366-386 | a name that passes the duplicate test on its stored form keeps category names unique ignoring case |
| FinanceController.CategoryExistsAsWrittenAdmitsDuplicate | controllers/financeController.js:366-368 | the test as written lets " Food" through next to a stored "food", and the push then stores a second name equal ignoring case |
| FinanceController.CategoryKindOf | controllers/financeController.js:380 | `type \|\| 'both'`: an absent or empty type is "both", and any other type is the one it names |
| FinanceController.AddTransactionCategory | controllers/financeController.js:317-401 | 400 for an unknown type, 404 for an unknown class, 403 without recording access; success exactly for a name that is present, not blank and whose untrimmed form matches no stored name ignoring case (the test as written, so a padded duplicate is stored); then the category is appended trimmed and its author recorded; a failure changes nothing |
| FinanceController.Bump | controllers/financeController.js:456-467 | one step of the `forEach` adds the transaction's category as a row and changes no other row |
| FinanceController.TallyKeys | controllers/financeController.js:454-467 | `categorySummary` has a row exactly for each category that occurs |
| FinanceController.TallyCategories | controllers/financeController.js:454-467 | the `forEach` loop builds exactly `Tally` |
| FinanceController.ColumnSumRemove | controllers/financeController.js:454-467 | the sum of a column may take the categories in any order |
| FinanceController.BumpColumnSum | controllers/financeController.js:466 | one step adds the transaction's amount to exactly one column |
| FinanceController.TallyAddsUp | controllers/financeController.js:437-467 | over approved transactions the category rows add up to the approved income and expense totals |
| FinanceController.TotalOfStatus | controllers/financeController.js:433-451 | keeping only the transactions of one status does not change that status's totals |
| FinanceController.InWindow | controllers/financeController.js:420-431 | with no start or end date nothing is filtered; otherwise exactly the transactions dated within the window are kept |
| FinanceController.GetFinanceSummary | controllers/financeController.js:404-496 | 404 exactly without a ledger; otherwise the report of the ledger's transactions in the window |
| FinanceController.SummaryConsistent | controllers/financeController.js:433-485 | in every report the three counts make up the total, the category rows add up to the income and expense totals, and without a window the net balance equals the stored balance |
| GalleryModel.NewPhoto | controllers/galleryController.js:270-279 | a new photo has the trimmed image URL, its uploader and time, its tags, and no likes or comments |
| GalleryModel.NewAlbum | controllers/galleryController.js:129-138 | a new album has the trimmed title, the visibility and creator given, no photos and no cover |
| GalleryModel.AlbumIndex | models/Gallery.js:122 | `albums.id(id)`: the first album with the id, and none exactly when no album has it |
| GalleryModel.PhotoIndex | models/Gallery.js:162 | `photos.id(id)`: the first photo with the id, and none exactly when no photo has it |
| GalleryModel.PushRecent | models/Gallery.js:135-139 | `unshift` then `pop` past 10: the new photo comes first, the older ones follow in order, the length grows by one up to the cap of 10 |
| GalleryModel.WithPhoto | models/Gallery.js:128-133 | the photo is appended, and the cover becomes its image exactly when the album had no cover and no photos; nothing else changes |
| GalleryModel.Liked | models/Gallery.js:168-171 | after a like the user is among the likes; an existing like changes nothing; otherwise the user is appended; likes stay free of duplicates |
| GalleryModel.LikeIdempotent | models/Gallery.js:168-171 | liking twice is liking once |
| GalleryModel.ReplacePhotoKeepsOk | models/Gallery.js:168-190 | replacing one photo by a well-formed one keeps the gallery invariant |
| GalleryModel.Gallery.constructor | models/Gallery.js:97-118 | a new gallery for a class has no albums, no recent photos and no last updater |
| GalleryModel.Gallery.AddPhotoToAlbum | models/Gallery.js:121-144 | succeeds exactly for a known album and a photo with an image; then the album gets `WithPhoto`, the recent list gets `PushRecent` of a copy carrying its own generated id, and the uploader becomes the last updater; otherwise it throws and nothing changes |
| GalleryModel.Gallery.CreateAlbum | models/Gallery.js:147-152 | succeeds exactly for an album with a title; then it is appended and its creator becomes the last updater |
| GalleryModel.Gallery.LikePhoto | models/Gallery.js:155-174 | succeeds exactly for a known album and photo; then only that photo becomes `Liked` |
| GalleryModel.Gallery.CommentOnPhoto | models/Gallery.js:177-193 | succeeds exactly for a known album and photo and a storable comment; then only that photo's comments grow by the comment |
| GalleryController.GalleryViewNarrowerThanFinance | controllers/galleryController.js:33-44 | everyone who may view a gallery may view the class's finances at the same visibility, but a class teacher of another class may view only the finances |
| GalleryController.CuratorsContribute | controllers/galleryController.js:107-111 | whoever may curate another user's item may contribute, and a vice president of the class may contribute without curating |
| GalleryController.VisibilityOrDefault | controllers/galleryController.js:135 | `visibility \ | \ | 'class_only'`: absent or empty means `class_only`, and a given name must be a visibility |
| GalleryController.GetClassGallery | controllers/galleryController.js:14-84 | 404 for an unknown class, 403 without view access at the class's gallery visibility; otherwise success, with a new gallery created exactly when the class had none |
| GalleryController.GetAlbum | controllers/galleryController.js:158-218 | 404 without a gallery or album; success exactly with view access at the album's own visibility, returning that album |
| GalleryController.CreateAlbum | controllers/galleryController.js:87-155 | 404 for an unknown class, 403 without contributor rights; success exactly when the title survives trimming and the visibility is valid; then `NewAlbum` is appended to the gallery, or a new one |
| GalleryController.UploadPhoto | controllers/galleryController.js:221-296 | 400 without an image URL, 404 without the gallery or album, 403 without contributor rights, 500 for a blank URL; otherwise the photo is added as by `addPhotoToAlbum`, and its recent copy, with an id of its own, heads the recent list |
| GalleryController.LikePhoto | controllers/galleryController.js:299-328 | 404 without a gallery; success exactly for a known album and photo, which then becomes `Liked` by the caller |
| GalleryController.CommentOnPhoto | controllers/galleryController.js:331-383 | 400 without text, 404 without a gallery; success exactly for a known album and photo and a text that survives trimming, which is appended as the caller's comment |
| GalleryController.WithoutId | controllers/galleryController.js:445-453 | the filter keeps exactly the photos with another id |
| GalleryController.AfterPhotoDeleted | controllers/galleryController.js:444-450 | the photo is removed from the album; a cover that showed it moves to the first remaining photo; nothing else changes |
| GalleryController.ShrinkKeepsOk | controllers/galleryController.js:444-453 | keeping some of an album's photos and shortening the recent list keeps the gallery invariant |
| GalleryController.DeletePhoto | controllers/galleryController.js:386-471 | 404 without gallery, album or photo, each stated; 403 unless the caller owns the photo, is an administrator or class teacher, or is the class's president; otherwise it applies `AfterPhotoDeleted`, drops the recent entries with the photo's id and records the caller |
| GalleryController.Edited | controllers/galleryController.js:513-518 | truthy title and event, a given description even when empty, a given date and a given visibility replace the stored ones; photos, cover and creator are kept |
| GalleryController.EditNothing | controllers/galleryController.js:513-518 | an update that supplies nothing leaves the album as it was |
| GalleryController.UpdateAlbum | controllers/galleryController.js:474-537 | 404 without gallery or album, 403 unless the caller may curate, 500 when the new title or visibility fails the schema; otherwise it stores `Edited` and records the caller |
| GalleryController.DropAllKeeps | controllers/galleryController.js:579-591 | what survives the loop is exactly the recent photos whose id matches no photo of the album |
| GalleryController.DropRecent | controllers/galleryController.js:579-591 | the loop over the album's photos computes `DropAll` |
| GalleryController.DeleteAlbum | controllers/galleryController.js:540-612 | 404 without gallery or album, 403 unless the caller may curate; otherwise no recent photo shares an id with the album's photos, the album is removed and the caller recorded |
| ScheduleModel.ParseItemKind | models/Schedule.js:10-14 | exactly the five item types of the enum parse |
| ScheduleModel.ParsePriority | models/Schedule.js:94-97 | exactly `low`, `medium` and `high` parse |
| ScheduleModel.StoredItem | models/Schedule.js:4-64 | the schema trims the title, subject, location and description of an item and keeps every other field |
| ScheduleModel.StoredTask | models/Schedule.js:66-111 | the schema trims a task's title and keeps its id, due date, status, assigner and attachments |
| ScheduleModel.ItemOkDependsOn | models/Schedule.js:4-64 | whether an item passes validation depends only on its trimmed title, its times and its weekday |
| ScheduleModel.StoredItemOk | models/Schedule.js:4-64 | trimming before the save does not change what the save accepts |
| ScheduleModel.FieldValue | models/Schedule.js:155-156 | `Number` on one or two digits is at most 99 |
| ScheduleModel.Clock | models/Schedule.js:155-156 | `split(':').map(Number)` on a well-formed time gives hour and minute, each at most 99 |
| ScheduleModel.StartKeyIsHourThenMinute | models/Schedule.js:154-162 | the sort key orders items as the comparator does: by hour, then by minute |
| ScheduleModel.MalformedSortsFirst | models/Schedule.js:154-162 | an item whose start time does not parse sorts before every well-formed one |
| ScheduleModel.OnDay | models/Schedule.js:149-151 | the filter keeps exactly the items of that weekday and adds nothing |
| ScheduleModel.DaySchedule | models/Schedule.js:147-164 | `getDaySchedule`: a permutation of the day's items, sorted by start time, holding exactly the items of that weekday |
| ScheduleModel.DayScheduleCounts | models/Schedule.js:147-164 | an item of the day appears in the day view as often as in the timetable; an item of another day does not appear |
| ScheduleModel.DayScheduleStable | models/Schedule.js:152-161 | the sort is stable: items of the day with the same start key keep their stored order |
| ScheduleModel.UpcomingTasks | models/Schedule.js:166-176 | `getUpcomingTasks`: exactly the pending tasks due between now and the window's end, none added, sorted by due date |
| ScheduleModel.UpcomingTasksStable | models/Schedule.js:170-175 | the sort is stable: upcoming tasks due at the same time keep their stored order |
| ScheduleModel.NegativeWindowEmpty | models/Schedule.js:166-176 | a window that ends before now holds no task |
| ScheduleModel.TaskIndex | models/Schedule.js:187 | `tasks.id(id)`: the first task with the id, and none exactly when no task has it |
| ScheduleModel.CompleteById | models/Schedule.js:186-197 | fails exactly when no task has the id; otherwise only that task becomes completed |
| ScheduleModel.CompleteIdempotent | models/Schedule.js:186-197 | completing a task twice is completing it once |
| ScheduleModel.CompleteKeepsOk | models/Schedule.js:186-197 | completion keeps the schedule invariant |
| ScheduleModel.CompletedNotUpcoming | models/Schedule.js:166-197 | once completed, a task is never among the upcoming tasks, whatever the window |
| ScheduleModel.PushTaskKeepsOk | models/Schedule.js:178-184 | appending a valid task with a new id keeps the schedule invariant |
| ScheduleModel.Schedule.constructor | models/Schedule.js:113-145 | a new schedule for a class has no items, no tasks and no last updater |
| ScheduleModel.Schedule.AddTask | models/Schedule.js:178-184 | succeeds exactly for a task whose title is not blank; then the stored task is appended and its assigner recorded; otherwise nothing changes |
| ScheduleModel.Schedule.CompleteTask | models/Schedule.js:186-197 | succeeds exactly for a known task id; then the tasks are `CompleteById` and the user is recorded; otherwise it throws and nothing changes |
| ScheduleController.WriteRulesVersusView | controllers/scheduleController.js:26-37 | whoever may delete an item may edit it, and whoever may add regular items may add special ones; a teacher of no class may add to and edit a `class_only` schedule they cannot view |
| ScheduleController.KindOrDefault | controllers/scheduleController.js:142 | `type \ | \ | default`: absent or empty means the default, and a given name must be an item type |
| ScheduleController.SundayRefusedAsWritten | controllers/scheduleController.js:89-102 | the presence check as written refuses a Sunday item; it differs from the documented check on Sunday and nowhere else |
| ScheduleController.RegularItem | controllers/scheduleController.js:140-154 | a regular item is recurring, has no date, keeps the request's weekday, is created by the caller, and takes the default colour when none is given |
| ScheduleController.SpecialItem | controllers/scheduleController.js:238-252 | a special item is not recurring, has no weekday, keeps the request's date and is created by the caller |
| ScheduleController.RegularRequestsStoreValidItems | controllers/scheduleController.js:89-102 | the corrected check admits every weekday from Sunday to Saturday, and what it admits with a non-blank title is a valid item of that weekday |
| ScheduleController.PushItemKeepsOk | controllers/scheduleController.js:157 | appending a valid item to the regular or the special items keeps the schedule invariant |
| ScheduleController.PushItem | controllers/scheduleController.js:157-158 | the item joins exactly one of the two lists, the rest is kept, the caller is recorded and the invariant holds |
| ScheduleController.GetClassSchedule | controllers/scheduleController.js:6-77 | 404 for an unknown class, 403 without view access; otherwise success, with an empty schedule created exactly when the class had none |
| ScheduleController.AddRegularItem | controllers/scheduleController.js:79-182 | the check as written: 400 for a missing field, for Sunday (day 0) or for a day outside 0..6, 404 for an unknown class, 403 unless the caller may manage tasks; success exactly when the type parses and the title is not blank; then `RegularItem` joins the regular items |
| ScheduleController.AddSpecialItem | controllers/scheduleController.js:184-280 | 400 for a missing field, 404 for an unknown class, 403 unless the caller may manage tasks or presides over the class; success exactly when the type parses and the title is not blank; then `SpecialItem` joins the special items |
| ScheduleController.NewTask | controllers/scheduleController.js:331-340 | a new task is pending, assigned by the caller, due when asked, with the priority given and no attachments unless given |
| ScheduleController.PriorityOrDefault | controllers/scheduleController.js:337 | `priority \ | \ | 'medium'`: absent or empty means `medium`, and a given name must be a priority |
| ScheduleController.AddTask | controllers/scheduleController.js:282-365 | 400 without title or due date, 404 for an unknown class, 403 unless the caller may manage tasks, 500 when the priority does not parse or the title is blank; otherwise `NewTask` is appended |
| ScheduleController.CompleteTask | controllers/scheduleController.js:367-408 | 404 without a schedule or task; otherwise the tasks become `CompleteById` and the caller is recorded, with no role checked |
| ScheduleController.GetDaySchedule | controllers/scheduleController.js:410-450 | 400 for a missing day or one outside 0..6, 404 without a schedule; otherwise `DaySchedule` of the regular items |
| ScheduleController.GetUpcomingTasks | controllers/scheduleController.js:452-484 | 404 without a schedule; otherwise `UpcomingTasks`, over seven days when no window is given |
| ScheduleController.EditedItemCases | controllers/scheduleController.js:528-538 | an update that gives nothing leaves the item as it was; moving a valid item to Sunday is accepted |
| ScheduleController.ReplaceItemKeepsOk | controllers/scheduleController.js:528-540 | replacing one item by a valid one keeps the schedule invariant |
| ScheduleController.ItemIndex | controllers/scheduleController.js:507 | `regularItems.id(id)`: the first item with the id, and none exactly when no item has it |
| ScheduleController.UpdateRegularItem | controllers/scheduleController.js:486-564 | 404 without a schedule or item, 403 unless the caller may manage tasks or created the item; success exactly when the edited item validates; then only that item changes and the caller is recorded |
| ScheduleController.WithoutItem | controllers/scheduleController.js:604 | the filter keeps exactly the items with another id |
| ScheduleController.DeleteRegularItem | controllers/scheduleController.js:566-621 | 404 without a schedule or item, 403 unless the caller is an administrator, a class teacher or the creator; then the item goes, the rest stay and the caller is recorded |
| ChatView.FirstOther | components/chat/ContactList.js:18-67 | `participants.find(p => p._id !== user?._id)`: the first participant who is not the viewer, and none exactly when every participant is the viewer |
| ChatView.OtherOfPair | components/chat/ContactList.js:67 | in the two-person list of a direct chat, the contact is the other person, whichever order the server stored them in |
| ContactList.CountUnreadMessages | components/chat/ContactList.js:94-101 | the count is at most the number of messages, and zero exactly when no message is unread for the viewer |
| ContactList.HasUnreadIffCount | components/chat/ContactList.js:82-101 | the unread badge shows exactly when the unread count is positive |
| ContactList.CountAgreesWithServer | components/chat/ContactList.js:94-101 | for a signed-in user the browser's count equals the server's count of unread messages |
| ContactList.SignedOutCountsAll | components/chat/ContactList.js:97-100 | before the user is known every message counts as unread |
| ContactList.SenderTestRedundant | components/chat/ContactList.js:97-100 | on messages stored with their sender's receipt, unread means exactly "no receipt of the viewer" |
| ContactList.LastMessagePreview | components/chat/ContactList.js:49-63 | a placeholder for a chat without messages, the attachment label when the last message has attachments |
| ContactList.TextPreview | components/chat/ContactList.js:60-62 | a text preview is the whole content up to 30 characters, and otherwise its first 30 characters followed by "..." |
| ContactList.DirectChatName | components/chat/ContactList.js:66-69 | never empty: the contact's name when there is one and it is not empty, otherwise "Unknown User" |
| ContactList.FilterDirectChats | components/chat/ContactList.js:17-20 | keeps exactly the direct chats whose contact's name contains the term, ignoring case |
| ContactList.FilterGroupChats | components/chat/ContactList.js:22-24 | keeps exactly the group chats whose name contains the term, ignoring case |
| ContactList.EmptySearchKeepsGroups | components/chat/ContactList.js:22-24 | an empty search keeps every group chat, in order |
| ContactList.EmptySearchKeepsContacts | components/chat/ContactList.js:17-20 | an empty search keeps exactly the direct chats that have a contact |
| ContactList.GroupSearchIgnoresCase | components/chat/ContactList.js:22-24 | searching for the lower-cased term finds the same group chats as the term itself |
| ContactList.GroupFoundByName | components/chat/ContactList.js:22-24 | a group chat is found by its own name |
| ChatWindow.FlattenSnoc | components/chat/ChatWindow.js:80-85 | closing one more group appends its messages to the flattened list |
| ChatWindow.CloseRun | components/chat/ChatWindow.js:65-71 | closing a run of one date after groups of other dates keeps the grouping well formed and extends its messages by the run |
| ChatWindow.GroupMessagesByDate | components/chat/ChatWindow.js:54-88 | the groups hold exactly the messages in order, each group is non-empty and of one date, neighbouring groups differ in date, and there are no more groups than messages |
| ChatWindow.WellGroupedPrefix | components/chat/ChatWindow.js:54-88 | dropping the last group of a well-formed grouping leaves a well-formed grouping |
| ChatWindow.LastMessageDate | components/chat/ChatWindow.js:54-88 | the last message falls on the date of the last group |
| ChatWindow.GroupingUnique | components/chat/ChatWindow.js:54-88 | two well-formed groupings of the same messages are equal, so the grouping is determined by the messages |
| ChatWindow.SplitAtLongerRun | components/chat/ChatWindow.js:54-88 | two well-formed groupings that end in runs of the same date end in runs of the same length |
| ChatWindow.Submit | components/chat/ChatWindow.js:18-25 | a blank input is not sent and stays; anything else is sent as typed and the input is cleared |
| ChatWindow.SubmittedContentValid | components/chat/ChatWindow.js:21-23 | whatever the window hands over passes the server's content check |
| ChatWindow.ChatTitle | components/chat/ChatWindow.js:91-104 | nothing without a chat, a group's own name for a group |
| ChatWindow.TitleMatchesContactList | components/chat/ChatWindow.js:91-104 | a direct chat's title is the name the contact list shows, except that where the list shows "Unknown User" the title is empty |
| Sidebar.DashboardPath | components/dashboard/Sidebar.js:124-145 | nobody signed in gets the generic dashboard |
| Sidebar.DashboardPathGroups | components/dashboard/Sidebar.js:124-145 | each dashboard belongs to exactly one group: admin to administrators, teacher to the other teacher-access roles, one per officer role, and student to students |
| Sidebar.NavLinks | components/dashboard/Sidebar.js:30-121 | the links the method builds are exactly `Offered`, in order |
| Sidebar.OfferedLinks | components/dashboard/Sidebar.js:30-121 | the links start with dashboard and chat; users and settings exactly for admins, students for teachers, class and gallery for users with a class, finance exactly under its own condition |
| Sidebar.ClassTeacherSeesScheduleTwice | components/dashboard/Sidebar.js:70-118 | a class teacher with a class is offered two schedule links, the teacher one and the class one |
| Sidebar.FinanceLinkMatchesManagers | components/dashboard/Sidebar.js:109-117 | for a user with a class, the finance link is offered exactly to those who may manage that class's finances |
| Sidebar.RoleLinksMatchAccess | components/dashboard/Sidebar.js:47-85 | the admin links are offered exactly to roles with admin access, the teacher links to teacher-access roles without it |
| ChatPage.NoChatIsGroupAsWritten | pages/chat/index.js:75 | `!!chat.participants` holds for every chat, so the page as written never takes a chat for a group, and it is wrong exactly on groups |
| ChatPage.OpenEventsAsWritten | pages/chat/index.js:72-88 | as written, the `activeChat` effect joins every chat with `join-direct-chat` and asks for it to be read with `isGroupChat: false` |
| ChatPage.GroupOpenedAsDirect | pages/chat/index.js:72-88 | as written, opening a group emits the direct join and a direct `mark-read`, which differ from the group events |
| ChatPage.OpenEvents | pages/chat/index.js:72-88 | the effect as intended: a direct chat is joined and read as direct, a group with `join-group-chat` and `isGroupChat: true` |
| ChatPage.OpenEventsDifferOnGroupsOnly | pages/chat/index.js:72-88 | the effect as written and as intended agree exactly on direct chats |
| ChatPage.SendEventAsWritten | pages/chat/index.js:152-170 | as written, an event is sent exactly with a socket, an open chat and non-blank content |
| ChatPage.GroupMessageSentAsDirect | pages/chat/index.js:152-170 | as written, a message typed into an open group chat is sent as `send-direct-message` |
| ChatPage.SendEvent | pages/chat/index.js:152-170 | an event is sent exactly with a socket, an open chat and non-blank content; a direct chat gets `send-direct-message` and a group `send-group-message` |
| ChatPage.SendRoutingDiffersOnGroupsOnly | pages/chat/index.js:152-170 | the code as written and the corrected routing agree on direct chats and disagree on every group |
| ChatPage.SentContentValid | pages/chat/index.js:153 | whatever the page sends passes the server's content check |
| ChatPage.Received | pages/chat/index.js:97-102 | a chat that receives a message keeps its id and kind, gets the message at its tail and the new time |
| ChatPage.WithIncoming | pages/chat/index.js:94-120 | every chat with the message's chat id receives it, every other chat stays, and the list keeps its length and order |
| ChatPage.ReceivedIsPreviewed | pages/chat/index.js:97-102 | after receipt the contact list previews the new message |
| ChatPage.ReceivedUnreadCount | pages/chat/index.js:97-102 | a received message raises the unread count by one exactly when it is unread for the viewer |
| ChatPage.WithChat | pages/chat/index.js:217-220 | the chat is appended exactly when no listed chat has its id, and afterwards it is listed |
| ChatPage.WithChatProperties | pages/chat/index.js:217-220 | adding keeps the listed ids distinct, and adding the same chat twice is adding it once |
| ChatPage.Toggled | pages/chat/index.js:258-264 | a selected user is removed with every entry of the same id, and an unselected one is appended |
| ChatPage.ToggleTwiceRestores | pages/chat/index.js:258-264 | picking a user and dropping them again restores the selection |
| ChatPage.ToggleTwiceFromSelected | pages/chat/index.js:258-264 | dropping a picked user and picking them again leaves the same people selected |
| ChatPage.NewGroupRequest | pages/chat/index.js:233-240 | a request is posted exactly for a non-blank name and a non-empty selection, with the name as typed and the selected ids in order |
| ChatPage.GroupRequestPassesServerChecks | pages/chat/index.js:233-240 | a posted request never meets the server's refusal of an empty participant list or a blank name |
| ChatPage.ChatPage.constructor | pages/chat/index.js:10-21 | the page starts with no user, no socket, no chats, no open chat and an empty selection |
| ChatPage.ChatPage.Load | pages/chat/index.js:24-88 | the user and both lists come from the endpoints and the socket is connected; the rest of the page is kept; the new socket makes the `activeChat` effect emit its events for a chat already open, and nothing otherwise |
| ChatPage.ChatPage.SelectChat | pages/chat/index.js:72-88 | the chat opens; with a socket, and unless that chat was already open, the page emits `join-direct-chat` and a `mark-read` with `isGroupChat: false`, for a group as for a direct chat, as written; re-selecting the open chat emits nothing |
| ChatPage.ChatPage.HandleNewMessage | pages/chat/index.js:91-137 | as registered on mount: both lists become `WithIncoming`, and the open chat and the emitted events are untouched, because the listener sees the first render's empty open chat |
| ChatPage.ChatPage.HandleNewMessageIntended | pages/chat/index.js:121-136 | as intended: an open chat with that id also receives the message and a read receipt for it is requested; otherwise nothing is emitted |
| ChatPage.StaleListenerMissesOpenChat | pages/chat/index.js:121-136 | the open chat as the intended listener leaves it differs from the one the registered listener leaves: it holds one message more |
| ChatPage.ChatPage.HandleSendMessage | pages/chat/index.js:152-170 | as written: an event is emitted exactly with a socket, an open chat and non-blank content, and it is `send-direct-message` to the open chat whatever its kind |
| ChatPage.ChatPage.CreateDirectChat | pages/chat/index.js:209-230 | the answered chat is added by `WithChat` and opened, and with a socket the page joins it and asks for it to be read, by `OpenEventsAsWritten` (the answer is a new object, so the effect always runs); without an answer nothing changes and nothing is emitted |
| ChatPage.ChatPage.ToggleUserSelection | pages/chat/index.js:258-264 | the selection becomes `Toggled`; the lists and the open chat are kept |
| ChatPage.ChatPage.CreateGroupChat | pages/chat/index.js:233-255 | posts exactly `NewGroupRequest`; an answered group is appended and opened, and with a socket `OpenEventsAsWritten` joins and reads it as a direct chat, as written; the picked users and the typed name are kept; otherwise nothing changes |

## Left out

- Persistence: Mongoose `save`, `find`, `populate` and sorting by `lastMessage` become in-memory sequences and maps; a document that fails validation is a `ServerError` with no change, and other database failures are not modelled.
- Concurrency: every handler runs to completion on its own; the non-atomic find-or-create of direct chats and racing saves are not modelled.
- Password hashing (bcrypt) and token signing and verification (jsonwebtoken) are oracle parameters; a verification error is one case of the oracle's answer.
- The account email's format regex is not modelled; `ValidAccountFields` checks only that the trimmed email is not empty.
- Cloudinary uploads and deletions are not modelled; their errors are swallowed by the source anyway.
- Clocks, id generation and locale formatting are parameters: times are integer milliseconds, ids are naturals, and the day key of a message (`toLocaleDateString`) is a function argument of `ChatWindow.GroupMessagesByDate`. `formatLastMessageTime` and `formatTime` are not modelled.
- Finance amounts are integers; JavaScript floating-point arithmetic is not modelled.
- socket.io transport: rooms are a set of (connection, room) pairs and emissions are returned as a list; the `user-status` broadcast carries its user and status only, and its delivery is not modelled.
- Read-only listing handlers are not modelled, because they change nothing and promise nothing beyond their queries: `getUserDirectChats`, `getUserGroupChats`, `getAllUsers`, `getTransactionCategories`, `getRecentPhotos` and the like.
- `createClass` is not modelled; it only builds a document, and the class roster and structure operations start from an existing `ClassDoc`.
- UpdateStructure: the structure is a sequence, so the 400 for a body whose `structure` is not an array (controllers/classController.js:300-305) is not modelled.
- The student list of `addStudentsToClass` is a sequence, so the 400 for a body that is not an array is not modelled; the class's own save is taken to succeed in `AddStudents` and `RemoveStudent`.
- The `{ Gallery }` destructuring in controllers/galleryController.js:1 and controllers/classController.js:5 binds `undefined` because models/Gallery.js exports the model itself; the gallery handlers are modelled as evidently intended, with the model bound.
- The recent list holds copies of uploaded photos with ids of their own; later likes and comments change the album's photo only, as in the source.
- Schedule start times: the model reads a start time only as one or two digits, a colon and one or two digits; any other start time gets sort key -1 and sorts first. The source sorts some of those by number: "10:00:00" by 10 and 0, "007:30" by 7 and 30, " 7:00" by 7 and 0. Only times whose hour or minute is not a number give `NaN`, and that comparator's engine-dependent order is not modelled either.
- Schedule day queries: `parseInt` of a non-numeric or fractional string is not modelled; the day is an optional integer. Daylight saving in the seven-day window is not modelled, and a day is 86 400 000 ms.
- Unparseable date strings (`new Date(x)` giving an invalid date) are not modelled; dates are integers.
- Strings: `trim` removes ASCII white space only and `toLowerCase` lowers ASCII capitals only, while JavaScript and Mongoose work on all of Unicode (a no-break space or U+2028 is trimmed, "İ" lowers to two code units); lengths, `maxlength` included, count characters rather than UTF-16 code units. This touches email normalisation, the duplicate-category test, the contact and group search and the title virtuals.
- NormalizeEmail: the result is the ASCII lower case of the ASCII-trimmed address; for addresses outside ASCII the source's result may differ, and may even be longer.
- ContactList.TextPreview: lengths are counted in characters of the string, not in UTF-16 code units.
- ContactList.SenderTestRedundant: a message whose `sender` is not populated (so `sender._id` is undefined) is not modelled.
- Sidebar: links are modelled by their keys; their names, icons and hrefs, other than the dashboard path, are left out.
- Chat page: images, the typing indicator, `handleSearchUsers`, the modals and axios and HTTP errors are left out; a created group chat is appended without checking for duplicates, as in the source.
- SelectChat: React compares the new `activeChat` with the open one by object identity; the model compares chat values, so selecting a different object equal in value to the open chat emits nothing here, where the page's effect runs again.
- Socket.NewReceipts: the function's own contract states only the length of the result; which receipts are added, and that at most one is added per message, is stated by `Socket.NewReceiptsAtMostOnce` and `Socket.NewReceiptsKeepMessagesOk`.

## Findings

| source | as written | input that shows it | evidently intended | confidence | as-written member | corrected member |
|---|---|---|---|---|---|---|
| controllers/financeController.js:366-368 | the duplicate-category test compares the stored, trimmed names with the incoming name before trimming | a class with category `food` and a request for ` Food`: the test passes and the save stores `Food` beside `food` | category names unique ignoring case, compared after the schema's trim | not executed | FinanceController.CategoryExistsAsWrittenAdmitsDuplicate | FinanceController.CategoryExistsKeepsUnique |
| controllers/scheduleController.js:89-102 | `!dayOfWeek` refuses a missing day and also Sunday, day 0 | a regular item with day 0 and all other fields present gets 400 | every day 0 (Sunday) to 6 (Saturday) accepted, as the error message and the schema's range say | not executed | ScheduleController.SundayRefusedAsWritten | ScheduleController.RegularRequestsStoreValidItems |
| pages/chat/index.js:152-170 | `activeChat.participants` is taken to mean a direct chat, but group chats carry a `participants` array too | an open group chat and the text `hello`: the page emits `send-direct-message`, which the server refuses for a group id | a group chat sends `send-group-message` | not executed | ChatPage.GroupMessageSentAsDirect | ChatPage.SendRoutingDiffersOnGroupsOnly |
| pages/chat/index.js:72-88 | the `activeChat` effect also takes `activeChat.participants` to mean a direct chat | opening a group chat with a socket: the page emits `join-direct-chat` and `mark-read` with `isGroupChat: false`, so it never joins the group's room | a group is joined with `join-group-chat` and read with `isGroupChat: true` | not executed | ChatPage.GroupOpenedAsDirect | ChatPage.OpenEvents |
| controllers/galleryController.js:453 | `deletePhoto` removes recent entries by the album photo's id, but the recent copy was cast into a subdocument with an id of its own (models/Gallery.js:136) | a gallery with fewer than ten recent photos; upload a photo, then delete it: the recent list still starts with its copy | the deleted photo leaves the recent list, as the comment at line 452 says, which happens when the copy shares the album photo's id | not executed | GalleryController.DeleteKeepsRecentCopy | GalleryController.DeleteUndoesSharedCopy |
| pages/chat/index.js:52-53 | the message listeners are registered once, on mount, so they keep the first render's state, in which no chat is open and there is no socket | open chat 7, then a message for chat 7 arrives: both lists get it, the open chat does not, and no `mark-read` is emitted | the open chat receives the message and a read receipt is requested for it (lines 121-136) | not executed | ChatPage.ChatPage.HandleNewMessage | ChatPage.ChatPage.HandleNewMessageIntended |
