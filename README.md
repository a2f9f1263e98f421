# uniapp-backend chat core in Dafny

This project models the real-time messaging core of the uniapp-backend chat
server and proves properties of the model. The core has these parts:

- **The WebSocket endpoint** (`ChatWebSocketHandler`). It authenticates a
  connection from its query string and keeps a registry from user id to that
  user's current session. It routes each text frame to a command and writes
  the answering frames.
- **The services behind the commands**:
  - messages (`MessageService` and its JPQL statements);
  - the per-user conversation projection (`ConversationService`);
  - group membership (`ChatGroupService`);
  - friend requests, contacts and contact groups (`ContactService`).
- **The HTTP access decision** (`JwtAuthenticationFilter`).
- **The account entity** (`User`).

Each database table is a `seq` of rows held by a class whose methods
reassign it. A Spring Data query becomes a function over that sequence
(module `Tables`). A single-row lookup has three outcomes: no row, one row,
or several rows. The last one throws in Spring Data, so the model keeps all
three.

The handler is a class. It has three fields:

- the registry;
- the set of open sessions;
- `outbox`, the sequence of frames delivered so far.

A frame written to a session that is not open is lost, because the handler
catches the transport's exception. So only frames to open sessions reach
`outbox`.

JWT signing and expiry belong to a library and to the clock. The model
replaces them with a `Verifier` parameter: a map from token text to the
answer the utility gives. Clock readings (`now`) are parameters as well.

Modules:

| file | module | models |
|---|---|---|
| wrappers.dfy | Wrappers | `Option`, `Result` |
| text.dfy | JavaText | the `String`/`Long` operations the core relies on (`trim`, `split`, `parseLong`, `toUpperCase`) |
| tables.dfy | Tables | repository queries over a sequence of rows |
| tokens.dfy | Tokens | what the core asks of `JwtTokenUtil` |
| envelope.dfy | Envelope | a frame parsed by Jackson, and the casts the handler applies to its fields |
| messages.dfy | Messages | `MessageService`, `MessageRepository`, `Message` |
| conversations.dfy | Conversations | `ConversationService`, `ConversationRepository`, `Conversation` |
| groups.dfy | Groups | `ChatGroupService`, `GroupMemberRepository`, `ChatGroup`, `GroupMember` |
| contacts.dfy | Contacts | `ContactService` and its repositories |
| handler.dfy | ChatHandler | `ChatWebSocketHandler` |
| auth_filter.dfy | AuthFilter | `JwtAuthenticationFilter` |
| user.dfy | Accounts | `User` |

Where the code and the repository's own description of it differ, the model
follows the code:

- **Recall.** A second recall of an already recalled message succeeds again,
  and its time overwrites the first one (`Messages.RecallAgain`).
- **Recall notice.** It goes to every registered session, not only the
  conversation's participants (`RecallHandled`).
- **Sending a message** saves the message row only. The handler does not
  call `updateLastMessage`, so no conversation row's unread count or last
  message changes.
- **`mark_as_read` over the WebSocket** zeroes the caller's conversation
  row. It does not mark any message row as read.
- **`create_group`** creates no conversation rows for the group.
- **`join_group`** does not check that the group exists.

## Model

| member | source | states |
|---|---|---|
| ChatHandler.TokenScan | src/main/java/com/example/uniapp_backend/handler/ChatWebSocketHandler.java:131-149 | the token loop yields nothing exactly when no `token=` parameter decides; tokens that do not validate are skipped |
| ChatHandler.TokenScanFirst | src/main/java/com/example/uniapp_backend/handler/ChatWebSocketHandler.java:133-149 | the token loop returns what the first deciding parameter says |
| ChatHandler.UserIdScan | src/main/java/com/example/uniapp_backend/handler/ChatWebSocketHandler.java:151-163 | the fallback loop yields nothing exactly when no `userId=` value parses; a found id fits in a long |
| ChatHandler.UserIdScanFirst | src/main/java/com/example/uniapp_backend/handler/ChatWebSocketHandler.java:152-163 | the fallback loop returns the first `userId=` value that `parseLong` accepts, skipping malformed ones |
| ChatHandler.UserTokenAuthenticates | src/main/java/com/example/uniapp_backend/handler/ChatWebSocketHandler.java:139-141 | a valid USER token that is the first deciding parameter authenticates as the token's id |
| ChatHandler.OtherTokenRefuses | src/main/java/com/example/uniapp_backend/handler/ChatWebSocketHandler.java:142-145 | a valid token of another type refuses the connection, even when a later `userId=` would parse |
| ChatHandler.InvalidTokensFallBack | src/main/java/com/example/uniapp_backend/handler/ChatWebSocketHandler.java:150-163 | when no token decides, the first `userId=` value that parses authenticates |
| ChatHandler.ScanTokens | src/main/java/com/example/uniapp_backend/handler/ChatWebSocketHandler.java:131-149 | the token loop computes exactly the token-scan specification |
| ChatHandler.ScanUserIds | src/main/java/com/example/uniapp_backend/handler/ChatWebSocketHandler.java:151-163 | the `userId=` loop computes exactly the fallback-scan specification |
| ChatHandler.WebSocketHandler.GetUserIdFromSession | src/main/java/com/example/uniapp_backend/handler/ChatWebSocketHandler.java:128-168 | the method returns exactly the user the session's query string authenticates |
| ChatHandler.AuthenticatedUser | src/main/java/com/example/uniapp_backend/handler/ChatWebSocketHandler.java:128-168 | a session authenticates only through a query string that mentions `token=` or `userId=`; an id taken from a query without `token=` fits in a long |
| ChatHandler.CommandOf | src/main/java/com/example/uniapp_backend/handler/ChatWebSocketHandler.java:95-120 | the `switch (type)`: a known type name maps to the command of that name, and any other string matches no command |
| ChatHandler.RouteOf | src/main/java/com/example/uniapp_backend/handler/ChatWebSocketHandler.java:68-120 | heartbeat exactly for "ping"/"heartbeat"; an unparsable frame or a non-string type is malformed; no user means "not authenticated"; a null type and an unknown type are refused; a dispatch carries the authenticated user and the frame's own type |
| ChatHandler.ValidateSend | src/main/java/com/example/uniapp_backend/handler/ChatWebSocketHandler.java:180-243 | the three casts come before any check; then conversation id, content, message type, target id, group id and target presence are checked in that order; an accepted request carries exactly the frame's values; an unsupported type is refused with the type as given |
| ChatHandler.TypeNameAnyCase | src/main/java/com/example/uniapp_backend/handler/ChatWebSocketHandler.java:238-240 | every spelling of a type name that differs only in ASCII case is accepted as that type |
| ChatHandler.Outgoing | src/main/java/com/example/uniapp_backend/handler/ChatWebSocketHandler.java:230-240 | the saved message carries sender, receiver, group, conversation, content and type from the request, and is neither read nor recalled |
| ChatHandler.OptionalId | src/main/java/com/example/uniapp_backend/handler/ChatWebSocketHandler.java:198-220 | an id field is read only when present and non-null; `Long.valueOf` failing gives an error |
| ChatHandler.RecallRequest | src/main/java/com/example/uniapp_backend/handler/ChatWebSocketHandler.java:276-285 | a missing `messageId` is refused; a present value converts by `Long.valueOf`, or is malformed |
| ChatHandler.JoinRequest | src/main/java/com/example/uniapp_backend/handler/ChatWebSocketHandler.java:363-372 | the same reading of `groupId` for `join_group` |
| ChatHandler.CreateGroupRequest | src/main/java/com/example/uniapp_backend/handler/ChatWebSocketHandler.java:320-331 | after both casts, the name is refused exactly when null or blank; an accepted request carries the frame's name and description |
| ChatHandler.MarkRequest | src/main/java/com/example/uniapp_backend/handler/ChatWebSocketHandler.java:398-407 | a missing, null or blank conversation id gives the same error; an accepted id is the frame's non-blank string |
| ChatHandler.TopRequestOf | src/main/java/com/example/uniapp_backend/handler/ChatWebSocketHandler.java:425-440 | both casts, then the id check, then the flag check; the flag is refused exactly when the id is valid and `isTop` is null |
| ChatHandler.ToUser | src/main/java/com/example/uniapp_backend/handler/ChatWebSocketHandler.java:541-553 | a frame to a user is delivered exactly when the user is registered and the session is open, and it goes to that session |
| ChatHandler.GroupFanoutRecipients | src/main/java/com/example/uniapp_backend/handler/ChatWebSocketHandler.java:456-491 | a group message reaches exactly the member rows' users, other than the sender, whose session is registered and open |
| ChatHandler.SenderGetsNoGroupCopy | src/main/java/com/example/uniapp_backend/handler/ChatWebSocketHandler.java:476-479 | the sender's own session gets no copy of its group message |
| ChatHandler.SendFramesReach | src/main/java/com/example/uniapp_backend/handler/ChatWebSocketHandler.java:251-262 | after a save the sender is acknowledged, the target user is told, and every other user with a row in the group, whatever its role, gets the message when its registered session is open |
| ChatHandler.BroadcastAppend | src/main/java/com/example/uniapp_backend/handler/ChatWebSocketHandler.java:520-538 | broadcasting to one more user appends exactly that user's frame |
| ChatHandler.BroadcastRecipients | src/main/java/com/example/uniapp_backend/handler/ChatWebSocketHandler.java:520-538 | a broadcast reaches every registered open session and no other |
| ChatHandler.StaleCloseEvicts | src/main/java/com/example/uniapp_backend/handler/ChatWebSocketHandler.java:665-672 | a user connects again and then the older session closes: the newer session stays open, but the user no longer counts as online, because the close removed the newer entry |
| ChatHandler.WebSocketHandler.GetOnlineUserCount | src/main/java/com/example/uniapp_backend/handler/ChatWebSocketHandler.java:679-681 | the count is the number of registered users; it is at least the number of users `isUserOnline` holds for, and equal to it exactly when every registered session is still open |
| ChatHandler.WebSocketHandler.OnlineIffReachable | src/main/java/com/example/uniapp_backend/handler/ChatWebSocketHandler.java:683-687 | `isUserOnline` holds exactly when a frame sent to the user through the registry is delivered |
| ChatHandler.WebSocketHandler.Send | src/main/java/com/example/uniapp_backend/handler/ChatWebSocketHandler.java:541-553 | a frame reaches the outbox exactly when its session is open; a write to a closed session is lost and changes nothing |
| ChatHandler.WebSocketHandler.SendToUser | src/main/java/com/example/uniapp_backend/handler/ChatWebSocketHandler.java:610-617 | the outbox grows by exactly the frame delivered to the user's registered open session |
| ChatHandler.WebSocketHandler.SendConversationList | src/main/java/com/example/uniapp_backend/handler/ChatWebSocketHandler.java:572-592 | the user's session receives exactly that user's conversation rows |
| ChatHandler.WebSocketHandler.AfterConnectionEstablished | src/main/java/com/example/uniapp_backend/handler/ChatWebSocketHandler.java:48-64 | an authenticated session replaces its user's entry, is greeted with a system frame and then the conversation list, and the user is online; any other session is closed and nothing is registered |
| ChatHandler.WebSocketHandler.AfterConnectionClosed | src/main/java/com/example/uniapp_backend/handler/ChatWebSocketHandler.java:665-672 | the authenticated user's entry is removed, whichever session it holds |
| ChatHandler.WebSocketHandler.HandleTransportError | src/main/java/com/example/uniapp_backend/handler/ChatWebSocketHandler.java:655-663 | the same removal on a transport error |
| ChatHandler.WebSocketHandler.SendGroupMessage | src/main/java/com/example/uniapp_backend/handler/ChatWebSocketHandler.java:456-491 | the outbox grows by the group fan-out over the group's member rows, in row order |
| ChatHandler.WebSocketHandler.BroadcastToAllOnlineUsers | src/main/java/com/example/uniapp_backend/handler/ChatWebSocketHandler.java:520-538 | every registered user is visited exactly once, and the outbox grows by the broadcast in that order |
| ChatHandler.WebSocketHandler.AnnounceSent | src/main/java/com/example/uniapp_backend/handler/ChatWebSocketHandler.java:251-262 | the frames after a save: the acknowledgement, then the target's notice, then the group fan-out |
| ChatHandler.WebSocketHandler.HandleSendMessage | src/main/java/com/example/uniapp_backend/handler/ChatWebSocketHandler.java:172-269 | a refused request stores nothing and tells the sender why; an accepted one is saved under a fresh id and announced |
| ChatHandler.WebSocketHandler.HandleRecallMessage | src/main/java/com/example/uniapp_backend/handler/ChatWebSocketHandler.java:273-314 | the recall UPDATE runs; if it hit the caller's own message the notice is broadcast to every registered session and then acknowledged, otherwise the caller is refused |
| ChatHandler.WebSocketHandler.HandleCreateGroup | src/main/java/com/example/uniapp_backend/handler/ChatWebSocketHandler.java:318-356 | a valid request creates the group (500 seats, count 1) with the caller as OWNER and answers with the group and the conversation list; a refused one changes nothing |
| ChatHandler.WebSocketHandler.HandleJoinGroup | src/main/java/com/example/uniapp_backend/handler/ChatWebSocketHandler.java:360-392 | a new MEMBER row and a recount, or "already a member" with nothing changed |
| ChatHandler.WebSocketHandler.HandleMarkAsRead | src/main/java/com/example/uniapp_backend/handler/ChatWebSocketHandler.java:396-419 | the caller's own conversation row gets unread 0 and the list is resent; a missing or ambiguous row is reported and nothing changes |
| ChatHandler.WebSocketHandler.HandleSetTop | src/main/java/com/example/uniapp_backend/handler/ChatWebSocketHandler.java:423-453 | the pin flag is set on the caller's own row only, or the failure is reported |
| ChatHandler.WebSocketHandler.HandleTextMessage | src/main/java/com/example/uniapp_backend/handler/ChatWebSocketHandler.java:68-125 | a heartbeat or a refusal writes one frame to the session and touches no table; each command has its handler's effect for the authenticated user and leaves the other tables alone |
| ChatHandler.WebSocketHandler.RunCommand | src/main/java/com/example/uniapp_backend/handler/ChatWebSocketHandler.java:95-116 | each command type has exactly its handler's effect, and the tables that handler does not use stay as they were |
| Envelope.StringField | src/main/java/com/example/uniapp_backend/handler/ChatWebSocketHandler.java:82 | `(String)` yields null exactly for a missing or null value, a string exactly for a JSON string, and throws otherwise |
| Envelope.BoolField | src/main/java/com/example/uniapp_backend/handler/ChatWebSocketHandler.java:431 | `(Boolean)` yields null exactly for a missing or null value, a boolean exactly for a JSON boolean, and throws otherwise |
| Envelope.IntegerLiteralAsLong | src/main/java/com/example/uniapp_backend/handler/ChatWebSocketHandler.java:202 | an integer literal converts exactly when it fits in a long; a larger one is malformed, never truncated |
| Envelope.StringAndBoolAsLong | src/main/java/com/example/uniapp_backend/handler/ChatWebSocketHandler.java:282 | a string id converts as `Long.parseLong` reads it; a boolean never converts |
| JavaText.ParseDecimalString | src/main/java/com/example/uniapp_backend/handler/ChatWebSocketHandler.java:202 | parsing the decimal text of a number gives the number back when it fits in a long, and fails otherwise |
| JavaText.BlankIffAllSpace | src/main/java/com/example/uniapp_backend/handler/ChatWebSocketHandler.java:185 | `trim().isEmpty()` holds exactly when every character is at most U+0020 |
| JavaText.ToUpper | src/main/java/com/example/uniapp_backend/handler/ChatWebSocketHandler.java:239 | upper-casing keeps the length and maps each ASCII letter to its capital |
| JavaText.Split | src/main/java/com/example/uniapp_backend/handler/ChatWebSocketHandler.java:133 | no piece of `split("&")` contains the separator |
| JavaText.JoinPieces | src/main/java/com/example/uniapp_backend/handler/ChatWebSocketHandler.java:133 | joining all the pieces with the separator gives the query string back |
| JavaText.SplitIsPiecesLessTrailingEmpty | src/main/java/com/example/uniapp_backend/handler/ChatWebSocketHandler.java:133 | `split` returns the pieces in order and drops only empty pieces at the end; the empty string splits into itself |
| Messages.ParseMessageType | src/main/java/com/example/uniapp_backend/entity/Message.java:112-114 | `valueOf` returns the constant whose name is exactly the string, and refuses a string that names no constant |
| Messages.ParseTypeName | src/main/java/com/example/uniapp_backend/entity/Message.java:112-114 | every constant's own name parses back to it |
| Messages.NewMessage | src/main/java/com/example/uniapp_backend/entity/Message.java:30-44 | a new message is unread, not recalled, and TEXT unless a type is set |
| Messages.MessageStore.SaveMessage | src/main/java/com/example/uniapp_backend/service/MessageService.java:22-24 | the row is appended under a fresh identity value, and ids stay distinct |
| Messages.MessageStore.GetUnreadCount | src/main/java/com/example/uniapp_backend/repository/MessageRepository.java:25-26 | the count is zero exactly when no row of the conversation addressed to the receiver is unread |
| Messages.UnreadCount | src/main/java/com/example/uniapp_backend/repository/MessageRepository.java:25-26 | the count is at most the number of rows, and zero exactly when no row of the conversation addressed to the user is unread |
| Messages.MessageStore.MarkConversationAsRead | src/main/java/com/example/uniapp_backend/repository/MessageRepository.java:30-31 | the table becomes the bulk UPDATE's result, after which the pair has no unread message |
| Messages.MessageStore.RecallMessage | src/main/java/com/example/uniapp_backend/service/MessageService.java:49-53 | the table becomes the recall UPDATE's result; success exactly when some row has that id and that sender |
| Messages.HitsSome | src/main/java/com/example/uniapp_backend/repository/MessageRepository.java:34-36 | the UPDATE reports a touched row exactly when some row has the message id and the sender |
| Messages.MarkedReadHasNoUnread | src/main/java/com/example/uniapp_backend/repository/MessageRepository.java:30-31 | after marking, the pair's unread count is zero |
| Messages.MarkIdempotent | src/main/java/com/example/uniapp_backend/repository/MessageRepository.java:30-31 | marking twice is marking once |
| Messages.MarkTouchesOnlyPair | src/main/java/com/example/uniapp_backend/repository/MessageRepository.java:30-31 | a row changes exactly when it is an unread row of the pair, and only in `isRead` |
| Messages.MarkKeepsOtherCounts | src/main/java/com/example/uniapp_backend/repository/MessageRepository.java:30-31 | marking one pair leaves every other pair's unread count |
| Messages.SaveAddsUnread | src/main/java/com/example/uniapp_backend/repository/MessageRepository.java:25-26 | a saved message adds one to its own pair's unread count and nothing to any other pair's |
| Messages.RecallTouchesOnlyTarget | src/main/java/com/example/uniapp_backend/repository/MessageRepository.java:35-36 | recall changes only the row with that id and sender, setting the flag and the time |
| Messages.RecallAgain | src/main/java/com/example/uniapp_backend/repository/MessageRepository.java:35-36 | a second recall by the sender succeeds again, and its time replaces the first |
| Messages.RecallKeepsUnread | src/main/java/com/example/uniapp_backend/repository/MessageRepository.java:35-36 | recall leaves every unread count as it was |
| Conversations.PrivateIdSymmetric | src/main/java/com/example/uniapp_backend/service/ConversationService.java:99 | the private conversation id does not depend on which user asks |
| Conversations.PrivateIdInjective | src/main/java/com/example/uniapp_backend/service/ConversationService.java:99 | different pairs of long ids get different private ids |
| Conversations.PrivateIsNotGroup | src/main/java/com/example/uniapp_backend/service/ConversationService.java:99 | a private id is never a group id |
| Conversations.GroupIdInjective | src/main/java/com/example/uniapp_backend/service/ConversationService.java:188 | different groups get different conversation ids |
| Conversations.UserNameInjective | src/main/java/com/example/uniapp_backend/service/ConversationService.java:141-145 | different users get different placeholder names |
| Conversations.UserConversations | src/main/java/com/example/uniapp_backend/service/ConversationService.java:29-51 | the list holds exactly the user's own rows |
| Conversations.ConversationStore.MarkAsRead | src/main/java/com/example/uniapp_backend/service/ConversationService.java:55-68 | the caller's own row gets unread 0; no row gives "对话不存在"; several rows give the uniqueness failure; nothing else changes |
| Conversations.ConversationStore.SetTop | src/main/java/com/example/uniapp_backend/service/ConversationService.java:82-95 | the flag is set on the caller's own row only, with the same failures |
| Conversations.ConversationStore.DeleteConversation | src/main/java/com/example/uniapp_backend/service/ConversationService.java:72-78 | only the caller's own row is removed, with the same failures |
| Conversations.ConversationStore.GetOrCreatePrivateConversation | src/main/java/com/example/uniapp_backend/service/ConversationService.java:98-138 | the canonical id is returned; the two rows are created only when no row carries that id |
| Conversations.ConversationStore.UpdateLastMessage | src/main/java/com/example/uniapp_backend/service/ConversationService.java:149-161 | every row of the conversation gets the message, and every row but the sender's gets one more unread |
| Conversations.ConversationStore.GetTotalUnreadCount | src/main/java/com/example/uniapp_backend/service/ConversationService.java:170-173 | the total is non-negative when every count is, and 0 for a user without rows |
| Conversations.ConversationStore.CreateGroupConversation | src/main/java/com/example/uniapp_backend/service/ConversationService.java:187-205 | one row per listed id, appended in list order |
| Conversations.ConversationStore.AddUserToGroupConversation | src/main/java/com/example/uniapp_backend/service/ConversationService.java:209-232 | the user's row is added, counting the rows already there plus one, unless it exists |
| Conversations.ConversationStore.RemoveUserFromGroupConversation | src/main/java/com/example/uniapp_backend/service/ConversationService.java:236-253 | the user's row is removed and every remaining row of the group then agrees with the number of remaining rows |
| Conversations.ConversationStore.SetMemberCount | src/main/java/com/example/uniapp_backend/service/ConversationService.java:247-251 | every row of the conversation gets the new member count |
| Conversations.ConversationStore.UpdateGroupConversation | src/main/java/com/example/uniapp_backend/service/ConversationService.java:257-272 | each non-null value is copied onto every row of the group, and other rows are untouched |
| Conversations.TotalUnreadBounds | src/main/java/com/example/uniapp_backend/repository/ConversationRepository.java:31-32 | the sum is non-negative over non-negative counts, and 0 with no rows of the user |
| Conversations.PrivateCreationIdempotent | src/main/java/com/example/uniapp_backend/service/ConversationService.java:98-109 | once the private rows exist, asking again, in the same order or the other, at any time and with any id counter, adds nothing |
| Conversations.PrivateCreationRows | src/main/java/com/example/uniapp_backend/service/ConversationService.java:112-138 | a first contact creates exactly two rows, one per user, each pointing at the other, unread 0 and not pinned |
| Conversations.NewMessageUnread | src/main/java/com/example/uniapp_backend/service/ConversationService.java:149-161 | a new message raises a user's total unread by that user's rows in the conversation, and leaves the sender's total |
| Conversations.MarkReadLowersTotal | src/main/java/com/example/uniapp_backend/service/ConversationService.java:55-62 | zeroing one row lowers its owner's total by that row's count, and no one else's |
| Conversations.RecountAgrees | src/main/java/com/example/uniapp_backend/service/ConversationService.java:236-253 | recounting with the number of rows makes every row of the conversation agree |
| Conversations.GroupRowsShape | src/main/java/com/example/uniapp_backend/service/ConversationService.java:187-205 | each group row belongs to its listed member, carries the group id and counts the whole list |
| Groups.NewGroup | src/main/java/com/example/uniapp_backend/entity/ChatGroup.java:22-25 | a new group has 500 seats and a member count of 1 |
| Groups.RemovalPermitted | src/main/java/com/example/uniapp_backend/service/ChatGroupService.java:105-109 | an owner may remove anyone, itself included; an admin may remove a plain member other than itself; nobody else may remove anyone |
| Groups.GroupStore.CreateGroup | src/main/java/com/example/uniapp_backend/service/ChatGroupService.java:24-36 | the group is saved under a fresh id with its creator as sole OWNER row; cached counts stay right for a new id |
| Groups.GroupStore.UpdateMemberCount | src/main/java/com/example/uniapp_backend/service/ChatGroupService.java:120-128 | an existing group takes the number of its membership rows |
| Groups.GroupStore.AddGroupMember | src/main/java/com/example/uniapp_backend/service/ChatGroupService.java:78-92 | an existing (group, user) row is refused; otherwise the row is added and counted; cached counts stay right |
| Groups.GroupStore.RemoveGroupMember | src/main/java/com/example/uniapp_backend/service/ChatGroupService.java:95-117 | nothing happens when operator or target is missing; a permitted removal deletes the target's rows and recounts; otherwise it is refused; cached counts stay right |
| Groups.GroupStore.DeleteGroup | src/main/java/com/example/uniapp_backend/service/ChatGroupService.java:60-75 | only the creator may delete; the group and all its membership rows go |
| Groups.GroupStore.GetGroupMembers | src/main/java/com/example/uniapp_backend/service/ChatGroupService.java:131-133 | exactly the group's rows, as many as the count query gives |
| Groups.GroupStore.IsGroupMember | src/main/java/com/example/uniapp_backend/service/ChatGroupService.java:136-138 | true exactly when a row links the user to the group |
| Groups.IsMember | src/main/java/com/example/uniapp_backend/repository/GroupMemberRepository.java:22 | `existsByGroupIdAndUserId` holds exactly when some row links the user to the group |
| Groups.WithCount | src/main/java/com/example/uniapp_backend/service/ChatGroupService.java:120-128 | only an existing group's cached count changes, to its number of rows; every other group and every other field stays |
| Groups.RecountRestoresAgreement | src/main/java/com/example/uniapp_backend/service/ChatGroupService.java:120-128 | recounting the one group whose rows changed makes every cached count agree with the table again |
| Groups.CountAppendOne | src/main/java/com/example/uniapp_backend/repository/GroupMemberRepository.java:28-29 | adding a row changes only its own group's count, by one |
| Groups.CountDeleteMember | src/main/java/com/example/uniapp_backend/repository/GroupMemberRepository.java:25 | removing a user's rows from one group leaves every other group's count |
| Groups.RemovalKeepsOthers | src/main/java/com/example/uniapp_backend/repository/GroupMemberRepository.java:25 | after a removal the user is no longer a member, and every other membership stays |
| Groups.EarlyJoinMiscounts | src/main/java/com/example/uniapp_backend/service/ChatGroupService.java:24-36 | running `addGroupMember` on the next group id and then `createGroup` leaves the new group reporting one member while two rows name it, so cached counts no longer agree with the table |
| Contacts.FriendRequestCheck | src/main/java/com/example/uniapp_backend/service/ContactService.java:59-83 | an accepted request names an existing user other than the sender, not already a friend, with no pending request from the sender; an unknown name is "用户不存在" |
| Contacts.HandleCheck | src/main/java/com/example/uniapp_backend/service/ContactService.java:111-129 | only the addressee may decide, and only a pending request; a null id is refused |
| Contacts.OwnedContact | src/main/java/com/example/uniapp_backend/service/ContactService.java:188-201 | a contact is found exactly when it exists and belongs to the caller; a null id is refused |
| Contacts.SearchUsers | src/main/java/com/example/uniapp_backend/service/ContactService.java:254-260 | exactly the users other than the caller whose username or nickname contains the keyword |
| Contacts.ContactService.GetUserContacts | src/main/java/com/example/uniapp_backend/service/ContactService.java:40-55 | exactly the caller's contacts in normal status |
| Contacts.ContactService.GetPendingFriendRequestCount | src/main/java/com/example/uniapp_backend/service/ContactService.java:352-354 | zero exactly when no pending request is addressed to the user |
| Contacts.ContactService.SendFriendRequest | src/main/java/com/example/uniapp_backend/service/ContactService.java:59-107 | a request passing the checks is stored pending under a fresh id; otherwise nothing changes |
| Contacts.ContactService.HandleFriendRequest | src/main/java/com/example/uniapp_backend/service/ContactService.java:111-151 | accepting marks the request accepted, adds the two mirror contacts and creates the private conversation; rejecting only marks it rejected; a refused decision changes nothing |
| Contacts.ContactService.ApplyDecision | src/main/java/com/example/uniapp_backend/service/ContactService.java:129-150 | accepting sets status 1, appends the two mirror contacts under fresh ids and creates the private conversation; rejecting sets status 2 and adds nothing |
| Contacts.ContactService.UpdateContact | src/main/java/com/example/uniapp_backend/service/ContactService.java:188-214 | each non-null field overwrites the caller's own contact |
| Contacts.ContactService.DeleteContact | src/main/java/com/example/uniapp_backend/service/ContactService.java:218-234 | a soft delete: the caller's own contact gets status 3 |
| Contacts.ContactService.BlockContact | src/main/java/com/example/uniapp_backend/service/ContactService.java:238-251 | the caller's own contact gets status 2 |
| Contacts.ContactService.MoveContactToGroup | src/main/java/com/example/uniapp_backend/service/ContactService.java:336-349 | the group name is copied onto the caller's own contact as given |
| Contacts.ContactService.SendMessageToContact | src/main/java/com/example/uniapp_backend/service/ContactService.java:264-287 | only a normal contact of one's own; the private conversation then exists and its id is returned |
| Contacts.ContactService.CreateContactGroup | src/main/java/com/example/uniapp_backend/service/ContactService.java:291-304 | one group name per user: a taken name is refused, and names stay unique |
| Contacts.ContactService.DeleteContactGroup | src/main/java/com/example/uniapp_backend/service/ContactService.java:313-332 | only the owner may delete, and only a group without normal contacts |
| Contacts.FriendsCannotRequestAgain | src/main/java/com/example/uniapp_backend/service/ContactService.java:73-77 | once accepted, neither friend can request the other again |
| Contacts.DecidedOnce | src/main/java/com/example/uniapp_backend/service/ContactService.java:124-127 | a decided request cannot be decided again |
| Contacts.DecisionLowersPending | src/main/java/com/example/uniapp_backend/service/ContactService.java:352-354 | deciding a request takes exactly one off the addressee's pending count |
| Contacts.MutualContactsMirror | src/main/java/com/example/uniapp_backend/service/ContactService.java:154-168 | accepting creates one normal contact in each direction, in the default group |
| Contacts.MutualKeepsIds | src/main/java/com/example/uniapp_backend/service/ContactService.java:154-168 | the two mirror contacts keep contact ids distinct and below the advanced id counter |
| Contacts.Patched | src/main/java/com/example/uniapp_backend/service/ContactService.java:203-211 | an update keeps the contact's id, owner and friend; each non-null field takes the given value, and with no field set the contact is unchanged |
| Contacts.StatusChangeHidesContact | src/main/java/com/example/uniapp_backend/service/ContactService.java:40-55 | a blocked or deleted contact keeps its row but leaves its owner's list |
| AuthFilter.ClaimAttributes | src/main/java/com/example/uniapp_backend/config/JwtAuthenticationFilter.java:79-97 | every valid token sets id, type and username; an ADMIN token adds the admin attributes; any other adds `userId` |
| AuthFilter.PreflightIgnoresCase | src/main/java/com/example/uniapp_backend/config/JwtAuthenticationFilter.java:53-56 | a request is a preflight exactly when its method equals "OPTIONS" ignoring case |
| AuthFilter.PublicPathExtends | src/main/java/com/example/uniapp_backend/config/JwtAuthenticationFilter.java:59-61 | public matching is by prefix: every path below a public path is public |
| AuthFilter.SkippedPathExtends | src/main/java/com/example/uniapp_backend/config/JwtAuthenticationFilter.java:152-159 | every path below an excluded static path skips the filter too |
| AuthFilter.ErrorBodyReadsBack | src/main/java/com/example/uniapp_backend/config/JwtAuthenticationFilter.java:134-149 | the body starts with the code field, whose text reads back as the status code, and carries the message verbatim just before the closing brace |
| AuthFilter.Decide | src/main/java/com/example/uniapp_backend/config/JwtAuthenticationFilter.java:43-129 | OPTIONS and public paths pass; a missing or non-Bearer header, an invalid token and a failing claim read give 401; a token without id gives 401; a non-admin under `/api/admin/` gets 403; passing happens exactly when an id is present and the admin rule holds |
| AuthFilter.HttpExchange.SendError | src/main/java/com/example/uniapp_backend/config/JwtAuthenticationFilter.java:134-149 | the status and the JSON error body are written |
| AuthFilter.HttpExchange.SetClaimAttributes | src/main/java/com/example/uniapp_backend/config/JwtAuthenticationFilter.java:79-97 | the request gains exactly the claim attributes |
| AuthFilter.HttpExchange.DoFilterInternal | src/main/java/com/example/uniapp_backend/config/JwtAuthenticationFilter.java:43-129 | the attributes, the chain call and the status and body follow the decision |
| AuthFilter.HttpExchange.DoFilter | src/main/java/com/example/uniapp_backend/config/JwtAuthenticationFilter.java:152-159 | excluded static paths go down the chain untouched; others follow the decision |
| AuthFilter.PassNeedsCredentials | src/main/java/com/example/uniapp_backend/config/JwtAuthenticationFilter.java:70-128 | past the OPTIONS and public exits, only a valid Bearer token with an id passes, and under `/api/admin/` only an ADMIN one |
| AuthFilter.PrefixMakesPublic | src/main/java/com/example/uniapp_backend/config/JwtAuthenticationFilter.java:22-40 | example for one input: public matching is by prefix, so "/debug-raw" is public |
| AuthFilter.AdminUsersNotPublic | src/main/java/com/example/uniapp_backend/config/JwtAuthenticationFilter.java:22-40 | example for one input: `/api/admin/users` starts with none of the public prefixes |
| AuthFilter.AdminLoginIsPublic | src/main/java/com/example/uniapp_backend/config/JwtAuthenticationFilter.java:22-40 | example for one input: the admin login is public, while another admin path refuses a USER token with 403 |
| Accounts.User.constructor | src/main/java/com/example/uniapp_backend/entity/User.java:74-79 | a new user has balance 0, status 1, creation stamps now, and is active |
| Accounts.User.WithProfile | src/main/java/com/example/uniapp_backend/entity/User.java:81-86 | the profile constructor sets the given fields and the same defaults |
| Accounts.User.OnCreate | src/main/java/com/example/uniapp_backend/entity/User.java:89-103 | each null timestamp, balance or status gets its default, and set fields stay; afterwards the user is active exactly when its status was null or 1 |
| Accounts.User.DeductBalance | src/main/java/com/example/uniapp_backend/entity/User.java:173-179 | it succeeds exactly when the balance suffices, subtracts the amount and stays non-negative; otherwise nothing changes |
| Accounts.User.AddBalance | src/main/java/com/example/uniapp_backend/entity/User.java:181-188 | only a positive amount is added, a null balance counting as zero; the balance never decreases |
| Accounts.OnlineWindowBounds | src/main/java/com/example/uniapp_backend/entity/User.java:163-166 | a user is online from the moment last seen until five minutes later, and offline from then on |
| Accounts.OnlineMonotone | src/main/java/com/example/uniapp_backend/entity/User.java:163-166 | a user seen later than an online user is online too |

## Left out

- Transport and serialisation: frames are values, not JSON text. Timestamps
  in frames are dropped, and so is `createMessageInfo`'s lower-case type
  text.
- Concurrency: the handler's map is a `ConcurrentHashMap`, but the model
  runs one event at a time.
- Logging: every console line is dropped.
- Signature, expiry and claim parsing of tokens: this is `JwtTokenUtil`,
  which is not part of this model. It is replaced by the `Verifier` map.
- Integer widths: `unreadCount`, the `SUM` of counts and the
  `intValue()` of the member count are unbounded here, so overflow is not
  modelled.
- `ORDER BY` clauses: list order is the table's order.
- SQL `LIKE` is read as plain substring search, without wildcards in the
  keyword and without collation.
- Display fields that are filled on read (contact and request enrichment) are
  dropped, as are file attachment fields.
- Group member row ids and join times are dropped.
- ChatHandler.CauseText: the JVM's message for a failed cast or a null
  dereference is replaced by the exception's name.
- ChatHandler.ReasonText: the malformed-frame error omits the parser's own
  exception text that follows "消息格式错误: ".
- ChatHandler.WebSocketHandler.GetUserIdFromSession: a session without a URI
  is not modelled. The catch-all around it returns null, and that null
  matches the `None` query.
- JavaText.ParseLong: only the ASCII digits 0-9 are read. `Long.parseLong`
  also accepts other Unicode decimal digits (for example U+FF13 or U+0663);
  such input is refused here.
- ChatHandler.UserIdScanFirst: a `userId=` value written with non-ASCII
  decimal digits is skipped here, while `Long.parseLong` would accept it.
- Envelope.StringAndBoolAsLong: a string id written with non-ASCII decimal
  digits is refused here, while `Long.valueOf` would accept it.
- Conversations.FailureText and Groups.ErrorText: the persistence library's
  "query did not return a unique result" message also gives the number of
  rows, and its wording depends on the library version. The model keeps only
  the fixed leading text.
- JavaText.ToUpper: only ASCII letters are mapped. Locale-dependent and
  non-ASCII case mappings are not modelled.
- The handlers' `messageData == null` branches are unreachable, because
  `handleTextMessage` has already read the map. They are not modelled.
- The "消息保存失败" branch is unreachable, because `save` never returns
  null.
- Accounts.User.DeductBalance: `BigDecimal` is modelled as exact `real`
  arithmetic, without scale.
- Contacts.ContactService.CreateContactGroup: a null group name is not
  modelled; the name is a string.
- Contacts.ContactService.HandleFriendRequest: a failure inside the
  conversation service is swallowed by the source. The model's conversation
  service cannot fail there.
- Read-only service methods outside the core's paths (paged message history,
  group and conversation listings by other keys) are not modelled.
