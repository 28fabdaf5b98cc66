# NetTalk core, modelled in Dafny

NetTalk is a LAN chat program with two halves: a TCP relay (`SocketService`), and a Swing client (`MainView`, `ChatPanel`, `MessageBubble`, the settings dialog). Messages for users who are offline are kept in a `message` table and served on request (`MessageDAO`, `OfflineMessageService`).

This project models:

- the relay's line protocol and per-connection state;
- the client's dispatch and user-list bookkeeping;
- the offline-message table and the service over it;
- the chat panel's rows and the bubble's line-breaking and size arithmetic;
- the configuration store and the settings dialog;
- login and registration;
- the translator's language names.

It then proves properties of all of these, and proves that each line one side writes is read by the other side as what was meant.

Modules, one per file:

| file | module | models |
|---|---|---|
| `java_text.dfy` | `JavaText` | the Java `String`, `Long` and `Integer` operations the code relies on |
| `users.dfy` | `UserStore` | the `user` table lookups of `UserDAO` |
| `message.dfy` | `MessageModel` | `Message`: constructors, `equals`, `hashCode` |
| `message_dao.dfy` | `MessageDao` | `MessageDAO` over an in-memory row table (class `MessageTable`) |
| `offline_service.dfy` | `OfflineService` | `OfflineMessageService` |
| `socket_service.dfy` | `Relay` | `SocketService`: encoders, dispatch, class `SocketService` |
| `main_view.dfy` | `ClientView` | `MainView`: dispatch, payload parsing, class `MainView` |
| `protocol.dfy` | `WireProtocol` | end-to-end lemmas joining `Relay` and `ClientView` |
| `message_bubble.dfy` | `Bubble` | `MessageBubble` |
| `chat_panel.dfy` | `Panel` | `ChatPanel` (class `ChatPanel`) |
| `settings.dfy` | `Config` | `Settings` (classes `Settings`, `SettingsSingleton`) |
| `settings_view.dfy` | `SettingsDialog` | `SettingsView` (class `SettingsView`) |
| `auth_controller.dfy` | `Auth` | `AuthController` (class `AuthController`) |
| `ai_service.dfy` | `Translation` | `AIService.getLanguageName` and the system prompt |

Inputs from outside the program become parameters:

- Each connection's input lines, and whether each database call fails. Every DAO call opens its own connection, so each call has its own flag (`sqlError`, `lookupDown`, `insertDown`, and the fields of `Relay.DbFaults` for one relay step).
- The current day (`today`) and the clock's `yyyy-MM-dd HH:mm` timestamp.
- The font's character advance widths (`cw`) and line height.
- The contents of `config.properties`, and whether reading or writing it fails.
- The order in which a `HashMap` yields its keys.

Lines written to a connection are collected per connection in `outbox`. Calls the settings dialog makes on its relay are recorded in `serverCalls`.

## Model

| member | source | states |
|---|---|---|
| JavaText.SplitFirst | src/main/java/com/example/service/SocketService.java:274-275 | `split(c, 2)`: with no separator, the one piece is the whole string; otherwise two pieces that join back to the string, with no separator in the first |
| JavaText.SplitFirstSeq | src/main/java/com/example/view/MainView.java:497-499 | `split(": ", 2)`: the same for a two-character separator; the first piece holds no separator |
| JavaText.JavaSplit | src/main/java/com/example/view/MainView.java:946-948 | `split(c)` of a string without the separator is the string alone |
| JavaText.Pieces | src/main/java/com/example/view/MainView.java:946-948 | at least one piece, none holding the separator |
| JavaText.DropTrailingEmpty | src/main/java/com/example/view/MainView.java:946-948 | a prefix of the pieces ending in a non-empty one, and only empty pieces are dropped |
| JavaText.JoinOfPieces | src/main/java/com/example/view/MainView.java:946-948 | the pieces between separators, joined back with the separator, give the string |
| JavaText.JavaSplitJoinBack | src/main/java/com/example/view/MainView.java:946-948 | the `split(c)` pieces joined back with `c` are a prefix of the string, and what follows is separators only |
| JavaText.SplitDropsRun | src/main/java/com/example/view/MainView.java:946-948 | with a separator present, the string is the joined `split(c)` pieces followed by some number of separators |
| JavaText.JavaSplitOfJoin | src/main/java/com/example/service/SocketService.java:238-247 | splitting a join of separator-free pieces, whose last piece is non-empty, gives the pieces back |
| JavaText.Trim | src/main/java/com/example/view/SettingsView.java:181-182 | `trim()`: no longer than the string, and no character `<= ' '` at either end of a non-empty result |
| JavaText.TrimIsSlice | src/main/java/com/example/view/SettingsView.java:181-182 | `trim()` removes only a prefix and a suffix of characters `<= ' '` and keeps the middle as it is |
| JavaText.LongToString | src/main/java/com/example/service/SocketService.java:246 | `Long.toString` holds no `:`, `,` or newline, so it never breaks a protocol split |
| JavaText.ParseLong | src/main/java/com/example/service/SocketService.java:118 | `Long.parseLong`: a result exactly for an optional `+` or `-` followed by ASCII digits whose value fits in 64 bits, and the result is that value |
| JavaText.ParseInt | src/main/java/com/example/model/Settings.java:59 | `Integer.parseInt`: a result exactly for an optional `+` or `-` followed by ASCII digits whose value fits in 32 bits, and the result is that value |
| JavaText.ParseSigned | src/main/java/com/example/service/SocketService.java:118 | a result only for a numeral, within the bounds, negative only after `-`; digits alone, or after a sign, give their value when it is in range |
| JavaText.SignedValueParses | src/main/java/com/example/service/SocketService.java:118 | parsing succeeds exactly on the numerals whose value is in range, and returns that value |
| JavaText.ParseLongOfLongToString | src/main/java/com/example/service/SocketService.java:118 | every `long` the relay writes parses back to itself |
| JavaText.ParseIntOfLongToString | src/main/java/com/example/model/Settings.java:58-75 | every `int` written parses back to itself |
| JavaText.ToLower | src/main/java/com/example/view/MainView.java:1346 | `toLowerCase`: same length, each character lower-cased |
| UserStore.NameById | src/main/java/com/example/dao/UserDAO.java:111-126 | the name of a row with that id; absent exactly when no row has the id |
| UserStore.ByName | src/main/java/com/example/dao/UserDAO.java:43-62 | a row with that name; absent exactly when no row has the name |
| MessageModel.Blank | src/main/java/com/example/model/Message.java:18 | the no-argument constructor leaves every reference null and both flags false |
| MessageModel.Compose | src/main/java/com/example/model/Message.java:20-27 | the three-argument constructor stores its arguments, stamps the given time, and leaves the message unread and undelivered with no id |
| MessageModel.Full | src/main/java/com/example/model/Message.java:29-38 | the seven-argument constructor stores each argument in its field |
| MessageModel.HashCode | src/main/java/com/example/model/Message.java:119-121 | `id.hashCode()`, a 32-bit value, and 0 for a null id |
| MessageModel.LongHash | src/main/java/com/example/model/Message.java:119-121 | `Long.hashCode` (the high half xor the low half, as an `int`) is a 32-bit value |
| MessageModel.HashConsistentWithEquals | src/main/java/com/example/model/Message.java:111-121 | equal messages have equal hash codes |
| MessageModel.NullIdsNeverEqual | src/main/java/com/example/model/Message.java:111-116 | two distinct objects with null ids are never equal |
| MessageModel.EqualsOnlyByIds | src/main/java/com/example/model/Message.java:111-116 | equality of distinct objects depends on the ids alone |
| MessageModel.EqualsSymmetricTransitive | src/main/java/com/example/model/Message.java:111-116 | `equals` is symmetric and transitive |
| MessageModel.HashOfSmallId | src/main/java/com/example/model/Message.java:119-121 | an id in `[0, 2^31)` hashes to itself |
| MessageDao.Select | src/main/java/com/example/dao/MessageDAO.java:51 | a WHERE clause keeps exactly the matching rows |
| MessageDao.SortRows | src/main/java/com/example/dao/MessageDAO.java:51 | `ORDER BY ddate`: a sorted permutation of the rows |
| MessageDao.ToMessage | src/main/java/com/example/dao/MessageDAO.java:257-278 | `createMessageFromResultSet`: each column lands in its field, the date at the start of its day, `isRead` iff `read = 1`, never delivered |
| MessageDao.ToMessages | src/main/java/com/example/dao/MessageDAO.java:59-61 | one message per row, in order |
| MessageDao.CountBySender | src/main/java/com/example/dao/MessageDAO.java:78-90 | `GROUP BY sender COUNT(*)`: a sender is a key exactly when it has rows, mapped to its number of rows |
| MessageDao.CountSenderPositive | src/main/java/com/example/dao/MessageDAO.java:78 | a sender has a positive count exactly when some row is from it |
| MessageDao.UpdateWhereIdIn | src/main/java/com/example/dao/MessageDAO.java:157-171 | `UPDATE ... WHERE _id IN (...)` changes exactly the listed rows and keeps the table's length and order |
| MessageDao.NewRow | src/main/java/com/example/dao/MessageDAO.java:23-35 | an inserted row is unread with a null `reserved` |
| MessageDao.IdsOfSortedSelection | src/main/java/com/example/service/SocketService.java:368-372 | every row a query selects has its id among the ids collected from the result |
| MessageDao.FetchMarkRefetch | src/main/java/com/example/service/SocketService.java:354-372 | after the fetched messages from a sender are marked read, fetching again finds none |
| MessageDao.ProcessLeavesNothingUnread | src/main/java/com/example/dao/MessageDAO.java:133-145 | `processOfflineMessages` leaves the receiver no unread rows |
| MessageDao.DeliveredCommutesWithSelect | src/main/java/com/example/dao/MessageDAO.java:222-249 | marking rows delivered never changes which rows a query selects |
| MessageDao.StoredMessageIsUnread | src/main/java/com/example/dao/MessageDAO.java:22-42 | a stored message is the newest unread row from its sender to its receiver |
| MessageDao.TotalOfCounts | src/main/java/com/example/dao/MessageDAO.java:78-90 | the per-sender counts add up to the number of rows |
| MessageDao.StatsAgreeWithUnread | src/main/java/com/example/dao/MessageDAO.java:49-97 | the statistics name exactly the senders of unread messages, and their counts add up to the number of unread messages |
| MessageDao.MessageTable.constructor | src/main/java/com/example/dao/MessageDAO.java:13 | an empty table whose next id is 1 |
| MessageDao.MessageTable.StoreOfflineMessage | src/main/java/com/example/dao/MessageDAO.java:22-42 | one unread row with the next id is appended, true; on an SQL error nothing changes, false |
| MessageDao.MessageTable.ReadResultSet | src/main/java/com/example/dao/MessageDAO.java:59-61 | the `while (rs.next())` loop builds one message per row, in order |
| MessageDao.MessageTable.GetUnreadMessages | src/main/java/com/example/dao/MessageDAO.java:49-69 | the receiver's unread rows, oldest day first; empty on an SQL error |
| MessageDao.MessageTable.GetOfflineMessagesFromSender | src/main/java/com/example/dao/MessageDAO.java:105-126 | the unread rows from that sender to that receiver, oldest first; empty on an SQL error |
| MessageDao.MessageTable.GetMessageHistory | src/main/java/com/example/dao/MessageDAO.java:188-215 | the newest `limit` rows between the two users, newest first; empty on an SQL error or a negative limit |
| MessageDao.MessageTable.GetOfflineMessageStats | src/main/java/com/example/dao/MessageDAO.java:76-97 | the per-sender count of the receiver's unread rows; empty on an SQL error |
| MessageDao.MessageTable.UpdateListed | src/main/java/com/example/dao/MessageDAO.java:152-179 | a null or empty list is true and changes nothing; otherwise the update of the listed rows, true iff some listed id exists |
| MessageDao.MessageTable.MarkMessagesAsRead | src/main/java/com/example/dao/MessageDAO.java:152-179 | sets `read = 1` on exactly the listed rows |
| MessageDao.MessageTable.MarkMessagesAsDelivered | src/main/java/com/example/dao/MessageDAO.java:222-249 | sets `reserved = 'delivered'` on exactly the listed rows |
| MessageDao.MessageTable.ProcessOfflineMessages | src/main/java/com/example/dao/MessageDAO.java:133-145 | returns the unread messages and marks exactly those read, unless either step fails |
| OfflineService.Sync | src/main/java/com/example/service/OfflineMessageService.java:31-60 | success iff both DAO calls return (a null id succeeds only when both have caught their SQL errors); on success the lists, the stats and the count are the DAO's; on failure none of them |
| OfflineService.SyncCountsAddUp | src/main/java/com/example/service/OfflineMessageService.java:41-45 | a successful sync's statistics add up to its total unread count |
| OfflineService.Store | src/main/java/com/example/service/OfflineMessageService.java:69-81 | stored iff both ids are non-null and the insert succeeds; then exactly one row is appended |
| OfflineService.MarkRead | src/main/java/com/example/service/OfflineMessageService.java:88-100 | a null list is false (the size is printed first); otherwise the DAO's result and update |
| OfflineService.FromSender | src/main/java/com/example/service/OfflineMessageService.java:108-121 | the DAO's list, empty for a null id or a failure |
| OfflineService.GetUserName | src/main/java/com/example/service/OfflineMessageService.java:128-141 | the stored name when present and non-empty, else `"User" + id`; never empty |
| OfflineService.ReadMarkReread | src/main/java/com/example/service/SocketService.java:354-372 | reading a sender's offline messages, then marking them read, leaves none to read again |
| Relay.ServerPort | src/main/java/com/example/service/SocketService.java:35 | the given port when positive, else 8888 |
| Relay.DiscoveryReplyRoundTrip | src/main/java/com/example/service/SocketService.java:74-78 | a reply comes only for exactly `DISCOVER_SERVER`, and it splits back into the address and the port |
| Relay.SplitAtOnlyColon | src/main/java/com/example/view/MainView.java:1445 | `a + ":" + b` with no colon in `a` splits into `a` and `b` |
| Relay.DisplayName | src/main/java/com/example/service/SocketService.java:121-124 | the stored name unless it is missing or empty, then `"User<id>"`; never empty |
| Relay.OfflineMsgLines | src/main/java/com/example/service/SocketService.java:362-365 | one `OFFLINE_MSG` line per message, in order |
| Relay.SplitIdPayload | src/main/java/com/example/service/SocketService.java:272-278 | a payload without a colon is ignored; otherwise the head before the first colon parses as the id (or throws) and the rest is the text |
| Relay.PrivateMessageDecodes | src/main/java/com/example/service/SocketService.java:145-147 | a client's `PM:<id>:<content>` is classified as a private message for that id with that content |
| Relay.OfflineRequestDecodes | src/main/java/com/example/service/SocketService.java:148-150 | `GET_OFFLINE_MSG:<id>` is classified as an offline request and, after `substring(15)` and the colon strip, yields that id |
| Relay.BroadcastExcludes | src/main/java/com/example/service/SocketService.java:256-260 | a broadcast that excludes an id leaves that id's connection untouched and adds the line to every other open writer |
| Relay.LeaverNotReached | src/main/java/com/example/service/SocketService.java:162-167 | after a leaver is removed, the `USER_LEFT` broadcast does not reach the leaver's connection |
| Relay.BroadcastStep | src/main/java/com/example/service/SocketService.java:256-260 | each iteration of a broadcast loop adds exactly one recipient |
| Relay.WriteAllAppends | src/main/java/com/example/service/SocketService.java:190 | writing nothing changes nothing, and two writes append both, in order |
| Relay.LoginStats | src/main/java/com/example/service/SocketService.java:313-331 | statistics are sent only when the unread query succeeded with a non-empty list; they are then the DAO's statistics, or none when the statistics query alone failed |
| Relay.BroadcastLoop | src/main/java/com/example/service/SocketService.java:256-260 | the loop over the writers leaves the outbox equal to the broadcast to every writer except the excluded one |
| Relay.CloseAll | src/main/java/com/example/service/SocketService.java:213-215 | after the shutdown loop every online user's socket is closed, and no other |
| Relay.BuildUserList | src/main/java/com/example/service/SocketService.java:235-249 | the `StringBuilder` loop yields `USER_LIST:` and the comma-joined entries of one enumeration of the online ids |
| Relay.WriteStats | src/main/java/com/example/service/SocketService.java:321-327 | the loop writes one `OFFLINE_STAT` line per key of the statistics, in iteration order |
| Relay.WriteOfflineLines | src/main/java/com/example/service/SocketService.java:362-365 | the loop writes one `OFFLINE_MSG` line per message, in order |
| Relay.CollectIds | src/main/java/com/example/service/SocketService.java:368-371 | the loop collects the messages' ids, in order |
| Relay.SocketService.WritersInjective | src/main/java/com/example/service/SocketService.java:126-127 | no two online ids share a writer, and every writer has a connection |
| Relay.SocketService.constructor | src/main/java/com/example/service/SocketService.java:15-31 | empty maps, not running |
| Relay.SocketService.StartServer | src/main/java/com/example/service/SocketService.java:34-36 | running, listening on the positive port or 8888 |
| Relay.SocketService.Accept | src/main/java/com/example/service/SocketService.java:106-113 | a new connection waits for its id line |
| Relay.SocketService.WriteToWriters | src/main/java/com/example/service/SocketService.java:256-268 | the line goes to every writer except the excluded id |
| Relay.SocketService.SendUserList | src/main/java/com/example/service/SocketService.java:232-251 | the roster line goes only to the requester, and nothing is written when the requester has no writer |
| Relay.SocketService.SyncOfflineMessagesForUser | src/main/java/com/example/service/SocketService.java:313-336 | the joiner receives one `OFFLINE_STAT` line per sender of its unread messages, or none |
| Relay.SocketService.Login | src/main/java/com/example/service/SocketService.java:126-130 | the id's socket, writer and name are recorded, overwriting earlier entries |
| Relay.SocketService.Handshake | src/main/java/com/example/service/SocketService.java:115-136 | a non-numeric first line ends the session with no map touched; otherwise join, statistics to the joiner, then `USER_JOINED` to every other writer; the name lookup, the unread query and the statistics query each fail on their own, a failed lookup giving `User<id>` |
| Relay.SocketService.BroadcastMessage | src/main/java/com/example/service/SocketService.java:175-185 | `"<name>: <content>"` to every writer but the sender's |
| Relay.SocketService.SendMessage | src/main/java/com/example/service/SocketService.java:187-192 | to that id's writer, or a no-op when there is none |
| Relay.SocketService.HandlePrivateMessage | src/main/java/com/example/service/SocketService.java:272-295 | an online receiver gets `PM:<sender>:<content>`; an offline one gets a stored message; no colon is ignored; a bad id throws |
| Relay.SocketService.ServeOfflineMessages | src/main/java/com/example/service/SocketService.java:358-372 | the found messages are written, then marked read |
| Relay.SocketService.HandleGetOfflineMessages | src/main/java/com/example/service/SocketService.java:343-379 | with a readable id and an online requester, its messages from that sender are served and marked read; otherwise nothing happens; the fetch and the mark fail independently, and a failed mark leaves the served rows unread |
| Relay.MarkDecidesRedelivery | src/main/java/com/example/service/SocketService.java:354-371 | after a failed mark the next request serves the same messages again; after a successful one it serves none |
| Relay.SocketService.Teardown | src/main/java/com/example/service/SocketService.java:161-171 | a joined user is removed from all three maps and `USER_LEFT` goes to the rest; an unjoined connection touches no map |
| Relay.SocketService.ServePrivateMessage | src/main/java/com/example/service/SocketService.java:146-148 | a malformed receiver id tears the session down; any other payload has the private-message handler's effect |
| Relay.SocketService.Serve | src/main/java/com/example/service/SocketService.java:139-155 | `GET_USERS` sends the roster to the sender, `PM:` is handled or ends the session, `GET_OFFLINE_MSG:` serves the stored messages, and any other line is broadcast as chat, each with its handler's whole effect under that step's own DAO failures |
| Relay.SocketService.Receive | src/main/java/com/example/service/SocketService.java:115-156 | before the id line, the handshake's effect; after it, the effect of the command the line names; the first line starts the session exactly when it parses as an id, and only a `PM:` line with a malformed receiver id ends a started session; each DAO call of the step fails on its own |
| Relay.SocketService.EndOfStream | src/main/java/com/example/service/SocketService.java:157-171 | the session ends and its socket closes; a joined user leaves all three maps and `USER_LEFT` goes to the rest; before the id line, no map or writer changes |
| Relay.SocketService.Shutdown | src/main/java/com/example/service/SocketService.java:204-229 | not running; sockets closed; `onlineUsers` and `userWriters` cleared, `userNames` kept |
| ClientView.Dispatch | src/main/java/com/example/view/MainView.java:461-482 | a line starting with one of the six prefixes is that prefix and its payload; a line with none of them is a plain chat line |
| ClientView.ParseEntryCases | src/main/java/com/example/view/MainView.java:948-951 | skipped iff `split(":")` does not give two pieces; a bad id iff the first does not parse; otherwise that id and name |
| ClientView.CollectNext | src/main/java/com/example/view/MainView.java:946-980 | while no entry has thrown, one more entry leaves the users as they are when skipped, ends the reading incomplete when its id is bad, and appends its user otherwise |
| ClientView.StopAtBadEntry | src/main/java/com/example/view/MainView.java:948-951 | the first bad id ends the reading with the users read before it, whatever follows |
| ClientView.ParseEntriesStops | src/main/java/com/example/view/MainView.java:950 | entries after a bad id are never read |
| ClientView.ParseBubble | src/main/java/com/example/view/MainView.java:497-499 | the name before the first `": "` and the rest, or the whole line as both |
| ClientView.Initials | src/main/java/com/example/view/MainView.java:1360-1365 | `"?"` for a null or empty name, else its first character upper-cased |
| ClientView.FirstWithId | src/main/java/com/example/view/MainView.java:1157-1165 | the first listed user with the id; absent iff none |
| ClientView.AppendIfNew | src/main/java/com/example/view/MainView.java:1049-1058 | appended unless the id is listed; distinct ids stay distinct |
| ClientView.AddAll | src/main/java/com/example/view/MainView.java:964-978 | keeps the old users first, adds each new id once, and keeps ids distinct |
| ClientView.OnlineView | src/main/java/com/example/view/MainView.java:1319-1328 | exactly the users whose id is online, in order |
| ClientView.SearchView | src/main/java/com/example/view/MainView.java:1343-1357 | exactly the users whose name contains the text ignoring case, online ones only unless everyone is shown |
| ClientView.ContainsId | src/main/java/com/example/view/MainView.java:1002-1008 | the loop finds the id iff some user has it |
| ClientView.FindById | src/main/java/com/example/view/MainView.java:1157-1165 | the loop returns the first user with the id |
| ClientView.SelectOnline | src/main/java/com/example/view/MainView.java:1319-1328 | the loop builds the online view |
| ClientView.SelectMatching | src/main/java/com/example/view/MainView.java:1343-1357 | the loop builds the search view |
| ClientView.ApplyEntries | src/main/java/com/example/view/MainView.java:946-980 | the loop leaves the online set equal to the self id plus the ids read, and the users equal to `AddAll` of them |
| ClientView.AppendTo | src/main/java/com/example/view/MainView.java:1133-1141 | the entry goes to that user's window, opened when there is none; other windows are untouched |
| ClientView.MainView.constructor | src/main/java/com/example/view/MainView.java:60-71 | empty lists, online-only mode, no connection yet |
| ClientView.MainView.Connect | src/main/java/com/example/view/MainView.java:387-407 | on success, connected: writes the id line, lists the user, and writes `GET_USERS`; when the connection throws, nothing is written, the list is untouched and the connection state is kept |
| ClientView.MainView.CloseConnection | src/main/java/com/example/view/MainView.java:409-437 | afterwards there is no connection, and nothing else changes |
| ClientView.MainView.LoadAllUsers | src/main/java/com/example/view/MainView.java:1258-1306 | all users are the table plus the current user when missing; the list shows the current mode |
| ClientView.MainView.RefreshUserList | src/main/java/com/example/view/MainView.java:1309-1328 | the list shows all users or the online ones, as the mode says |
| ClientView.MainView.AddUserToList | src/main/java/com/example/view/MainView.java:1049-1058 | appended unless that id is shown |
| ClientView.MainView.HandleUserListUpdate | src/main/java/com/example/view/MainView.java:930-990 | online is the self id plus the listed ids, new users are added once, and the list shows the mode's view |
| ClientView.MainView.HandleUserJoined | src/main/java/com/example/view/MainView.java:992-1026 | the id goes online, the user is added if new, and a notice is shown; a bad id stops the listener |
| ClientView.MainView.HandleUserLeft | src/main/java/com/example/view/MainView.java:1028-1047 | the id goes offline, all users are kept, and a notice is shown; a bad id stops the listener |
| ClientView.MainView.ToggleUserListMode | src/main/java/com/example/view/MainView.java:1248-1255 | the mode flips and the list shows the new mode's view |
| ClientView.MainView.FilterUserList | src/main/java/com/example/view/MainView.java:1331-1358 | the placeholder or empty text shows the mode's view; other text shows the search view |
| ClientView.MainView.HandlePrivateMessage | src/main/java/com/example/view/MainView.java:1121-1154 | a known sender's content goes to its window; an unknown sender is dropped; a bad id stops the listener |
| ClientView.MainView.HandleOfflineMessage | src/main/java/com/example/view/MainView.java:1392-1437 | as for a private message, but a bad id is caught |
| ClientView.MainView.HandleOfflineMessageStat | src/main/java/com/example/view/MainView.java:1443-1464 | a notice with the count and the name for a known sender; a bad id or count stops the listener |
| ClientView.MainView.AddMessageBubble | src/main/java/com/example/view/MainView.java:494-521 | a bubble with the parsed content, the name replaced by the listed name for a `User<id>` name |
| ClientView.MainView.Receive | src/main/java/com/example/view/MainView.java:458-483 | the effect of the handler the line's prefix names, or a chat bubble for a line with no prefix; the listening thread ends exactly when that handler throws |
| ClientView.MainView.Handle | src/main/java/com/example/view/MainView.java:461-482 | each dispatched line has its handler's whole effect; `false` exactly when the handler throws |
| ClientView.MainView.OpenPrivateChat | src/main/java/com/example/view/MainView.java:1091-1119 | a new window is opened and, only when connected, asks for that user's offline messages; an open one changes nothing |
| ClientView.MainView.ForwardMessage | src/main/java/com/example/view/MainView.java:1372-1386 | when connected, `PM:<id>:<content>` is written, a notice is shown, and the text goes to the target's open window; without a connection nothing changes |
| WireProtocol.RosterOf | src/main/java/com/example/view/MainView.java:946-951 | one user per listed id, with its name or `"User<id>"` |
| WireProtocol.EntryParses | src/main/java/com/example/view/MainView.java:948-951 | an `<id>:<name>` entry with a colon-free name reads back as that user |
| WireProtocol.EntriesParse | src/main/java/com/example/view/MainView.java:946-980 | every entry the relay writes reads back, and none stops the loop |
| WireProtocol.UserListReachesClient | src/main/java/com/example/service/SocketService.java:232-251 | a relay roster line reaches the client as a complete update naming exactly those users, in order |
| WireProtocol.RosterIds | src/main/java/com/example/view/MainView.java:954 | the ids the client marks online are the ids the relay listed |
| WireProtocol.JoinedReachesClient | src/main/java/com/example/service/SocketService.java:255 | `USER_JOINED` reads back as the user who joined |
| WireProtocol.LeftReachesClient | src/main/java/com/example/service/SocketService.java:265 | `USER_LEFT` reads back as the user who left |
| WireProtocol.PmReachesClient | src/main/java/com/example/service/SocketService.java:283 | the forwarded `PM` line reads back as that sender and content |
| WireProtocol.PrivateMessageRoundTrip | src/main/java/com/example/view/MainView.java:1375 | a client `PM` command reaches the relay for that receiver, and the forwarded line reaches the receiver from that sender |
| WireProtocol.OfflineMessageReachesClient | src/main/java/com/example/service/SocketService.java:364 | an `OFFLINE_MSG` line reads back as that sender and content (`null` for a null content) |
| WireProtocol.StatReachesClient | src/main/java/com/example/service/SocketService.java:326 | an `OFFLINE_STAT` line reads back as that sender and count, so the client's parses succeed |
| WireProtocol.FirstSeparatorAfterName | src/main/java/com/example/service/SocketService.java:178 | the first `": "` of a chat line is the one after a name that holds none |
| WireProtocol.ChatLineReachesClient | src/main/java/com/example/view/MainView.java:461-499 | a chat line is shown as a bubble exactly when no command prefix starts `<name>: `, and it reads back as the sender's name and the text |
| WireProtocol.PrefixOfChatLine | src/main/java/com/example/view/MainView.java:461-476 | whether a command prefix starts a chat line depends on the sender's name alone, never on the text |
| WireProtocol.SenderNamedPmMisread | src/main/java/com/example/view/MainView.java:470-472 | the chat line of a user named `PM` reaches clients as a private message with payload `" <text>"` |
| Bubble.NewlineRun | src/main/java/com/example/component/MessageBubble.java:136 | the length of the leading run of newlines |
| Bubble.ProcessParagraphs | src/main/java/com/example/component/MessageBubble.java:134-137 | runs of two or more newlines become exactly two, so no three newlines remain, and a leading newline stays |
| Bubble.ProcessParagraphsKeeps | src/main/java/com/example/component/MessageBubble.java:136 | text with no three newlines in a row is unchanged |
| Bubble.ProcessParagraphsIdempotent | src/main/java/com/example/component/MessageBubble.java:136 | normalising twice is normalising once |
| Bubble.ProcessParagraphsKeepsText | src/main/java/com/example/component/MessageBubble.java:136 | only newlines change; every other character stays, in order |
| Bubble.CountParagraphs | src/main/java/com/example/component/MessageBubble.java:140-147 | 1 for null or empty text, 1 without a newline, else the number of `split("\\n")` pieces |
| Bubble.CountParagraphsOfJoin | src/main/java/com/example/component/MessageBubble.java:145-146 | paragraphs joined by single newlines are counted one each |
| Bubble.CountParagraphsOfNewlines | src/main/java/com/example/component/MessageBubble.java:145-146 | a text of newlines only counts zero paragraphs |
| Bubble.SliceWidthMonotone | src/main/java/com/example/component/MessageBubble.java:320-322 | a longer slice from the same start is never narrower |
| Bubble.LargestFit | src/main/java/com/example/component/MessageBubble.java:313-328 | the largest end whose slice fits, or the start if none does |
| Bubble.LargestFitIs | src/main/java/com/example/component/MessageBubble.java:313-328 | any fitting end above which nothing fits is the largest fit |
| Bubble.Adjusted | src/main/java/com/example/component/MessageBubble.java:330-354 | the punctuation adjustment moves the break by at most one and always advances |
| Bubble.BreakPoint | src/main/java/com/example/component/MessageBubble.java:304-355 | the break is past the start and within the text |
| Bubble.BreakPointLine | src/main/java/com/example/component/MessageBubble.java:304-355 | a fitting rest is one line; otherwise the line fits except for at most one pulled-in character, and one more character would not fit |
| Bubble.AdjustedLine | src/main/java/com/example/component/MessageBubble.java:330-354 | after adjustment the line is within one character of fitting and maximal |
| Bubble.AdjustedWithinOne | src/main/java/com/example/component/MessageBubble.java:347-354 | dropping the last character of the adjusted line makes it fit |
| Bubble.FindBreakPoint | src/main/java/com/example/component/MessageBubble.java:304-355 | the binary search and adjustment compute `BreakPoint` |
| Bubble.LinesFrom | src/main/java/com/example/component/MessageBubble.java:294-298 | between 1 and the characters left, or 0 at the end |
| Bubble.LineCount | src/main/java/com/example/component/MessageBubble.java:285-301 | at least one line, and never more lines than characters |
| Bubble.CalculateLineCount | src/main/java/com/example/component/MessageBubble.java:285-301 | the loop computes `LineCount` |
| Bubble.LineCountWhenAllFits | src/main/java/com/example/component/MessageBubble.java:309-311 | text that fits takes one line |
| Bubble.LinesWhenNothingFits | src/main/java/com/example/component/MessageBubble.java:353-354 | when no character fits, each takes its own line |
| Bubble.BubbleSize | src/main/java/com/example/component/MessageBubble.java:81-104 | a short message is its text width plus padding and one line high; a long one is 400 wide and lines times height plus paragraph gaps and padding; never under 35 high |
| Panel.TimelineStep | src/main/java/com/example/component/ChatPanel.java:89-118 | a time line labelled `HH:mm` iff there was no earlier message or the minute differs; the remembered minute is the new one |
| Panel.SameMinuteNoTimeline | src/main/java/com/example/component/ChatPanel.java:91-92 | a second message in the same minute adds no time line |
| Panel.CreateMessageRow | src/main/java/com/example/component/ChatPanel.java:127-163 | east side and sent colours iff own; a name label iff not own and a name is given |
| Panel.ChatPanel.constructor | src/main/java/com/example/component/ChatPanel.java:36 | no rows, no last timestamp |
| Panel.ChatPanel.AddTimelineIfNeeded | src/main/java/com/example/component/ChatPanel.java:89-118 | rows and last timestamp follow `TimelineStep` |
| Panel.ChatPanel.AddMessage | src/main/java/com/example/component/ChatPanel.java:73-83 | at most one time line, then exactly one message row |
| Panel.ChatPanel.AddSystemMessage | src/main/java/com/example/component/ChatPanel.java:247-263 | one notice row; the time line state is untouched |
| Panel.ChatPanel.Clear | src/main/java/com/example/component/ChatPanel.java:220-225 | no rows, and the next message starts with a time line |
| Config.GetProperty | src/main/java/com/example/model/Settings.java:125-127 | the stored value, or the default when the key is absent |
| Config.ParseBooleanOfToString | src/main/java/com/example/model/Settings.java:58-75 | a saved mode reads back as itself |
| Config.LoadConfig | src/main/java/com/example/model/Settings.java:58-66 | the host is always read; the port and mode keep their `int` range |
| Config.SaveProps | src/main/java/com/example/model/Settings.java:73-75 | the three keys are set and every other entry is kept |
| Config.DefaultPortParses | src/main/java/com/example/model/Settings.java:59 | the default `"8888"` parses to 8888 |
| Config.LoadEmptyGivesDefaults | src/main/java/com/example/model/Settings.java:53-60 | with no file, loading yields `localhost`, 8888 and false |
| Config.MissingKeysFallBack | src/main/java/com/example/model/Settings.java:58-60 | each missing key gives its default |
| Config.StartModeIffTrue | src/main/java/com/example/model/Settings.java:60 | the mode is on iff `server.start` is `"true"` in any case |
| Config.BadPortKeepsPortAndMode | src/main/java/com/example/model/Settings.java:58-66 | a non-numeric port keeps port and mode but takes the host |
| Config.SaveLoadRoundTrip | src/main/java/com/example/model/Settings.java:58-75 | loading what was saved yields the saved settings |
| Config.SetThenGet | src/main/java/com/example/model/Settings.java:125-136 | a `setProperty` is seen by the next `getProperty` of that key and by no other key |
| Config.Settings.constructor | src/main/java/com/example/model/Settings.java:8-17 | defaults, then a load; a missing or unreadable file leaves the defaults |
| Config.Settings.LoadProperties | src/main/java/com/example/model/Settings.java:27-68 | a found file is merged over the table and the fields are read from it; a read error changes nothing |
| Config.Settings.SaveSettings | src/main/java/com/example/model/Settings.java:70-93 | the three keys take the fields' values, even when writing fails; the file receives the whole table |
| Config.Settings.SetServerHost | src/main/java/com/example/model/Settings.java:95-101 | the getter returns the host set; nothing else changes |
| Config.Settings.SetServerPort | src/main/java/com/example/model/Settings.java:103-109 | the getter returns the port set; nothing else changes |
| Config.Settings.SetStartServerMode | src/main/java/com/example/model/Settings.java:111-117 | the getter returns the mode set; nothing else changes |
| Config.Settings.Property | src/main/java/com/example/model/Settings.java:125-127 | the stored value, or the default |
| Config.Settings.SetProperty | src/main/java/com/example/model/Settings.java:134-136 | the table takes the entry and the next get returns it |
| Config.SettingsSingleton.constructor | src/main/java/com/example/model/Settings.java:7 | no instance yet |
| Config.SettingsSingleton.GetInstance | src/main/java/com/example/model/Settings.java:19-24 | the first call builds the object; every later call returns that same object |
| SettingsDialog.Validate | src/main/java/com/example/view/SettingsView.java:181-193 | accepted iff the trimmed port parses, the trimmed host is non-empty and the port is in 1..65535; refusals are checked in that order |
| SettingsDialog.Reconcile | src/main/java/com/example/view/SettingsView.java:201-213 | no call when the relay state already matches the mode; otherwise one start or one shutdown |
| SettingsDialog.Step | src/main/java/com/example/service/SocketService.java:34-58 | no call leaves a shut-down pool with the relay taken as running |
| SettingsDialog.After | src/main/java/com/example/view/SettingsView.java:201-213 | the same for any sequence of calls |
| SettingsDialog.AfterOne | src/main/java/com/example/view/SettingsView.java:201-213 | one call is one step |
| SettingsDialog.ReconcileReachesMode | src/main/java/com/example/view/SettingsView.java:201-213 | after reconciling, the relay runs iff the mode says so and its pool was not shut down; the pool is down iff it was or the relay was stopped |
| SettingsDialog.ReconcileIdempotent | src/main/java/com/example/view/SettingsView.java:201-213 | saving the same mode again makes no call, except a start the shut-down pool refused, which is asked for again |
| SettingsDialog.SettingsView.constructor | src/main/java/com/example/view/SettingsView.java:36-44 | a relay of its own with a fresh pool, taken to be running iff the saved mode is on |
| SettingsDialog.SettingsView.SaveSettings | src/main/java/com/example/view/SettingsView.java:179-220 | a refused input stores nothing and leaves the relay; an accepted one sets and saves host, port and mode, and the relay then runs iff the mode is on and its pool was not shut down; a refused restart is reported after the settings are saved |
| SettingsDialog.SettingsView.ApplyMode | src/main/java/com/example/view/SettingsView.java:201-213 | a start or shutdown call only when the relay is not already in the chosen mode; afterwards it runs iff the mode is on and the pool was not shut down, and a start on a shut-down pool is reported as rejected |
| SettingsDialog.SettingsView.Call | src/main/java/com/example/service/SocketService.java:34-58 | one call is recorded and has one step's effect; a start throws when the pool is shut down |
| SettingsDialog.SettingsView.ToggleServer | src/main/java/com/example/view/SettingsView.java:225-252 | flips the running state with one start or shutdown; a non-numeric port aborts a start with no call; a start on a shut-down pool is called, throws, and leaves the relay stopped |
| Auth.Authenticate | src/main/java/com/example/controller/AuthController.java:14-21 | lets in iff the first row with the name has that password |
| Auth.FirstByName | src/main/java/com/example/dao/UserDAO.java:43-62 | the lookup finds the first row with the name |
| Auth.FirstRowDecides | src/main/java/com/example/controller/AuthController.java:15-16 | a later duplicate name's password does not let anyone in |
| Auth.UnknownNameFails | src/main/java/com/example/controller/AuthController.java:15-20 | an unknown name never logs in |
| Auth.RegisteredCanLogIn | src/main/java/com/example/controller/AuthController.java:14-33 | after a registration, that name and password log in as the new row |
| Auth.AuthController.constructor | src/main/java/com/example/controller/AuthController.java:8-12 | no current user |
| Auth.AuthController.Login | src/main/java/com/example/controller/AuthController.java:14-21 | true iff the credentials match; then the current user is that row; a failure changes nothing |
| Auth.AuthController.Register | src/main/java/com/example/controller/AuthController.java:23-33 | a name the lookup finds is refused with no insert; otherwise one row is inserted when the insert succeeds, so a failed lookup lets a taken name be inserted again; the current user never changes |
| Translation.LanguageNameByTable | src/main/java/com/example/service/AIService.java:102-124 | a known code in any case gives its name; any other code is returned unchanged |
| Translation.LanguageNameIgnoresCase | src/main/java/com/example/service/AIService.java:103 | two spellings of a known code that differ only in case give the same name |
| Translation.CaseVariantKnown | src/main/java/com/example/service/AIService.java:102-124 | any spelling of a known code, in any mix of letter case, gives that code's name |
| Translation.KnownCodesLowerCase | src/main/java/com/example/service/AIService.java:104-121 | every code the switch knows is written in lower case |
| Translation.LowerWithoutCapitals | src/main/java/com/example/service/AIService.java:103 | lower-casing leaves a string without capitals unchanged |
| Translation.SystemPrompt | src/main/java/com/example/service/AIService.java:43-44 | the fixed head, the language name, then the fixed tail; the name can be read back from the prompt |

## Left out

- Sockets, threads and UDP. The accept and discovery loops, the executor, `threadPool.shutdownNow` and `ConcurrentHashMap` thread safety are not modelled. Sessions are a sequential interleaving of one line per step, and `SwingUtilities.invokeLater` is taken as immediate.
- The discovery service's socket I/O is not modelled, and neither is the host address lookup, which is a parameter. Only the `DISCOVER_SERVER` check and the `"<ip>:<port>"` reply are kept.
- JDBC and SQL text are not modelled. `MessageDAO` works over an in-memory row table, and the `user` table is a sequence of rows. A failing connection is one flag per DAO call.
- `ORDER BY ddate` is not modelled in general. The model takes one order the database may return: a stable sort by day, with ties in insertion order.
- Hash-map iteration order is a ghost enumeration chosen by the method, not a fixed order.
- Swing rendering is not modelled: painting, colours, fonts, borders, dialogs and the popup menus.
- Bubble.StringWidth: `FontMetrics.stringWidth` is modelled as the sum of per-character advances, so kerning is not modelled. The line height is a parameter.
- Bubble.BubbleSize: the height arithmetic is unbounded, so 32-bit overflow of `lineHeight * lineCount` is not modelled.
- Panel.IsTimestamp: the formatter always writes 16 characters, so the clock's timestamp is assumed to be at least 16 characters long.
- `User.java` is not part of this model. A user is an id (taken as a `long`) and a name, and the display-only `online` flag is not modelled.
- The private chat window is not part of this model. `MainView` calls `receiveMessage`, `receiveOfflineMessage` and `sendMessage` on it, and the latter two do not exist on that class. All three are modelled as appending to that window's log.
- Auth.AuthController.Register: the `user` table may enforce name uniqueness on its own. The model does not, and assigns auto-increment ids from a counter.
- `AIService.translateText` is not modelled beyond its system prompt: the HTTP call, JSON parsing, API key lookup and error strings belong to a foreign library over the network.
- File access in `Settings` is not modelled (the two file paths and the classpath lookup). Loading receives the table the file held, no file, or a read error; a read error is taken to leave the table unchanged, not partly loaded. Saving returns the table written.
- `Settings.saveSettings` choosing between the two file paths is not modelled.
- `Config.Settings.LoadProperties`: a `null` `server.host` value cannot occur in a `Properties` table, so it is not modelled.
- JavaText.ToLower, JavaText.EqualsIgnoreCase: `toLowerCase` and `equalsIgnoreCase` are modelled on ASCII letters only.
- JavaText.ParseLong: `Long.parseLong` takes any Unicode decimal digit (through `Character.digit`), so `"١٢"` parses in Java; the model accepts ASCII digits only.
- JavaText.ParseInt: the same for `Integer.parseInt`.
- ClientView.Initials: the upper-casing is ASCII only, so Java's full-case mappings that change length (`"ß"` upper-cases to `"SS"`) are not modelled and the result is always one character; `substring(0, 1)` of a name starting with a surrogate pair takes half of it in Java, while the model takes the whole character.
- Bubble.StringWidth, Bubble.BreakPoint, Bubble.LineCount, Bubble.BubbleSize: Java measures and cuts strings in UTF-16 units, and the model in characters, so text outside the Basic Multilingual Plane is measured and broken differently.
- Relay.SocketService.Shutdown: `threadPool.shutdownNow` is not modelled on the relay itself, so its later `startServer` is not refused there; the settings dialog, which owns a relay, does model it (`SettingsDialog.RelayState`).
- Clocks are not modelled: `LocalDateTime.now()` and `System.currentTimeMillis()` become the `today` and timestamp parameters.
- `App.java`, `DBTest.java`, `LoginView`, `InputPanel`, `ChatClient` and the server discovery dialogs are left out: they are start-up code, UI or network code.
