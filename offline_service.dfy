/**
 * OfflineMessageService: a thin layer over the message and user tables that
 * turns every exception into a fallback value. The DAO already answers an
 * SQL error with its own fallback (an empty list, `false`, a null name); what
 * reaches this layer's `catch` blocks is a null `Long` argument, which fails
 * when the DAO binds it after the connection has opened, and a null id list,
 * which fails when the success message prints its size.
 */
module OfflineService {
  import opened JavaText
  import opened MessageModel
  import opened MessageDao
  import opened UserStore

  /** How a DAO call ended: with a value, or with an unchecked exception. */
  datatype Outcome<T> = Returned(value: T) | Threw

  /**
   * A DAO call binding the nullable id `arg`: an SQL error (the connection
   * fails first) yields the DAO's `fallback`, otherwise a null id throws.
   */
  function BindId<T>(arg: Option<int>, sqlError: bool, fallback: T, answer: int -> T): Outcome<T> {
    if sqlError then Returned(fallback)
    else if arg.None? then Threw
    else Returned(answer(arg.value))
  }

  /** `OfflineMessageSyncResult`: absent lists and maps are Java's nulls. */
  datatype SyncResult = SyncResult(
    userId: Option<int>,
    unreadMessages: Option<seq<Message>>,
    messageStats: Option<map<int, int>>,
    totalUnreadCount: int,
    success: bool,
    errorMessage: Option<string>)

  /**
   * `syncOfflineMessages(userId)`: the unread messages and per-sender counts,
   * or a failed result carrying the exception's message (`exceptionMessage`,
   * possibly null).
   */
  function Sync(rows: seq<Row>, userId: Option<int>, unreadError: bool, statsError: bool,
                exceptionMessage: Option<string>): (r: SyncResult)
    ensures r.userId == userId
    ensures r.success <==> userId.Some? || (unreadError && statsError)
    ensures r.success ==> r.unreadMessages.Some? && r.messageStats.Some? && r.errorMessage.None?
                          && r.totalUnreadCount == |r.unreadMessages.value|
    ensures r.success && userId.Some? ==>
              r.unreadMessages.value == (if unreadError then [] else UnreadMessages(rows, userId.value)) &&
              r.messageStats.value == (if statsError then map[] else Stats(rows, userId.value))
    ensures !r.success ==> r.unreadMessages.None? && r.messageStats.None? && r.totalUnreadCount == 0
                           && r.errorMessage == exceptionMessage
  {
    var failed := SyncResult(userId, None, None, 0, false, exceptionMessage);
    match BindId(userId, unreadError, [], id => UnreadMessages(rows, id))
    case Threw => failed
    case Returned(unread) =>
      match BindId(userId, statsError, map[], id => Stats(rows, id))
      case Threw => failed
      case Returned(stats) => SyncResult(userId, Some(unread), Some(stats), |unread|, true, None)
  }

  /**
   * A successful sync reports one count per sender of an unread message, and
   * the counts add up to the total it reports.
   */
  lemma SyncCountsAddUp(rows: seq<Row>, userId: int, exceptionMessage: Option<string>)
    ensures var r := Sync(rows, Some(userId), false, false, exceptionMessage);
            r.success && Total(r.messageStats.value) == r.totalUnreadCount
  {
    StatsAgreeWithUnread(rows, userId);
  }

  /**
   * `storeOfflineMessage(sender, receiver, content)`: whether a row was
   * stored, and the table afterwards; `nextId` is the next auto-increment id.
   */
  function Store(rows: seq<Row>, nextId: int, senderId: Option<int>, receiverId: Option<int>, content: string,
                 today: int, sqlError: bool): (r: (bool, seq<Row>))
    ensures r.0 <==> !sqlError && senderId.Some? && receiverId.Some?
    ensures r.0 ==> r.1 == rows + [NewRow(nextId, senderId.value, receiverId.value, content, today)]
    ensures !r.0 ==> r.1 == rows
  {
    if sqlError || senderId.None? || receiverId.None? then (false, rows)
    else (true, rows + [NewRow(nextId, senderId.value, receiverId.value, content, today)])
  }

  /**
   * `markMessagesAsRead(ids)`: the DAO accepts a null list as a no-op, but the
   * service then fails printing its size, so a null list yields `false`.
   */
  function MarkRead(rows: seq<Row>, ids: Option<seq<int>>, sqlError: bool): (r: (bool, seq<Row>))
    ensures ids.None? ==> !r.0 && r.1 == rows
    ensures ids == Some([]) ==> r.0 && r.1 == rows
    ensures ids.Some? && ids.value != [] ==>
              r.0 == (!sqlError && AnyIdIn(rows, ids.value)) &&
              r.1 == (if sqlError then rows else UpdateWhereIdIn(rows, ids.value, SetRead))
  {
    if ids.None? then (false, rows)
    else if ids.value == [] then (true, rows)
    else if sqlError then (false, rows)
    else (AnyIdIn(rows, ids.value), UpdateWhereIdIn(rows, ids.value, SetRead))
  }

  /** `getOfflineMessagesFromSender(receiver, sender)`: the DAO's list, empty on any failure. */
  function FromSender(rows: seq<Row>, receiverId: Option<int>, senderId: Option<int>, sqlError: bool): (ms: seq<Message>)
    ensures receiverId.None? || senderId.None? || sqlError ==> ms == []
    ensures receiverId.Some? && senderId.Some? && !sqlError ==> ms == MessagesFromSender(rows, receiverId.value, senderId.value)
  {
    if sqlError || receiverId.None? || senderId.None? then []
    else MessagesFromSender(rows, receiverId.value, senderId.value)
  }

  /** `"User" + userId` for a nullable `Long`. */
  function DefaultName(userId: Option<int>): string {
    "User" + (if userId.Some? then LongToString(userId.value) else "null")
  }

  /**
   * `getUserName(userId)`: the stored name when there is a non-empty one,
   * otherwise `"User" + userId`.
   */
  function GetUserName(users: seq<User>, userId: Option<int>, sqlError: bool): (name: string)
    ensures |name| > 0
    ensures (userId.Some? && !sqlError && NameById(users, userId.value).Some? && NameById(users, userId.value).value != [])
              ==> name == NameById(users, userId.value).value
    ensures (userId.None? || sqlError || NameById(users, userId.value).None? || NameById(users, userId.value).value == [])
              ==> name == DefaultName(userId)
  {
    var looked := if sqlError || userId.None? then None else NameById(users, userId.value);
    if looked.Some? && looked.value != [] then looked.value else DefaultName(userId)
  }

  /**
   * Reading one sender's messages through the service, marking them read and
   * reading again yields nothing.
   */
  lemma ReadMarkReread(rows: seq<Row>, receiverId: int, senderId: int)
    ensures var ms := FromSender(rows, Some(receiverId), Some(senderId), false);
            FromSender(MarkRead(rows, Some(IdsOf(ms)), false).1, Some(receiverId), Some(senderId), false) == []
  {
    var ms := FromSender(rows, Some(receiverId), Some(senderId), false);
    FetchMarkRefetch(rows, receiverId, senderId);
    if ms == [] {
      assert IdsOf(ms) == [];
      assert Select(rows, UnreadFromTo(receiverId, senderId)) == [];
    }
  }
}
