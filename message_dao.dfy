/**
 * The `message` table behind MessageDAO, held in memory as a sequence of rows
 * in insertion order. Each DAO query is a selection (`Select`, the WHERE
 * clause), an ordering (`SortRows`, the ORDER BY clause) and a mapping of rows
 * to Message records; each DAO update rewrites the rows whose `_id` is listed.
 */
module MessageDao {
  import opened JavaText
  import opened MessageModel

  /** Values of the `read` column. */
  const ReadFlag: int := 1
  const UnreadFlag: int := 2

  /** The value written to `reserved` by `markMessagesAsDelivered`. */
  const Delivered: string := "delivered"

  /** One row: `_id`, `sender`, `receiver`, `message`, `ddate` (a day number), `read`, `reserved`. */
  datatype Row = Row(rowId: int, sender: int, receiver: int, message: string, ddate: int, read: int, reserved: Option<string>)

  /** The WHERE clauses the DAO issues. */
  datatype Where =
    | UnreadTo(receiver: int)                            // receiver = ? AND read = 2
    | UnreadFromTo(receiver: int, sender: int)           // receiver = ? AND sender = ? AND read = 2
    | Conversation(user1: int, user2: int)               // (sender = ? AND receiver = ?) OR (sender = ? AND receiver = ?)

  predicate Matches(w: Where, r: Row) {
    match w
    case UnreadTo(recv) => r.receiver == recv && r.read == UnreadFlag
    case UnreadFromTo(recv, s) => r.receiver == recv && r.sender == s && r.read == UnreadFlag
    case Conversation(u1, u2) => (r.sender == u1 && r.receiver == u2) || (r.sender == u2 && r.receiver == u1)
  }

  /** The rows satisfying `w`, in table order. */
  function Select(rows: seq<Row>, w: Where): (r: seq<Row>)
    ensures |r| <= |rows|
    ensures forall x :: x in r <==> x in rows && Matches(w, x)
  {
    if rows == [] then []
    else
      var last := rows[|rows| - 1];
      Select(rows[..|rows| - 1], w) + (if Matches(w, last) then [last] else [])
  }

  lemma SelectEmpty(rows: seq<Row>, w: Where)
    requires forall k :: 0 <= k < |rows| ==> !Matches(w, rows[k])
    ensures Select(rows, w) == []
  {
  }

  // ---------------------------------------------------------------------------
  // ORDER BY ddate

  datatype Order = Asc | Desc

  function Key(r: Row, order: Order): int {
    if order == Asc then r.ddate else -r.ddate
  }

  predicate SortedBy(rows: seq<Row>, order: Order) {
    forall i, j :: 0 <= i < j < |rows| ==> Key(rows[i], order) <= Key(rows[j], order)
  }

  /** Inserts `x` after every row whose key is not greater than its own. */
  function InsertSorted(x: Row, rows: seq<Row>, order: Order): (r: seq<Row>)
    requires SortedBy(rows, order)
    ensures SortedBy(r, order)
    ensures multiset(r) == multiset(rows) + multiset{x}
  {
    if rows == [] then [x]
    else if Key(x, order) < Key(rows[0], order) then [x] + rows
    else
      var tail := InsertSorted(x, rows[1..], order);
      InsertAfterHead(x, rows, tail, order);
      [rows[0]] + tail
  }

  lemma InsertAfterHead(x: Row, rows: seq<Row>, tail: seq<Row>, order: Order)
    requires rows != [] && SortedBy(rows, order) && Key(rows[0], order) <= Key(x, order)
    requires SortedBy(tail, order) && multiset(tail) == multiset(rows[1..]) + multiset{x}
    ensures SortedBy([rows[0]] + tail, order)
    ensures multiset([rows[0]] + tail) == multiset(rows) + multiset{x}
  {
    assert rows == [rows[0]] + rows[1..];
    forall j | 0 <= j < |tail| ensures Key(rows[0], order) <= Key(tail[j], order) {
      assert tail[j] in multiset(tail);
      if tail[j] != x {
        assert tail[j] in rows[1..];
      }
    }
  }

  /**
   * `ORDER BY ddate ASC|DESC`: a stable insertion sort, so rows of the same
   * day keep their table order (one of the orders the database may return).
   */
  function SortRows(rows: seq<Row>, order: Order): (r: seq<Row>)
    ensures SortedBy(r, order)
    ensures multiset(r) == multiset(rows)
  {
    if rows == [] then []
    else
      assert rows == rows[..|rows| - 1] + [rows[|rows| - 1]];
      InsertSorted(rows[|rows| - 1], SortRows(rows[..|rows| - 1], order), order)
  }

  // ---------------------------------------------------------------------------
  // Result-set mapping

  /**
   * `createMessageFromResultSet`: the id, sender, receiver and content copied,
   * the send time at the start of the stored day, read iff the column is 1,
   * never delivered.
   */
  function ToMessage(r: Row): (m: Message)
    ensures m.id == Some(r.rowId) && m.senderId == Some(r.sender) && m.receiverId == Some(r.receiver)
    ensures m.content == Some(r.message) && m.sentAt == Some(StartOfDay(r.ddate))
    ensures m.isRead <==> r.read == ReadFlag
    ensures !m.isDelivered
  {
    Message(Some(r.rowId), Some(r.sender), Some(r.receiver), Some(r.message), Some(StartOfDay(r.ddate)),
            r.read == ReadFlag, false)
  }

  function ToMessages(rows: seq<Row>): (ms: seq<Message>)
    ensures |ms| == |rows|
    ensures forall k :: 0 <= k < |rows| ==> ms[k] == ToMessage(rows[k])
  {
    if rows == [] then [] else ToMessages(rows[..|rows| - 1]) + [ToMessage(rows[|rows| - 1])]
  }

  /** The ids of a message list, as the callers collect them with `getId()`. */
  function IdsOf(ms: seq<Message>): (ids: seq<int>)
    requires forall k :: 0 <= k < |ms| ==> ms[k].id.Some?
    ensures |ids| == |ms| && forall k :: 0 <= k < |ms| ==> ids[k] == ms[k].id.value
  {
    if ms == [] then [] else IdsOf(ms[..|ms| - 1]) + [ms[|ms| - 1].id.value]
  }

  // ---------------------------------------------------------------------------
  // The queries, as functions of the table

  /** `getUnreadMessages(receiver)` */
  function UnreadMessages(rows: seq<Row>, receiver: int): seq<Message> {
    ToMessages(SortRows(Select(rows, UnreadTo(receiver)), Asc))
  }

  /** `getOfflineMessagesFromSender(receiver, sender)` */
  function MessagesFromSender(rows: seq<Row>, receiver: int, sender: int): seq<Message> {
    ToMessages(SortRows(Select(rows, UnreadFromTo(receiver, sender)), Asc))
  }

  /** `getMessageHistory(u1, u2, limit)`: the newest `limit` rows of the conversation; a negative LIMIT is an SQL error. */
  function History(rows: seq<Row>, u1: int, u2: int, limit: int): seq<Message> {
    if limit < 0 then []
    else
      var sorted := SortRows(Select(rows, Conversation(u1, u2)), Desc);
      ToMessages(if limit < |sorted| then sorted[..limit] else sorted)
  }

  /** Number of rows with the given sender. */
  function CountSender(rows: seq<Row>, sender: int): nat {
    if rows == [] then 0
    else CountSender(rows[..|rows| - 1], sender) + (if rows[|rows| - 1].sender == sender then 1 else 0)
  }

  /** Some row has the given sender exactly when the count is positive. */
  lemma {:induction false} CountSenderPositive(rows: seq<Row>, sender: int)
    ensures CountSender(rows, sender) > 0 <==> exists k :: 0 <= k < |rows| && rows[k].sender == sender
  {
    if rows != [] {
      var prefix := rows[..|rows| - 1];
      CountSenderPositive(prefix, sender);
      if exists k :: 0 <= k < |prefix| && prefix[k].sender == sender {
        var k :| 0 <= k < |prefix| && prefix[k].sender == sender;
        assert rows[k] == prefix[k];
      }
      if exists k :: 0 <= k < |rows| && rows[k].sender == sender {
        var k :| 0 <= k < |rows| && rows[k].sender == sender;
        if k < |prefix| {
          assert prefix[k] == rows[k];
        }
      }
    }
  }

  /** `GROUP BY sender` with `COUNT(*)`, accumulated row by row. */
  function CountBySender(rows: seq<Row>): (m: map<int, int>)
    ensures forall s :: s in m <==> CountSender(rows, s) > 0
    ensures forall s :: s in m ==> m[s] == CountSender(rows, s)
  {
    if rows == [] then map[]
    else
      var m := CountBySender(rows[..|rows| - 1]);
      var s := rows[|rows| - 1].sender;
      m[s := (if s in m then m[s] else 0) + 1]
  }

  /** `getOfflineMessageStats(receiver)` */
  function Stats(rows: seq<Row>, receiver: int): map<int, int> {
    CountBySender(Select(rows, UnreadTo(receiver)))
  }

  // ---------------------------------------------------------------------------
  // The updates, as functions of the table

  datatype Update = SetRead | SetDelivered

  function Apply(u: Update, r: Row): Row {
    match u
    case SetRead => r.(read := ReadFlag)
    case SetDelivered => r.(reserved := Some(Delivered))
  }

  /** `UPDATE message SET ... WHERE _id IN (ids)` */
  function UpdateWhereIdIn(rows: seq<Row>, ids: seq<int>, u: Update): (r: seq<Row>)
    ensures |r| == |rows|
    ensures forall k :: 0 <= k < |rows| ==> r[k] == if rows[k].rowId in ids then Apply(u, rows[k]) else rows[k]
  {
    seq(|rows|, k requires 0 <= k < |rows| => if rows[k].rowId in ids then Apply(u, rows[k]) else rows[k])
  }

  /** Some row has one of the listed ids: `executeUpdate() > 0` counts matched rows. */
  predicate AnyIdIn(rows: seq<Row>, ids: seq<int>) {
    exists k :: 0 <= k < |rows| && rows[k].rowId in ids
  }

  /** A new row as `storeOfflineMessage` inserts it: unread, `reserved` null. */
  function NewRow(rowId: int, sender: int, receiver: int, content: string, today: int): (r: Row)
    ensures r.read == UnreadFlag && r.reserved.None?
  {
    Row(rowId, sender, receiver, content, today, UnreadFlag, None)
  }

  // ---------------------------------------------------------------------------
  // Properties of the store

  /** Every listed row is one of the table's rows; its ids are the ids of the selected rows. */
  lemma {:induction false} IdsOfSortedSelection(rows: seq<Row>, w: Where, order: Order, x: Row)
    requires x in rows && Matches(w, x)
    ensures x.rowId in IdsOf(ToMessages(SortRows(Select(rows, w), order)))
  {
    var sorted := SortRows(Select(rows, w), order);
    assert x in multiset(Select(rows, w));
    assert x in multiset(sorted);
    var k :| 0 <= k < |sorted| && sorted[k] == x;
    assert IdsOf(ToMessages(sorted))[k] == x.rowId;
  }

  /**
   * Fetching the unread messages from one sender, marking their ids read and
   * fetching again returns nothing.
   */
  lemma FetchMarkRefetch(rows: seq<Row>, receiver: int, sender: int)
    ensures MessagesFromSender(UpdateWhereIdIn(rows, IdsOf(MessagesFromSender(rows, receiver, sender)), SetRead), receiver, sender) == []
  {
    var w := UnreadFromTo(receiver, sender);
    var ids := IdsOf(MessagesFromSender(rows, receiver, sender));
    var after := UpdateWhereIdIn(rows, ids, SetRead);
    forall k | 0 <= k < |after| ensures !Matches(w, after[k]) {
      if Matches(w, rows[k]) {
        IdsOfSortedSelection(rows, w, Asc, rows[k]);
      }
    }
    SelectEmpty(after, w);
  }

  /** `processOfflineMessages` leaves the receiver with no unread rows. */
  lemma ProcessLeavesNothingUnread(rows: seq<Row>, receiver: int)
    ensures Select(UpdateWhereIdIn(rows, IdsOf(UnreadMessages(rows, receiver)), SetRead), UnreadTo(receiver)) == []
  {
    var w := UnreadTo(receiver);
    var ids := IdsOf(UnreadMessages(rows, receiver));
    var after := UpdateWhereIdIn(rows, ids, SetRead);
    forall k | 0 <= k < |after| ensures !Matches(w, after[k]) {
      if Matches(w, rows[k]) {
        IdsOfSortedSelection(rows, w, Asc, rows[k]);
      }
    }
    SelectEmpty(after, w);
  }

  lemma UpdateSnoc(rows: seq<Row>, x: Row, ids: seq<int>, u: Update)
    ensures UpdateWhereIdIn(rows + [x], ids, u) == UpdateWhereIdIn(rows, ids, u) + [if x.rowId in ids then Apply(u, x) else x]
  {
  }

  /**
   * Marking rows delivered selects the same rows as before, each carrying the
   * new `reserved` value: no query the DAO issues depends on that column.
   */
  lemma {:induction false} DeliveredCommutesWithSelect(rows: seq<Row>, ids: seq<int>, w: Where)
    ensures Select(UpdateWhereIdIn(rows, ids, SetDelivered), w) == UpdateWhereIdIn(Select(rows, w), ids, SetDelivered)
  {
    if rows != [] {
      var n := |rows|;
      var prefix := rows[..n - 1];
      var last := rows[n - 1];
      var updated := if last.rowId in ids then Apply(SetDelivered, last) else last;
      assert rows == prefix + [last];
      UpdateSnoc(prefix, last, ids, SetDelivered);
      DeliveredCommutesWithSelect(prefix, ids, w);
      SelectSnoc(UpdateWhereIdIn(prefix, ids, SetDelivered), updated, w);
      SelectSnoc(prefix, last, w);
      assert Matches(w, updated) == Matches(w, last);
      if Matches(w, last) {
        UpdateSnoc(Select(prefix, w), last, ids, SetDelivered);
      }
    }
  }

  /** A stored message is the newest row and is unread from its sender. */
  lemma StoredMessageIsUnread(rows: seq<Row>, rowId: int, sender: int, receiver: int, content: string, today: int)
    ensures Select(rows + [NewRow(rowId, sender, receiver, content, today)], UnreadFromTo(receiver, sender))
         == Select(rows, UnreadFromTo(receiver, sender)) + [NewRow(rowId, sender, receiver, content, today)]
  {
    var t := rows + [NewRow(rowId, sender, receiver, content, today)];
    assert t[..|t| - 1] == rows;
  }

  // ---------------------------------------------------------------------------
  // Counting: the statistics add up to the number of unread messages

  /** The sum of a map's values. */
  ghost function Total(m: map<int, int>): int
    decreases |m|
  {
    if forall k :: k !in m then 0
    else
      var k :| k in m;
      m[k] + Total(m - {k})
  }

  lemma {:induction false} TotalRemove(m: map<int, int>, k: int)
    requires k in m
    ensures Total(m) == m[k] + Total(m - {k})
    decreases |m|
  {
    var j :| j in m && Total(m) == m[j] + Total(m - {j});
    if j != k {
      TotalRemove(m - {j}, k);
      TotalRemove(m - {k}, j);
      assert m - {j} - {k} == m - {k} - {j};
    }
  }

  lemma {:induction false} TotalOfCounts(rows: seq<Row>)
    ensures Total(CountBySender(rows)) == |rows|
  {
    if rows != [] {
      var prefix := rows[..|rows| - 1];
      var s := rows[|rows| - 1].sender;
      var m := CountBySender(prefix);
      var m' := CountBySender(rows);
      TotalOfCounts(prefix);
      TotalRemove(m', s);
      assert m' - {s} == m - {s};
      if s in m {
        TotalRemove(m, s);
      } else {
        assert m - {s} == m;
      }
    }
  }

  /**
   * `getOfflineMessageStats(r)` has one entry per sender with an unread row
   * for `r`, counting those rows, and the counts add up to the size of
   * `getUnreadMessages(r)`.
   */
  lemma StatsAgreeWithUnread(rows: seq<Row>, receiver: int)
    ensures forall s :: s in Stats(rows, receiver) <==> exists k :: 0 <= k < |rows| && rows[k].sender == s && Matches(UnreadTo(receiver), rows[k])
    ensures Total(Stats(rows, receiver)) == |UnreadMessages(rows, receiver)|
  {
    var sel := Select(rows, UnreadTo(receiver));
    TotalOfCounts(sel);
    assert |SortRows(sel, Asc)| == |multiset(SortRows(sel, Asc))| == |multiset(sel)| == |sel|;
    forall s ensures s in Stats(rows, receiver) <==> exists k :: 0 <= k < |rows| && rows[k].sender == s && Matches(UnreadTo(receiver), rows[k]) {
      StatsSender(rows, receiver, s);
    }
  }

  /** One sender of `StatsAgreeWithUnread`. */
  lemma StatsSender(rows: seq<Row>, receiver: int, s: int)
    ensures s in Stats(rows, receiver) <==> exists k :: 0 <= k < |rows| && rows[k].sender == s && Matches(UnreadTo(receiver), rows[k])
  {
    var sel := Select(rows, UnreadTo(receiver));
    CountSenderPositive(sel, s);
    if exists j :: 0 <= j < |sel| && sel[j].sender == s {
      var j :| 0 <= j < |sel| && sel[j].sender == s;
      assert sel[j] in rows;
      var k :| 0 <= k < |rows| && rows[k] == sel[j];
    }
    if exists k :: 0 <= k < |rows| && rows[k].sender == s && Matches(UnreadTo(receiver), rows[k]) {
      var k :| 0 <= k < |rows| && rows[k].sender == s && Matches(UnreadTo(receiver), rows[k]);
      assert rows[k] in sel;
      var j :| 0 <= j < |sel| && sel[j] == rows[k];
    }
  }

  lemma SelectSnoc(rows: seq<Row>, r: Row, w: Where)
    ensures Select(rows + [r], w) == Select(rows, w) + (if Matches(w, r) then [r] else [])
  {
    assert (rows + [r])[..|rows|] == rows;
  }

  /** One more table row either leaves the counts alone or adds one to its sender's count. */
  lemma StatsStep(prefix: seq<Row>, r: Row, receiver: int)
    ensures var m := CountBySender(Select(prefix, UnreadTo(receiver)));
            CountBySender(Select(prefix + [r], UnreadTo(receiver)))
            == if Matches(UnreadTo(receiver), r) then m[r.sender := (if r.sender in m then m[r.sender] else 0) + 1] else m
  {
    SelectSnoc(prefix, r, UnreadTo(receiver));
    if Matches(UnreadTo(receiver), r) {
      CountBySenderSnoc(Select(prefix, UnreadTo(receiver)), r);
    } else {
      assert Select(prefix + [r], UnreadTo(receiver)) == Select(prefix, UnreadTo(receiver));
    }
  }

  lemma CountBySenderSnoc(rows: seq<Row>, r: Row)
    ensures CountBySender(rows + [r]) == CountBySender(rows)[r.sender := (if r.sender in CountBySender(rows) then CountBySender(rows)[r.sender] else 0) + 1]
  {
    assert (rows + [r])[..|rows|] == rows;
  }

  // ---------------------------------------------------------------------------
  // The DAO object

  /** Every table id is below the next auto-increment value, so the id a new row takes is not yet in use. */
  predicate IdsBelow(rows: seq<Row>, nextId: int) {
    forall k :: 0 <= k < |rows| ==> rows[k].rowId < nextId
  }

  /**
   * The DAO over the in-memory table. Each call takes `sqlError`: whether the
   * database rejects that statement, in which case the DAO returns its
   * fallback value and changes nothing.
   */
  class MessageTable {
    var rows: seq<Row>
    var nextId: int

    ghost predicate Valid()
      reads this
    {
      IdsBelow(rows, nextId)
    }

    constructor ()
      ensures Valid() && rows == [] && nextId == 1
    {
      rows := [];
      nextId := 1;
    }

    /** `storeOfflineMessage`: one unread row dated `today`, or nothing on an SQL error. */
    method StoreOfflineMessage(sender: int, receiver: int, content: string, today: int, sqlError: bool) returns (ok: bool)
      requires Valid()
      modifies this
      ensures Valid()
      ensures ok == !sqlError
      ensures ok ==> rows == old(rows) + [NewRow(old(nextId), sender, receiver, content, today)] && nextId == old(nextId) + 1
      ensures !ok ==> rows == old(rows) && nextId == old(nextId)
    {
      if sqlError {
        return false;
      }
      rows := rows + [NewRow(nextId, sender, receiver, content, today)];
      nextId := nextId + 1;
      ok := true;
    }

    /** Reads the result set of a SELECT row by row into a list, as the DAO's `while (rs.next())` loops do. */
    static method ReadResultSet(resultSet: seq<Row>) returns (ms: seq<Message>)
      ensures ms == ToMessages(resultSet)
    {
      ms := [];
      var i := 0;
      while i < |resultSet|
        invariant 0 <= i <= |resultSet|
        invariant ms == ToMessages(resultSet[..i])
      {
        assert resultSet[..i + 1][..i] == resultSet[..i];
        ms := ms + [ToMessage(resultSet[i])];
        i := i + 1;
      }
      assert resultSet[..i] == resultSet;
    }

    /** `getUnreadMessages(receiver)`: the receiver's unread rows, oldest day first; empty on an SQL error. */
    method GetUnreadMessages(receiver: int, sqlError: bool) returns (ms: seq<Message>)
      ensures ms == if sqlError then [] else UnreadMessages(rows, receiver)
    {
      if sqlError {
        return [];
      }
      ms := ReadResultSet(SortRows(Select(rows, UnreadTo(receiver)), Asc));
    }

    /** `getOfflineMessagesFromSender(receiver, sender)` */
    method GetOfflineMessagesFromSender(receiver: int, sender: int, sqlError: bool) returns (ms: seq<Message>)
      ensures ms == if sqlError then [] else MessagesFromSender(rows, receiver, sender)
    {
      if sqlError {
        return [];
      }
      ms := ReadResultSet(SortRows(Select(rows, UnreadFromTo(receiver, sender)), Asc));
    }

    /** `getMessageHistory(u1, u2, limit)` */
    method GetMessageHistory(u1: int, u2: int, limit: int, sqlError: bool) returns (ms: seq<Message>)
      ensures ms == if sqlError then [] else History(rows, u1, u2, limit)
    {
      if sqlError || limit < 0 {
        return [];
      }
      var sorted := SortRows(Select(rows, Conversation(u1, u2)), Desc);
      ms := ReadResultSet(if limit < |sorted| then sorted[..limit] else sorted);
    }

    /**
     * `getOfflineMessageStats(receiver)`: the grouped counts, accumulated into
     * a map one table row at a time; empty on an SQL error.
     */
    method GetOfflineMessageStats(receiver: int, sqlError: bool) returns (stats: map<int, int>)
      ensures stats == if sqlError then map[] else Stats(rows, receiver)
    {
      stats := map[];
      if sqlError {
        return;
      }
      var i := 0;
      while i < |rows|
        invariant 0 <= i <= |rows|
        invariant stats == CountBySender(Select(rows[..i], UnreadTo(receiver)))
      {
        var r := rows[i];
        assert rows[..i + 1] == rows[..i] + [r];
        StatsStep(rows[..i], r, receiver);
        if Matches(UnreadTo(receiver), r) {
          stats := stats[r.sender := (if r.sender in stats then stats[r.sender] else 0) + 1];
        }
        i := i + 1;
      }
      assert rows[..i] == rows;
    }

    /**
     * The shared body of `markMessagesAsRead` and `markMessagesAsDelivered`:
     * a null or empty list succeeds without touching the table; otherwise the
     * listed rows are updated and the result says whether any row matched.
     */
    method UpdateListed(ids: Option<seq<int>>, u: Update, sqlError: bool) returns (ok: bool)
      requires Valid()
      modifies this
      ensures Valid() && nextId == old(nextId)
      ensures ids.None? || ids.value == [] ==> ok && rows == old(rows)
      ensures ids.Some? && ids.value != [] && sqlError ==> !ok && rows == old(rows)
      ensures ids.Some? && ids.value != [] && !sqlError ==>
                rows == UpdateWhereIdIn(old(rows), ids.value, u) && ok == AnyIdIn(old(rows), ids.value)
    {
      if ids.None? || ids.value == [] {
        return true;
      }
      if sqlError {
        return false;
      }
      var listed := ids.value;
      var i := 0;
      var matched := false;
      ghost var before := rows;
      while i < |rows|
        invariant 0 <= i <= |rows| == |before|
        invariant rows[i..] == before[i..]
        invariant rows[..i] == UpdateWhereIdIn(before[..i], listed, u)
        invariant matched == AnyIdIn(before[..i], listed)
        invariant nextId == old(nextId)
      {
        var r := rows[i];
        assert r == before[i];
        if r.rowId in listed {
          rows := rows[i := Apply(u, r)];
          matched := true;
          assert before[..i + 1][i] == before[i];
        }
        assert forall k :: 0 <= k < i ==> before[..i + 1][k] == before[..i][k];
        i := i + 1;
      }
      assert before[..i] == before;
      ok := matched;
    }

    /** `markMessagesAsRead(ids)`: sets `read = 1` on exactly the listed rows. */
    method MarkMessagesAsRead(ids: Option<seq<int>>, sqlError: bool) returns (ok: bool)
      requires Valid()
      modifies this
      ensures Valid() && nextId == old(nextId)
      ensures ids.None? || ids.value == [] ==> ok && rows == old(rows)
      ensures ids.Some? && ids.value != [] && sqlError ==> !ok && rows == old(rows)
      ensures ids.Some? && ids.value != [] && !sqlError ==>
                rows == UpdateWhereIdIn(old(rows), ids.value, SetRead) && ok == AnyIdIn(old(rows), ids.value)
    {
      ok := UpdateListed(ids, SetRead, sqlError);
    }

    /** `markMessagesAsDelivered(ids)`: sets `reserved = 'delivered'` on exactly the listed rows. */
    method MarkMessagesAsDelivered(ids: Option<seq<int>>, sqlError: bool) returns (ok: bool)
      requires Valid()
      modifies this
      ensures Valid() && nextId == old(nextId)
      ensures ids.None? || ids.value == [] ==> ok && rows == old(rows)
      ensures ids.Some? && ids.value != [] && sqlError ==> !ok && rows == old(rows)
      ensures ids.Some? && ids.value != [] && !sqlError ==>
                rows == UpdateWhereIdIn(old(rows), ids.value, SetDelivered) && ok == AnyIdIn(old(rows), ids.value)
    {
      ok := UpdateListed(ids, SetDelivered, sqlError);
    }

    /**
     * `processOfflineMessages(receiver)`: fetches the unread messages and, when
     * there are any, marks all of them read.
     */
    method ProcessOfflineMessages(receiver: int, fetchError: bool, markError: bool) returns (ms: seq<Message>)
      requires Valid()
      modifies this
      ensures Valid() && nextId == old(nextId)
      ensures ms == if fetchError then [] else UnreadMessages(old(rows), receiver)
      ensures rows == if ms == [] || markError then old(rows) else UpdateWhereIdIn(old(rows), IdsOf(ms), SetRead)
    {
      ms := GetUnreadMessages(receiver, fetchError);
      if ms != [] {
        var ids := IdsOf(ms);
        var _ := MarkMessagesAsRead(Some(ids), markError);
      }
    }
  }
}
