/**
 * The chat relay of SocketService. Each accepted connection runs a session:
 * a handshake line carrying the user id, then one command per line until the
 * stream ends. The roster is three maps keyed by user id; every effect is a
 * rewrite of those maps, of the message table, or lines appended to the
 * output of a connection.
 *
 * Threads are modelled as a sequence of atomic steps, one per line read (or
 * per end of stream). A connection's `PrintWriter` is named by the
 * connection it writes to, and `outbox[c]` holds every line written to
 * connection `c` so far; a line written to a closed socket is lost.
 */
module Relay {
  import opened JavaText
  import opened MessageModel
  import opened MessageDao
  import opened UserStore
  import opened OfflineService

  type ConnId = nat

  /**
   * Which DAO calls of one step fail. Every DAO call opens its own
   * connection, so each of them can fail while the others succeed.
   */
  datatype DbFaults = DbFaults(
    nameLookup: bool,   // `getUserNameById` at the handshake
    unreadQuery: bool,  // `getUnreadMessages` of the login sync
    statsQuery: bool,   // `getOfflineMessageStats` of the login sync
    store: bool,        // `storeOfflineMessage` for an offline recipient
    senderQuery: bool,  // `getOfflineMessagesFromSender`
    markRead: bool)     // `markMessagesAsRead` after serving them

  /** `PORT` */
  const DefaultPort: int := 8888

  /** The port `startServer(port)` listens on. */
  function ServerPort(port: int): (p: int)
    ensures p > 0
    ensures port > 0 ==> p == port
    ensures port <= 0 ==> p == DefaultPort
  {
    if port > 0 then port else DefaultPort
  }

  /** The discovery service's answer to one datagram: `"<ip>:<port>"` for exactly `DISCOVER_SERVER`. */
  function DiscoveryReply(request: string, serverIp: string, port: int): Option<string> {
    if request == "DISCOVER_SERVER" then Some(serverIp + ":" + LongToString(port)) else None
  }

  /** A discovery reply splits back into the address and the port, when the address has no `':'`. */
  lemma DiscoveryReplyRoundTrip(request: string, serverIp: string, port: int)
    requires ':' !in serverIp && IsInt(port)
    ensures DiscoveryReply(request, serverIp, port).Some? <==> request == "DISCOVER_SERVER"
    ensures request == "DISCOVER_SERVER" ==>
              var parts := SplitFirst(DiscoveryReply(request, serverIp, port).value, ':');
              |parts| == 2 && parts[0] == serverIp && ParseInt(parts[1]) == Some(port)
  {
    if request == "DISCOVER_SERVER" {
      var reply := serverIp + ":" + LongToString(port);
      assert reply == serverIp + [':'] + LongToString(port);
      var parts := SplitFirst(reply, ':');
      assert ':' in reply by { assert reply[|serverIp|] == ':'; }
      SplitAtOnlyColon(serverIp, LongToString(port), parts);
      ParseIntOfLongToString(port);
    }
  }

  /** The unique split of `a + ":" + b` when `a` has no colon. */
  lemma SplitAtOnlyColon(a: string, b: string, parts: seq<string>)
    requires ':' !in a
    requires |parts| == 2 && ':' !in parts[0] && a + [':'] + b == parts[0] + [':'] + parts[1]
    ensures parts[0] == a && parts[1] == b
  {
    var s := a + [':'] + b;
    assert s[|a|] == ':' && s[|parts[0]|] == ':';
    assert forall k :: 0 <= k < |a| ==> s[k] == a[k];
    assert forall k :: 0 <= k < |parts[0]| ==> s[k] == parts[0][k];
    assert |parts[0]| == |a|;
    assert s[..|a|] == a && s[..|parts[0]|] == parts[0];
    assert s[|a| + 1..] == b && s[|parts[0]| + 1..] == parts[1];
  }

  // ---------------------------------------------------------------------------
  // The server's lines

  /** The display name of a joining user: the stored name unless it is missing or empty. */
  function DisplayName(stored: Option<string>, id: int): (name: string)
    ensures |name| > 0
    ensures stored.Some? && stored.value != "" ==> name == stored.value
    ensures stored.None? || stored.value == "" ==> name == DefaultName(Some(id))
  {
    if stored.Some? && stored.value != "" then stored.value else DefaultName(Some(id))
  }

  /** `userNames.getOrDefault(id, "User" + id)` */
  function NameOrDefault(names: map<int, string>, id: int): string {
    if id in names then names[id] else DefaultName(Some(id))
  }

  function UserEntries(order: seq<int>, names: map<int, string>): (es: seq<string>)
    ensures |es| == |order|
    ensures forall k :: 0 <= k < |order| ==> es[k] == IdText(order[k], NameOrDefault(names, order[k]))
  {
    seq(|order|, k requires 0 <= k < |order| => IdText(order[k], NameOrDefault(names, order[k])))
  }

  /** `sendUserList`'s line for the online ids in the order the map yields them. */
  function UserListLine(order: seq<int>, names: map<int, string>): string {
    "USER_LIST:" + Join(UserEntries(order, names), ',')
  }

  /** One more roster entry: the first follows the prefix, later ones follow a comma. */
  lemma UserListLineSnoc(order: seq<int>, names: map<int, string>, id: int)
    ensures var entry := IdText(id, NameOrDefault(names, id));
            UserListLine(order + [id], names) == UserListLine(order, names) + (if order == [] then "" else ",") + entry
  {
    var entry := IdText(id, NameOrDefault(names, id));
    var es := UserEntries(order, names);
    assert UserEntries(order + [id], names) == es + [entry];
    ListLineSnoc(es, entry);
  }

  lemma ListLineSnoc(es: seq<string>, entry: string)
    ensures "USER_LIST:" + Join(es + [entry], ',') == "USER_LIST:" + Join(es, ',') + (if es == [] then "" else ",") + entry
  {
    if es == [] {
      assert es + [entry] == [entry];
    } else {
      JoinSnoc(es, entry, ',');
      assert [','] == ",";
    }
  }

  /** `<id>:<text>`, the payload of the relay's per-user lines. */
  function IdText(id: int, text: string): string { LongToString(id) + ":" + text }

  function JoinedLine(id: int, name: string): string { "USER_JOINED:" + IdText(id, name) }
  function LeftLine(id: int, name: string): string { "USER_LEFT:" + IdText(id, name) }
  function PmLine(senderId: int, content: string): string { "PM:" + IdText(senderId, content) }
  function ChatLine(senderName: string, content: string): string { senderName + ": " + content }
  function StatLine(senderId: int, count: int): string { "OFFLINE_STAT:" + IdText(senderId, LongToString(count)) }

  /** `"OFFLINE_MSG:" + senderId + ":" + msg.getContent()`, a null content printing as `null`. */
  function OfflineMsgLine(senderId: int, m: Message): string {
    "OFFLINE_MSG:" + IdText(senderId, if m.content.Some? then m.content.value else "null")
  }

  function OfflineMsgLines(senderId: int, ms: seq<Message>): (lines: seq<string>)
    ensures |lines| == |ms| && forall k :: 0 <= k < |ms| ==> lines[k] == OfflineMsgLine(senderId, ms[k])
  {
    if ms == [] then [] else OfflineMsgLines(senderId, ms[..|ms| - 1]) + [OfflineMsgLine(senderId, ms[|ms| - 1])]
  }

  function StatLines(order: seq<int>, stats: map<int, int>): (lines: seq<string>)
    requires forall k :: 0 <= k < |order| ==> order[k] in stats
    ensures |lines| == |order| && forall k :: 0 <= k < |order| ==> lines[k] == StatLine(order[k], stats[order[k]])
  {
    seq(|order|, k requires 0 <= k < |order| => StatLine(order[k], stats[order[k]]))
  }

  /** `order` lists every element of `keys` exactly once: one iteration order of a hash map. */
  ghost predicate IsEnumeration(order: seq<int>, keys: set<int>) {
    && (forall i, j :: 0 <= i < j < |order| ==> order[i] != order[j])
    && (forall k :: 0 <= k < |order| ==> order[k] in keys)
    && (forall x :: x in keys ==> x in order)
  }

  /** Part way through a hash map's keys: `order` lists the keys taken so far, `pending` the rest. */
  ghost predicate PartialEnumeration(order: seq<int>, pending: set<int>, keys: set<int>) {
    && pending <= keys
    && (forall k :: 0 <= k < |order| ==> order[k] in keys && order[k] !in pending)
    && (forall x :: x in keys ==> x in pending || x in order)
    && (forall i, j :: 0 <= i < j < |order| ==> order[i] != order[j])
  }

  lemma EnumerationStart(keys: set<int>)
    ensures PartialEnumeration([], keys, keys)
  {
  }

  lemma EnumerationStep(order: seq<int>, pending: set<int>, keys: set<int>, x: int)
    requires PartialEnumeration(order, pending, keys) && x in pending
    ensures PartialEnumeration(order + [x], pending - {x}, keys)
  {
  }

  lemma EnumerationDone(order: seq<int>, keys: set<int>)
    requires PartialEnumeration(order, {}, keys)
    ensures IsEnumeration(order, keys)
  {
  }

  // ---------------------------------------------------------------------------
  // Commands

  datatype Command =
    | GetUsers
    | PrivateMessage(payload: string)
    | GetOfflineMessages(payload: string)
    | Chat(text: string)

  /** The read loop's dispatch: the exact line `GET_USERS`, then the `PM:` prefix, then `GET_OFFLINE_MSG:`. */
  function Classify(line: string): Command {
    if line == "GET_USERS" then GetUsers
    else if StartsWith(line, "PM:") then PrivateMessage(line[3..])
    else if StartsWith(line, "GET_OFFLINE_MSG:") then GetOfflineMessages(line[15..])
    else Chat(line)
  }

  /**
   * The sender id of a `GET_OFFLINE_MSG` request: the argument keeps the
   * prefix's colon (`substring(15)`), and one leading colon is stripped
   * before parsing.
   */
  function OfflineRequestSender(arg: string): Option<int> {
    ParseLong(if StartsWith(arg, ":") then arg[1..] else arg)
  }

  /** An `<id>:<text>` payload, as both ends read it. */
  datatype IdPayload = NoColon | BadId | WithId(id: int, text: string)

  /** `handlePrivateMessage`: split at the first colon; no colon ignores the line, a bad id throws. */
  function SplitIdPayload(payload: string): (a: IdPayload)
    ensures a.NoColon? <==> ':' !in payload
    ensures a.WithId? ==> exists head :: ':' !in head && payload == head + ":" + a.text && ParseLong(head) == Some(a.id)
    ensures a.BadId? ==> exists head, tail :: ':' !in head && payload == head + ":" + tail && ParseLong(head).None?
  {
    var parts := SplitFirst(payload, ':');
    if |parts| != 2 then NoColon
    else
      assert payload == parts[0] + ":" + parts[1];
      match ParseLong(parts[0])
      case None => BadId
      case Some(r) => WithId(r, parts[1])
  }

  /** A line the client encodes as `PM:<id>:<content>` reaches the server as a delivery of that content to that id. */
  lemma PrivateMessageDecodes(receiverId: int, content: string)
    requires IsLong(receiverId)
    ensures Classify("PM:" + LongToString(receiverId) + ":" + content) == PrivateMessage(LongToString(receiverId) + ":" + content)
    ensures SplitIdPayload(LongToString(receiverId) + ":" + content) == WithId(receiverId, content)
  {
    var payload := IdText(receiverId, content);
    assert "PM:" + LongToString(receiverId) + ":" + content == "PM:" + payload;
    PmClassified(payload);
    IdTextSplits(receiverId, content);
  }

  /** Any line starting with `PM:` is a private message carrying the rest. */
  lemma PmClassified(payload: string)
    ensures Classify("PM:" + payload) == PrivateMessage(payload)
  {
    var line := "PM:" + payload;
    assert line[0] == 'P';
    assert line[..3] == "PM:";
    assert line[3..] == payload;
  }

  /** `<id>:<text>` splits back into the id and the text. */
  lemma IdTextSplits(id: int, text: string)
    requires IsLong(id)
    ensures SplitIdPayload(IdText(id, text)) == WithId(id, text)
  {
    var head := LongToString(id);
    var payload := IdText(id, text);
    assert payload == head + [':'] + text;
    assert ':' in payload by { assert payload[|head|] == ':'; }
    SplitAtOnlyColon(head, text, SplitFirst(payload, ':'));
    ParseLongOfLongToString(id);
  }

  /** A `GET_OFFLINE_MSG:<id>` request asks for that sender. */
  lemma OfflineRequestDecodes(senderId: int)
    requires IsLong(senderId)
    ensures var line := "GET_OFFLINE_MSG:" + LongToString(senderId);
            Classify(line).GetOfflineMessages? && OfflineRequestSender(Classify(line).payload) == Some(senderId)
  {
    var line := "GET_OFFLINE_MSG:" + LongToString(senderId);
    assert line[..3] != "PM:" by { assert line[0] == 'G'; }
    assert line[..16] == "GET_OFFLINE_MSG:";
    assert line[15..] == ":" + LongToString(senderId);
    assert (":" + LongToString(senderId))[1..] == LongToString(senderId);
    ParseLongOfLongToString(senderId);
  }

  // ---------------------------------------------------------------------------
  // Writing to connections

  /** Writing `lines` to connection `c`: appended in order when `c` is open, lost otherwise. */
  function WriteAll(outbox: map<ConnId, seq<string>>, closed: set<ConnId>, c: ConnId, lines: seq<string>): map<ConnId, seq<string>> {
    if c in outbox && c !in closed then outbox[c := outbox[c] + lines] else outbox
  }

  /** The connections of the writers whose id is in `ids` and is not `except`. */
  function RecipientsAmong(writers: map<int, ConnId>, ids: set<int>, except: Option<int>): set<ConnId> {
    set id | id in ids && id in writers && except != Some(id) :: writers[id]
  }

  /** One line to each connection in `targets` that is still open. */
  function Broadcast(outbox: map<ConnId, seq<string>>, closed: set<ConnId>, targets: set<ConnId>, line: string): map<ConnId, seq<string>> {
    map c | c in outbox :: if c in targets && c !in closed then outbox[c] + [line] else outbox[c]
  }

  /** No two ids share a writer. */
  predicate Injective(writers: map<int, ConnId>) {
    forall a, b :: a in writers && b in writers && writers[a] == writers[b] ==> a == b
  }

  /**
   * A broadcast that excludes an id never reaches that id's connection, and
   * reaches every other writer's connection exactly once.
   */
  lemma BroadcastExcludes(outbox: map<ConnId, seq<string>>, closed: set<ConnId>, writers: map<int, ConnId>, id: int, line: string)
    requires Injective(writers)
    requires forall x :: x in writers ==> writers[x] in outbox
    ensures var after := Broadcast(outbox, closed, RecipientsAmong(writers, writers.Keys, Some(id)), line);
            (id in writers ==> after[writers[id]] == outbox[writers[id]]) &&
            (forall x :: x in writers && x != id && writers[x] !in closed ==> after[writers[x]] == outbox[writers[x]] + [line])
  {
  }

  /** A connection removed from the writers gets nothing from a broadcast to all remaining writers. */
  lemma LeaverNotReached(outbox: map<ConnId, seq<string>>, closed: set<ConnId>, writers: map<int, ConnId>, id: int, line: string)
    requires Injective(writers) && id in writers && writers[id] in outbox
    ensures var rest := writers - {id};
            Broadcast(outbox, closed, RecipientsAmong(rest, rest.Keys, None), line)[writers[id]] == outbox[writers[id]]
  {
    var rest := writers - {id};
    assert writers[id] !in RecipientsAmong(rest, rest.Keys, None);
  }

  /** Before the loop has served any id, nothing is written. */
  lemma BroadcastToNone(outbox: map<ConnId, seq<string>>, closed: set<ConnId>, writers: map<int, ConnId>,
                        except: Option<int>, line: string)
    ensures Broadcast(outbox, closed, RecipientsAmong(writers, {}, except), line) == outbox
  {
    assert RecipientsAmong(writers, {}, except) == {};
  }

  /** Adding one writer to the ids already served adds its connection to the broadcast. */
  lemma BroadcastStep(outbox: map<ConnId, seq<string>>, closed: set<ConnId>, writers: map<int, ConnId>,
                      done: set<int>, id: int, except: Option<int>, line: string)
    requires Injective(writers) && id in writers && id !in done && writers[id] in outbox
    ensures var before := Broadcast(outbox, closed, RecipientsAmong(writers, done, except), line);
            Broadcast(outbox, closed, RecipientsAmong(writers, done + {id}, except), line)
              == if except != Some(id) then WriteAll(before, closed, writers[id], [line]) else before
  {
    RecipientsGrow(writers, done, id, except);
  }

  /** One more id adds its writer to the recipients, unless it is the excluded one; that writer was not among them. */
  lemma RecipientsGrow(writers: map<int, ConnId>, done: set<int>, id: int, except: Option<int>)
    requires Injective(writers) && id in writers && id !in done
    ensures writers[id] !in RecipientsAmong(writers, done, except)
    ensures RecipientsAmong(writers, done + {id}, except)
              == RecipientsAmong(writers, done, except) + (if except != Some(id) then {writers[id]} else {})
  {
  }

  /** Writing no lines changes nothing; writing twice is writing both, in order. */
  lemma WriteAllAppends(outbox: map<ConnId, seq<string>>, closed: set<ConnId>, c: ConnId, a: seq<string>, b: seq<string>)
    ensures WriteAll(outbox, closed, c, []) == outbox
    ensures WriteAll(WriteAll(outbox, closed, c, a), closed, c, b) == WriteAll(outbox, closed, c, a + b)
  {
    if c in outbox && c !in closed {
      assert outbox[c] + [] == outbox[c];
      assert outbox[c] + a + b == outbox[c] + (a + b);
    }
  }

  /**
   * The per-sender counts announced at login: those of a successful sync that
   * found unread messages, none otherwise. A failed statistics query after a
   * successful unread query yields an empty map, so no line either.
   */
  function LoginStats(rows: seq<Row>, id: int, unreadDown: bool, statsDown: bool): (stats: map<int, int>)
    ensures unreadDown || statsDown || UnreadMessages(rows, id) == [] ==> stats == map[]
    ensures !unreadDown && !statsDown && UnreadMessages(rows, id) != [] ==> stats == Stats(rows, id)
  {
    var r := Sync(rows, Some(id), unreadDown, statsDown, None);
    if r.success && r.unreadMessages.value != [] then r.messageStats.value else map[]
  }

  /**
   * What `handleGetOfflineMessages` leaves for the next request: when the
   * mark after a successful fetch fails (its result is ignored), the same
   * messages are served again; when it succeeds, none are.
   */
  lemma MarkDecidesRedelivery(rows: seq<Row>, receiverId: int, senderId: int)
    ensures var ms := FromSender(rows, Some(receiverId), Some(senderId), false);
            && FromSender(MarkRead(rows, Some(IdsOf(ms)), true).1, Some(receiverId), Some(senderId), false) == ms
            && FromSender(MarkRead(rows, Some(IdsOf(ms)), false).1, Some(receiverId), Some(senderId), false) == []
  {
    ReadMarkReread(rows, receiverId, senderId);
  }

  // ---------------------------------------------------------------------------
  // The server's loops, over the values they read and write

  /** The loop of `broadcastUserJoined`/`broadcastUserLeft`/`broadcastMessage`, in the map's iteration order. */
  method BroadcastLoop(outbox: map<ConnId, seq<string>>, closed: set<ConnId>, writers: map<int, ConnId>,
                       except: Option<int>, line: string) returns (out: map<ConnId, seq<string>>)
    requires Injective(writers) && forall id :: id in writers ==> writers[id] in outbox
    ensures out == Broadcast(outbox, closed, RecipientsAmong(writers, writers.Keys, except), line)
    ensures out.Keys == outbox.Keys
  {
    out := outbox;
    var pending := writers.Keys;
    ghost var done: set<int> := {};
    BroadcastToNone(outbox, closed, writers, except, line);
    while pending != {}
      invariant done !! pending && done + pending == writers.Keys
      invariant out == Broadcast(outbox, closed, RecipientsAmong(writers, done, except), line)
      decreases pending
    {
      NonEmptyHasElement(pending);
      var id :| id in pending;
      BroadcastStep(outbox, closed, writers, done, id, except, line);
      if except != Some(id) {
        out := WriteAll(out, closed, writers[id], [line]);
      }
      pending := pending - {id};
      done := done + {id};
    }
    assert done == writers.Keys;
  }

  /** The `StringBuilder` loop of `sendUserList`: `order` is the roster's iteration order. */
  method BuildUserList(roster: set<int>, names: map<int, string>) returns (text: string, ghost order: seq<int>)
    ensures IsEnumeration(order, roster) && text == UserListLine(order, names)
  {
    text := "USER_LIST:";
    order := [];
    var first := true;
    var pending := roster;
    EnumerationStart(roster);
    while pending != {}
      invariant PartialEnumeration(order, pending, roster)
      invariant first <==> order == []
      invariant text == UserListLine(order, names)
      decreases pending
    {
      NonEmptyHasElement(pending);
      var id :| id in pending;
      var entry := IdText(id, NameOrDefault(names, id));
      UserListLineSnoc(order, names, id);
      EnumerationStep(order, pending, roster, id);
      if !first {
        text := text + "," + entry;
      } else {
        text := text + entry;
      }
      first := false;
      order := order + [id];
      pending := pending - {id};
    }
    EnumerationDone(order, roster);
  }

  /** The statistics loop of `syncOfflineMessagesForUser`: `order` is the map's iteration order. */
  method WriteStats(outbox: map<ConnId, seq<string>>, closed: set<ConnId>, conn: ConnId, stats: map<int, int>)
    returns (out: map<ConnId, seq<string>>, ghost order: seq<int>)
    ensures IsEnumeration(order, stats.Keys)
    ensures out == WriteAll(outbox, closed, conn, StatLines(order, stats))
    ensures out.Keys == outbox.Keys
  {
    out := outbox;
    order := [];
    WriteAllAppends(outbox, closed, conn, [], []);
    var pending := stats.Keys;
    EnumerationStart(stats.Keys);
    while pending != {}
      invariant PartialEnumeration(order, pending, stats.Keys)
      invariant out == WriteAll(outbox, closed, conn, StatLines(order, stats))
      decreases pending
    {
      NonEmptyHasElement(pending);
      var sender :| sender in pending;
      var line := StatLine(sender, stats[sender]);
      assert StatLines(order + [sender], stats) == StatLines(order, stats) + [line] by {
        assert (order + [sender])[..|order|] == order;
      }
      WriteAllAppends(outbox, closed, conn, StatLines(order, stats), [line]);
      EnumerationStep(order, pending, stats.Keys, sender);
      out := WriteAll(out, closed, conn, [line]);
      order := order + [sender];
      pending := pending - {sender};
    }
    EnumerationDone(order, stats.Keys);
  }

  /** The first loop of `handleGetOfflineMessages`: one `OFFLINE_MSG` line per message, in order. */
  method WriteOfflineLines(outbox: map<ConnId, seq<string>>, closed: set<ConnId>, c: ConnId, senderId: int, ms: seq<Message>)
    returns (out: map<ConnId, seq<string>>)
    ensures out == WriteAll(outbox, closed, c, OfflineMsgLines(senderId, ms))
    ensures out.Keys == outbox.Keys
  {
    out := outbox;
    WriteAllAppends(outbox, closed, c, [], []);
    var i := 0;
    while i < |ms|
      invariant 0 <= i <= |ms|
      invariant out == WriteAll(outbox, closed, c, OfflineMsgLines(senderId, ms[..i]))
    {
      var line := OfflineMsgLine(senderId, ms[i]);
      assert OfflineMsgLines(senderId, ms[..i + 1]) == OfflineMsgLines(senderId, ms[..i]) + [line] by {
        assert ms[..i + 1][..i] == ms[..i];
      }
      WriteAllAppends(outbox, closed, c, OfflineMsgLines(senderId, ms[..i]), [line]);
      out := WriteAll(out, closed, c, [line]);
      i := i + 1;
    }
    assert ms[..i] == ms;
  }

  /** The second loop of `handleGetOfflineMessages`: the messages' ids, in order. */
  method CollectIds(ms: seq<Message>) returns (ids: seq<int>)
    requires forall k :: 0 <= k < |ms| ==> ms[k].id.Some?
    ensures ids == IdsOf(ms)
  {
    ids := [];
    var j := 0;
    while j < |ms|
      invariant 0 <= j <= |ms|
      invariant ids == IdsOf(ms[..j])
    {
      assert ms[..j + 1][..j] == ms[..j];
      ids := ids + [ms[j].id.value];
      j := j + 1;
    }
    assert ms[..j] == ms;
  }

  /** The loop of `shutdown`: each online user's socket is closed, in the map's iteration order. */
  method CloseAll(closed: set<ConnId>, sockets: map<int, ConnId>) returns (after: set<ConnId>)
    ensures after == closed + RecipientsAmong(sockets, sockets.Keys, None)
  {
    after := closed;
    var pending := sockets.Keys;
    ghost var done: set<int> := {};
    assert RecipientsAmong(sockets, done, None) == {};
    while pending != {}
      invariant pending <= sockets.Keys && done == sockets.Keys - pending
      invariant after == closed + RecipientsAmong(sockets, done, None)
      decreases pending
    {
      NonEmptyHasElement(pending);
      var id :| id in pending;
      after := after + {sockets[id]};
      assert RecipientsAmong(sockets, done + {id}, None) == RecipientsAmong(sockets, done, None) + {sockets[id]};
      pending := pending - {id};
      done := done + {id};
    }
    assert done == sockets.Keys;
  }

  /** Marking rows read keeps every row id, so they stay below the next auto-increment value. */
  lemma MarkReadKeepsIds(rows: seq<Row>, ids: Option<seq<int>>, sqlError: bool, next: int)
    requires IdsBelow(rows, next)
    ensures IdsBelow(MarkRead(rows, ids, sqlError).1, next)
  {
  }

  // ---------------------------------------------------------------------------
  // The server

  /** The state of one connection's handler thread. */
  datatype Session = AwaitingId | Serving(userId: int, userName: string) | Ended

  class SocketService {
    /** The `Socket` of each online id, named by its connection. */
    var onlineUsers: map<int, ConnId>
    /** The `PrintWriter` of each online id, named by the connection it writes to. */
    var userWriters: map<int, ConnId>
    var userNames: map<int, string>
    var isRunning: bool
    var sessions: map<ConnId, Session>
    /** Every line written to each connection. */
    var outbox: map<ConnId, seq<string>>
    /** Closed sockets. */
    var closed: set<ConnId>
    /** The message table and its next auto-increment id. */
    var messages: seq<Row>
    var nextRowId: int
    /** The user table, read by the name lookup. */
    const users: seq<User>

    ghost predicate Valid()
      reads this
    {
      && onlineUsers == userWriters
      && sessions.Keys == outbox.Keys
      && closed <= sessions.Keys
      && (forall c :: c in sessions && sessions[c].Ended? ==> c in closed)
      && (forall id :: id in userWriters ==>
            && userWriters[id] in sessions
            && userWriters[id] !in closed
            && sessions[userWriters[id]].Serving?
            && sessions[userWriters[id]].userId == id)
      && IdsBelow(messages, nextRowId)
    }

    lemma WritersInjective()
      requires Valid()
      ensures Injective(userWriters)
      ensures forall id :: id in userWriters ==> userWriters[id] in outbox
    {
    }

    twostate predicate RosterUnchanged()
      reads this
    {
      onlineUsers == old(onlineUsers) && userWriters == old(userWriters) && userNames == old(userNames)
      && isRunning == old(isRunning) && sessions == old(sessions) && closed == old(closed)
    }

    /** The three maps and the running flag are as before. */
    twostate predicate RosterKept()
      reads this
    {
      onlineUsers == old(onlineUsers) && userWriters == old(userWriters) && userNames == old(userNames)
      && isRunning == old(isRunning)
    }

    twostate predicate StoreUnchanged()
      reads this
    {
      messages == old(messages) && nextRowId == old(nextRowId)
    }

    constructor (users: seq<User>)
      ensures Valid()
      ensures onlineUsers == map[] && userWriters == map[] && userNames == map[] && !isRunning
      ensures sessions == map[] && outbox == map[] && closed == {}
      ensures messages == [] && nextRowId == 1 && this.users == users
    {
      onlineUsers := map[];
      userWriters := map[];
      userNames := map[];
      isRunning := false;
      sessions := map[];
      outbox := map[];
      closed := {};
      messages := [];
      nextRowId := 1;
      this.users := users;
    }

    /** `startServer(port)`: the server runs, listening on the chosen port. */
    method StartServer(port: int) returns (listening: int)
      requires Valid()
      modifies this
      ensures Valid() && isRunning && listening == ServerPort(port)
      ensures onlineUsers == old(onlineUsers) && userWriters == old(userWriters) && userNames == old(userNames)
      ensures sessions == old(sessions) && outbox == old(outbox) && closed == old(closed) && StoreUnchanged()
    {
      listening := if port > 0 then port else DefaultPort;
      isRunning := true;
    }

    /** `serverSocket.accept()`: a new connection whose handler awaits the id line. */
    method Accept(conn: ConnId)
      requires Valid() && isRunning && conn !in sessions
      modifies this
      ensures Valid()
      ensures sessions == old(sessions)[conn := AwaitingId] && outbox == old(outbox)[conn := []]
      ensures onlineUsers == old(onlineUsers) && userWriters == old(userWriters) && userNames == old(userNames)
      ensures isRunning == old(isRunning) && closed == old(closed) && StoreUnchanged()
    {
      sessions := sessions[conn := AwaitingId];
      outbox := outbox[conn := []];
    }

    /** Writes `line` to every writer whose id is not `except`, in the map's iteration order. */
    method WriteToWriters(except: Option<int>, line: string)
      requires Valid()
      modifies this
      ensures Valid() && RosterUnchanged() && StoreUnchanged()
      ensures outbox == Broadcast(old(outbox), closed, RecipientsAmong(userWriters, userWriters.Keys, except), line)
    {
      WritersInjective();
      outbox := BroadcastLoop(outbox, closed, userWriters, except, line);
    }

    /**
     * The effect of `sendUserList(requester)`: the online roster, in the
     * iteration order `order`, to the requester's writer only; nothing is
     * written when the requester has no writer.
     */
    twostate predicate UserListSent(requester: int, order: seq<int>)
      reads this
    {
      && RosterUnchanged() && StoreUnchanged()
      && (requester !in userWriters ==> outbox == old(outbox))
      && (requester in userWriters ==>
            && IsEnumeration(order, onlineUsers.Keys)
            && outbox == WriteAll(old(outbox), closed, userWriters[requester], [UserListLine(order, userNames)]))
    }

    /** `sendUserList(requester)`; `order` is the roster's iteration order. */
    method SendUserList(requester: int) returns (ghost order: seq<int>)
      requires Valid()
      modifies this
      ensures Valid() && UserListSent(requester, order)
    {
      order := [];
      if requester !in userWriters {
        return;
      }
      var text;
      text, order := BuildUserList(onlineUsers.Keys, userNames);
      var c := userWriters[requester];
      if c !in closed {
        outbox := outbox[c := outbox[c] + [text]];
      }
    }

    /**
     * `syncOfflineMessagesForUser(id, out)`: one `OFFLINE_STAT` line per
     * sender of an unread message to `conn`, in the order `order` of the
     * statistics map.
     */
    method SyncOfflineMessagesForUser(id: int, conn: ConnId, unreadDown: bool, statsDown: bool)
      returns (ghost order: seq<int>)
      requires Valid() && conn in outbox
      modifies this
      ensures Valid() && RosterUnchanged() && StoreUnchanged()
      ensures IsEnumeration(order, LoginStats(messages, id, unreadDown, statsDown).Keys)
      ensures outbox == WriteAll(old(outbox), closed, conn, StatLines(order, LoginStats(messages, id, unreadDown, statsDown)))
    {
      var stats := LoginStats(messages, id, unreadDown, statsDown);
      var out;
      out, order := WriteStats(outbox, closed, conn, stats);
      outbox := out;
    }

    /** A valid id joins the roster: its socket, writer and name are recorded under the id. */
    method Login(conn: ConnId, id: int, name: string)
      requires Valid() && conn in sessions && sessions[conn].AwaitingId? && conn !in closed
      modifies this
      ensures Valid() && StoreUnchanged() && isRunning == old(isRunning)
      ensures sessions == old(sessions)[conn := Serving(id, name)] && closed == old(closed) && outbox == old(outbox)
      ensures onlineUsers == old(onlineUsers)[id := conn] && userWriters == old(userWriters)[id := conn]
      ensures userNames == old(userNames)[id := name]
    {
      sessions := sessions[conn := Serving(id, name)];
      onlineUsers := onlineUsers[id := conn];
      userWriters := userWriters[id := conn];
      userNames := userNames[id := name];
    }

    /**
     * The effect of the handshake on the id line `line` of connection `conn`
     * when the name lookup, the unread query and the statistics query fail
     * as the three flags say; `order` is the iteration order of the offline
     * statistics sent.
     */
    twostate predicate HandshakeDone(conn: ConnId, line: string, nameDown: bool, unreadDown: bool, statsDown: bool,
                                     order: seq<int>)
      reads this
    {
      && StoreUnchanged() && isRunning == old(isRunning) && sessions.Keys == old(sessions).Keys
      && (ParseLong(line).None? ==>
            && sessions == old(sessions)[conn := Ended] && closed == old(closed) + {conn}
            && onlineUsers == old(onlineUsers) && userWriters == old(userWriters) && userNames == old(userNames)
            && outbox == old(outbox))
      && (ParseLong(line).Some? ==>
            var id := ParseLong(line).value;
            var name := DisplayName(if nameDown then None else NameById(users, id), id);
            var stats := LoginStats(messages, id, unreadDown, statsDown);
            && sessions == old(sessions)[conn := Serving(id, name)] && closed == old(closed)
            && onlineUsers == old(onlineUsers)[id := conn] && userWriters == old(userWriters)[id := conn]
            && userNames == old(userNames)[id := name]
            && IsEnumeration(order, stats.Keys)
            && outbox == Broadcast(WriteAll(old(outbox), closed, conn, StatLines(order, stats)), closed,
                                   RecipientsAmong(userWriters, userWriters.Keys, Some(id)), JoinedLine(id, name)))
    }

    /**
     * The handshake on the first line: a non-numeric id ends the session with
     * no map touched; a valid id joins the roster, receives its offline
     * statistics (in the order `order`), and is announced to every other writer.
     */
    method Handshake(conn: ConnId, line: string, nameDown: bool, unreadDown: bool, statsDown: bool)
      returns (ghost order: seq<int>)
      requires Valid() && conn in sessions && sessions[conn].AwaitingId? && conn !in closed
      modifies this
      ensures Valid() && HandshakeDone(conn, line, nameDown, unreadDown, statsDown, order)
    {
      order := [];
      var parsed := ParseLong(line);
      if parsed.None? {
        sessions := sessions[conn := Ended];
        closed := closed + {conn};
        return;
      }
      var id := parsed.value;
      var stored := if nameDown then None else NameById(users, id);
      var name := DisplayName(stored, id);
      Login(conn, id, name);
      order := SyncOfflineMessagesForUser(id, conn, unreadDown, statsDown);
      WriteToWriters(Some(id), JoinedLine(id, name));
    }

    /** The effect of `broadcastMessage(sender, content)`: `"<name>: <content>"` to every writer but the sender's. */
    twostate predicate ChatSent(senderId: int, content: string)
      reads this
    {
      && RosterUnchanged() && StoreUnchanged()
      && outbox == Broadcast(old(outbox), closed, RecipientsAmong(userWriters, userWriters.Keys, Some(senderId)),
                             ChatLine(NameOrDefault(userNames, senderId), content))
    }

    /** `broadcastMessage(sender, content)` */
    method BroadcastMessage(senderId: int, content: string)
      requires Valid()
      modifies this
      ensures Valid() && ChatSent(senderId, content)
    {
      var senderName := NameOrDefault(userNames, senderId);
      WriteToWriters(Some(senderId), ChatLine(senderName, content));
    }

    /** `sendMessage(id, content)`: to that id's writer, a no-op when there is none. */
    method SendMessage(userId: int, content: string)
      requires Valid()
      modifies this
      ensures Valid() && RosterUnchanged() && StoreUnchanged()
      ensures userId !in userWriters ==> outbox == old(outbox)
      ensures userId in userWriters ==> outbox == WriteAll(old(outbox), closed, userWriters[userId], [content])
    {
      if userId in userWriters {
        var c := userWriters[userId];
        if c !in closed {
          outbox := outbox[c := outbox[c] + [content]];
        }
      }
    }

    /**
     * The effect of `handlePrivateMessage(sender, payload)`: a line without a
     * colon or with a bad id changes nothing; an online recipient's writer
     * gets `PM:<sender>:<content>`; for an offline one the message is stored.
     */
    twostate predicate PrivateMessageHandled(senderId: int, payload: string, today: int, storeDown: bool)
      reads this
    {
      && RosterUnchanged()
      && (!SplitIdPayload(payload).WithId? ==> outbox == old(outbox) && StoreUnchanged())
      && (var a := SplitIdPayload(payload);
          a.WithId? && a.id in userWriters ==>
            outbox == WriteAll(old(outbox), closed, userWriters[a.id], [PmLine(senderId, a.text)]) && StoreUnchanged())
      && (var a := SplitIdPayload(payload);
          a.WithId? && a.id !in userWriters ==>
            var s := Store(old(messages), old(nextRowId), Some(senderId), Some(a.id), a.text, today, storeDown);
            outbox == old(outbox) && messages == s.1 && nextRowId == if s.0 then old(nextRowId) + 1 else old(nextRowId))
    }

    /**
     * `handlePrivateMessage(sender, payload)`: delivered to an online
     * recipient's writer, stored as an offline message otherwise. `ok` is
     * false when the recipient id does not parse: the exception ends the
     * session.
     */
    method HandlePrivateMessage(senderId: int, payload: string, today: int, storeDown: bool) returns (ok: bool)
      requires Valid()
      modifies this
      ensures Valid() && PrivateMessageHandled(senderId, payload, today, storeDown)
      ensures ok <==> !SplitIdPayload(payload).BadId?
    {
      var parts := SplitFirst(payload, ':');
      if |parts| != 2 {
        return true;
      }
      var parsed := ParseLong(parts[0]);
      if parsed.None? {
        return false;
      }
      var receiverId := parsed.value;
      var content := parts[1];
      if receiverId in userWriters {
        var c := userWriters[receiverId];
        if c !in closed {
          outbox := outbox[c := outbox[c] + [PmLine(senderId, content)]];
        }
      } else {
        var s := Store(messages, nextRowId, Some(senderId), Some(receiverId), content, today, storeDown);
        messages := s.1;
        if s.0 {
          nextRowId := nextRowId + 1;
        }
      }
      ok := true;
    }

    /** The found messages to connection `c`, one line each, then all of them marked read. */
    method ServeOfflineMessages(c: ConnId, senderId: int, ms: seq<Message>, markDown: bool)
      requires Valid() && c in outbox && forall k :: 0 <= k < |ms| ==> ms[k].id.Some?
      modifies this
      ensures Valid() && RosterUnchanged() && nextRowId == old(nextRowId)
      ensures outbox == WriteAll(old(outbox), closed, c, OfflineMsgLines(senderId, ms))
      ensures messages == MarkRead(old(messages), Some(IdsOf(ms)), markDown).1
    {
      WriteOfflineMessages(c, senderId, ms);
      var ids := CollectIds(ms);
      MarkServed(ids, markDown);
    }

    /** The first loop of `handleGetOfflineMessages`, on the receiver's writer. */
    method WriteOfflineMessages(c: ConnId, senderId: int, ms: seq<Message>)
      requires Valid() && c in outbox
      modifies this
      ensures Valid() && RosterUnchanged() && StoreUnchanged()
      ensures outbox == WriteAll(old(outbox), closed, c, OfflineMsgLines(senderId, ms))
    {
      outbox := WriteOfflineLines(outbox, closed, c, senderId, ms);
    }

    /** `markMessagesAsRead(ids)` on the server's table. */
    method MarkServed(ids: seq<int>, markDown: bool)
      requires Valid()
      modifies this
      ensures Valid() && RosterUnchanged() && nextRowId == old(nextRowId) && outbox == old(outbox)
      ensures messages == MarkRead(old(messages), Some(ids), markDown).1
    {
      MarkReadKeepsIds(messages, Some(ids), markDown, nextRowId);
      messages := MarkRead(messages, Some(ids), markDown).1;
    }

    /**
     * The effect of `handleGetOfflineMessages(receiver, arg)`: the unread
     * messages from the requested sender to the receiver's writer, then marked
     * read; nothing at all for a bad id, an empty list or no writer. The
     * fetch and the mark fail independently: a failed mark leaves the rows
     * that were written unread, so the next request serves them again.
     */
    twostate predicate OfflineRequestServed(receiverId: int, arg: string, fetchDown: bool, markDown: bool)
      reads this
    {
      && RosterUnchanged() && nextRowId == old(nextRowId)
      && (OfflineRequestSender(arg).None? || receiverId !in userWriters ==>
            outbox == old(outbox) && messages == old(messages))
      && (OfflineRequestSender(arg).Some? && receiverId in userWriters ==>
            var sender := OfflineRequestSender(arg).value;
            var ms := FromSender(old(messages), Some(receiverId), Some(sender), fetchDown);
            && (ms == [] ==> outbox == old(outbox) && messages == old(messages))
            && (ms != [] ==> outbox == WriteAll(old(outbox), closed, userWriters[receiverId], OfflineMsgLines(sender, ms))
                             && messages == MarkRead(old(messages), Some(IdsOf(ms)), markDown).1)
            && (markDown ==> messages == old(messages)))
    }

    /**
     * `handleGetOfflineMessages(receiver, arg)`: the unread messages from the
     * requested sender, one `OFFLINE_MSG` line each to the receiver's writer,
     * then all of them marked read. A bad id, an empty list or no writer
     * means nothing is written and nothing is marked.
     */
    method HandleGetOfflineMessages(receiverId: int, arg: string, fetchDown: bool, markDown: bool)
      requires Valid()
      modifies this
      ensures Valid() && OfflineRequestServed(receiverId, arg, fetchDown, markDown)
    {
      var s := if StartsWith(arg, ":") then arg[1..] else arg;
      var parsed := ParseLong(s);
      if parsed.None? {
        return;
      }
      var senderId := parsed.value;
      var ms := FromSender(messages, Some(receiverId), Some(senderId), fetchDown);
      if receiverId in userWriters && ms != [] {
        ServeOfflineMessages(userWriters[receiverId], senderId, ms, markDown);
      }
    }

    /**
     * The effect of the `finally` block on the joined session `conn`: its id
     * leaves the three maps, every remaining writer gets `USER_LEFT`, and the
     * socket is closed.
     */
    twostate predicate TornDown(conn: ConnId)
      reads this
    {
      && conn in old(sessions) && old(sessions[conn]).Serving?
      && StoreUnchanged() && isRunning == old(isRunning)
      && var id := old(sessions[conn]).userId;
         var name := old(sessions[conn]).userName;
         && onlineUsers == old(onlineUsers) - {id} && userWriters == old(userWriters) - {id}
         && userNames == old(userNames) - {id}
         && outbox == Broadcast(old(outbox), old(closed), RecipientsAmong(userWriters, userWriters.Keys, None), LeftLine(id, name))
         && sessions == old(sessions)[conn := Ended] && closed == old(closed) + {conn}
    }

    /**
     * The `finally` block of a session that had an id: the id leaves all three
     * maps (whichever connection they name), every remaining writer is told,
     * and the socket is closed.
     */
    method Teardown(conn: ConnId)
      requires Valid() && conn in sessions && sessions[conn].Serving?
      modifies this
      ensures Valid() && TornDown(conn)
    {
      var id := sessions[conn].userId;
      var name := sessions[conn].userName;
      Forget(id);
      WriteToWriters(None, LeftLine(id, name));
      CloseSession(conn);
    }

    /** The three `remove(userId)` calls of the `finally` block. */
    method Forget(id: int)
      requires Valid()
      modifies this
      ensures Valid() && StoreUnchanged() && isRunning == old(isRunning)
      ensures onlineUsers == old(onlineUsers) - {id} && userWriters == old(userWriters) - {id}
      ensures userNames == old(userNames) - {id}
      ensures sessions == old(sessions) && outbox == old(outbox) && closed == old(closed)
    {
      onlineUsers := onlineUsers - {id};
      userWriters := userWriters - {id};
      userNames := userNames - {id};
    }

    /** `socket.close()` at the end of a session no writer names any more. */
    method CloseSession(conn: ConnId)
      requires Valid() && conn in sessions
      requires forall id :: id in userWriters ==> userWriters[id] != conn
      modifies this
      ensures Valid() && StoreUnchanged() && RosterKept() && outbox == old(outbox)
      ensures sessions == old(sessions)[conn := Ended] && closed == old(closed) + {conn}
    {
      closed := closed + {conn};
      sessions := sessions[conn := Ended];
    }

    /**
     * One line read by a connection's handler: the id line of a new session
     * is the handshake; every later line is served by its command.
     */
    method Receive(conn: ConnId, line: string, today: int, f: DbFaults) returns (ghost order: seq<int>)
      requires Valid() && conn in sessions && !sessions[conn].Ended? && conn !in closed
      modifies this
      ensures Valid() && sessions.Keys == old(sessions).Keys
      ensures old(sessions[conn]).AwaitingId? ==> HandshakeDone(conn, line, f.nameLookup, f.unreadQuery, f.statsQuery, order)
      ensures old(sessions[conn]).AwaitingId? ==> (sessions[conn].Serving? <==> ParseLong(line).Some?)
      ensures old(sessions[conn]).Serving? ==> Served(conn, line, today, f, order)
      ensures old(sessions[conn]).Serving? && !Classify(line).PrivateMessage? ==>
                sessions == old(sessions) && userWriters == old(userWriters) && nextRowId == old(nextRowId)
      ensures old(sessions[conn]).Serving? && Classify(line).PrivateMessage? ==>
                (sessions[conn] == Ended <==> SplitIdPayload(Classify(line).payload).BadId?)
    {
      if sessions[conn].AwaitingId? {
        order := Handshake(conn, line, f.nameLookup, f.unreadQuery, f.statsQuery);
      } else {
        order := Serve(conn, line, today, f);
      }
    }

    /**
     * The effect of one line `line` from the joined session `conn`, by its
     * command: `GET_USERS` answers the requester only, `PM:` forwards or
     * stores the message (a bad receiver id throws, which ends the session),
     * `GET_OFFLINE_MSG:` serves the requested messages, and anything else is
     * broadcast as chat to every writer but the sender's.
     */
    twostate predicate Served(conn: ConnId, line: string, today: int, f: DbFaults, order: seq<int>)
      reads this
    {
      && conn in old(sessions) && old(sessions[conn]).Serving?
      && var id := old(sessions[conn]).userId;
         match Classify(line)
         case GetUsers => UserListSent(id, order)
         case PrivateMessage(payload) =>
           if SplitIdPayload(payload).BadId? then TornDown(conn) else PrivateMessageHandled(id, payload, today, f.store)
         case GetOfflineMessages(arg) => OfflineRequestServed(id, arg, f.senderQuery, f.markRead)
         case Chat(text) => ChatSent(id, text)
    }

    /** A `PM:` line from a joined user; a malformed receiver id ends the session. */
    method ServePrivateMessage(conn: ConnId, payload: string, today: int, storeDown: bool)
      requires Valid() && conn in sessions && sessions[conn].Serving?
      modifies this
      ensures Valid() && sessions.Keys == old(sessions).Keys
      ensures SplitIdPayload(payload).BadId? ==> TornDown(conn)
      ensures !SplitIdPayload(payload).BadId? ==> PrivateMessageHandled(old(sessions[conn].userId), payload, today, storeDown)
      ensures sessions[conn] == Ended <==> SplitIdPayload(payload).BadId?
    {
      var ok := HandlePrivateMessage(sessions[conn].userId, payload, today, storeDown);
      if !ok {
        Teardown(conn);
      }
    }

    /** The read loop's dispatch of one line from a joined user. */
    method Serve(conn: ConnId, line: string, today: int, f: DbFaults) returns (ghost order: seq<int>)
      requires Valid() && conn in sessions && sessions[conn].Serving?
      modifies this
      ensures Valid() && sessions.Keys == old(sessions).Keys
      ensures Served(conn, line, today, f, order)
      ensures !Classify(line).PrivateMessage? ==>
                sessions == old(sessions) && userWriters == old(userWriters) && nextRowId == old(nextRowId)
      ensures Classify(line).PrivateMessage? ==>
                (sessions[conn] == Ended <==> SplitIdPayload(Classify(line).payload).BadId?)
    {
      var id := sessions[conn].userId;
      order := [];
      match Classify(line) {
        case GetUsers =>
          order := SendUserList(id);
        case PrivateMessage(payload) =>
          ServePrivateMessage(conn, payload, today, f.store);
        case GetOfflineMessages(arg) =>
          HandleGetOfflineMessages(id, arg, f.senderQuery, f.markRead);
        case Chat(text) =>
          BroadcastMessage(id, text);
      }
    }

    /**
     * The stream of a connection ended (or its socket failed): a session that
     * never got an id just closes; one with an id is torn down.
     */
    method EndOfStream(conn: ConnId)
      requires Valid() && conn in sessions && !sessions[conn].Ended?
      modifies this
      ensures Valid() && StoreUnchanged() && sessions == old(sessions)[conn := Ended] && closed == old(closed) + {conn}
      ensures old(sessions[conn]).AwaitingId? ==>
                && onlineUsers == old(onlineUsers) && userWriters == old(userWriters) && userNames == old(userNames)
                && outbox == old(outbox)
      ensures old(sessions[conn]).Serving? ==> TornDown(conn)
    {
      if sessions[conn].AwaitingId? {
        sessions := sessions[conn := Ended];
        closed := closed + {conn};
      } else {
        Teardown(conn);
      }
    }

    /**
     * `shutdown()`: every online user's socket is closed and the socket and
     * writer maps are cleared; the name map is kept.
     */
    method Shutdown()
      requires Valid()
      modifies this
      ensures Valid() && StoreUnchanged() && !isRunning
      ensures onlineUsers == map[] && userWriters == map[] && userNames == old(userNames)
      ensures closed == old(closed) + RecipientsAmong(old(onlineUsers), old(onlineUsers).Keys, None)
      ensures sessions == old(sessions) && outbox == old(outbox)
    {
      isRunning := false;
      assert RecipientsAmong(onlineUsers, onlineUsers.Keys, None) <= sessions.Keys;
      closed := CloseAll(closed, onlineUsers);
      onlineUsers := map[];
      userWriters := map[];
    }
  }
}
