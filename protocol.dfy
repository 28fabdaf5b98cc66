/**
 * The wire protocol end to end: each line the relay writes, read back by the
 * client's dispatch and payload parsing, yields what the relay encoded, and
 * each command the client writes is read by the relay as the client meant it.
 */
module WireProtocol {
  import opened JavaText
  import opened MessageModel
  import opened Relay
  import opened ClientView

  /** The users a roster line names, in the order the relay wrote them. */
  function RosterOf(order: seq<int>, names: map<int, string>): (users: seq<ClientUser>)
    ensures |users| == |order|
    ensures forall k :: 0 <= k < |order| ==> users[k] == ClientUser(order[k], NameOrDefault(names, order[k]))
  {
    if order == [] then []
    else RosterOf(order[..|order| - 1], names) + [ClientUser(order[|order| - 1], NameOrDefault(names, order[|order| - 1]))]
  }

  /** A name the relay can put in a roster entry without breaking its split: non-empty, no `:` and no `,`. */
  predicate SafeName(name: string) {
    name != "" && ':' !in name && ',' !in name
  }

  // Each prefix the relay writes is the one the dispatch picks, whatever follows it.

  lemma DispatchListUpdate(payload: string)
    ensures Dispatch("USER_LIST:" + payload) == ListUpdate(payload)
  {
    var line := "USER_LIST:" + payload;
    assert line[..10] == "USER_LIST:" && line[10..] == payload;
  }

  lemma DispatchJoined(payload: string)
    ensures Dispatch("USER_JOINED:" + payload) == Joined(payload)
  {
    var line := "USER_JOINED:" + payload;
    assert line[..12] == "USER_JOINED:" && line[12..] == payload && line[5] == 'J';
  }

  lemma DispatchLeft(payload: string)
    ensures Dispatch("USER_LEFT:" + payload) == Left(payload)
  {
    var line := "USER_LEFT:" + payload;
    assert line[..10] == "USER_LEFT:" && line[10..] == payload && line[5] == 'L' && line[6] == 'E';
  }

  lemma DispatchPrivate(payload: string)
    ensures Dispatch("PM:" + payload) == Private(payload)
  {
    var line := "PM:" + payload;
    assert line[..3] == "PM:" && line[3..] == payload && line[0] == 'P';
  }

  lemma DispatchOfflineStat(payload: string)
    ensures Dispatch("OFFLINE_STAT:" + payload) == OfflineStat(payload)
  {
    var line := "OFFLINE_STAT:" + payload;
    assert line[..13] == "OFFLINE_STAT:" && line[13..] == payload && line[0] == 'O';
  }

  lemma DispatchOfflineMessage(payload: string)
    ensures Dispatch("OFFLINE_MSG:" + payload) == OfflineMessage(payload)
  {
    var line := "OFFLINE_MSG:" + payload;
    assert line[..12] == "OFFLINE_MSG:" && line[12..] == payload && line[0] == 'O' && line[8] == 'M';
  }

  /** One `<id>:<name>` entry reads back as that user. */
  lemma EntryParses(id: int, name: string)
    requires IsLong(id) && name != "" && ':' !in name
    ensures ParseEntry(LongToString(id) + ":" + name) == UserEntry(ClientUser(id, name))
  {
    var head := LongToString(id);
    assert Join([head, name], ':') == head + ":" + name by {
      assert [head, name][1..] == [name];
    }
    JavaSplitOfJoin([head, name], ':');
    ParseLongOfLongToString(id);
  }

  /** Every entry of a roster reads back, so the whole list does and nothing stops the loop. */
  lemma {:induction false} EntriesParse(order: seq<int>, names: map<int, string>)
    requires forall k :: 0 <= k < |order| ==> IsLong(order[k]) && SafeName(NameOrDefault(names, order[k]))
    ensures ParseEntries(UserEntries(order, names)) == (RosterOf(order, names), true)
  {
    if order != [] {
      var init := order[..|order| - 1];
      var id := order[|order| - 1];
      var es := UserEntries(order, names);
      assert es[..|es| - 1] == UserEntries(init, names);
      assert EntriesOf(es)[..|es| - 1] == EntriesOf(es[..|es| - 1]);
      EntriesParse(init, names);
      EntryParses(id, NameOrDefault(names, id));
    }
  }

  /**
   * `USER_LIST:` as the relay writes it reaches the client as a complete
   * roster update naming exactly the listed users, in order.
   */
  lemma UserListReachesClient(order: seq<int>, names: map<int, string>)
    requires forall k :: 0 <= k < |order| ==> IsLong(order[k]) && SafeName(NameOrDefault(names, order[k]))
    ensures var d := Dispatch(UserListLine(order, names));
            d.ListUpdate? && RosterUpdate(d.payload) == (RosterOf(order, names), true)
  {
    var payload := Join(UserEntries(order, names), ',');
    DispatchListUpdate(payload);
    if order == [] {
      assert payload == "";
    } else {
      var es := UserEntries(order, names);
      forall k | 0 <= k < |es| ensures ',' !in es[k] {
        assert es[k] == IdText(order[k], NameOrDefault(names, order[k]));
      }
      assert es[|es| - 1] != "";
      JavaSplitOfJoin(es, ',');
      assert payload != "" by {
        assert JavaSplit(payload, ',') != [""];
      }
      EntriesParse(order, names);
    }
  }

  /** The ids of a roster are the ids the relay listed, so the client's online set becomes itself plus those. */
  lemma RosterIds(order: seq<int>, names: map<int, string>)
    ensures IdsIn(RosterOf(order, names)) == set k | 0 <= k < |order| :: order[k]
  {
    var users := RosterOf(order, names);
    forall x | x in IdsIn(users) ensures x in set k | 0 <= k < |order| :: order[k] {
      var k :| 0 <= k < |users| && users[k].id == x;
      assert order[k] == x;
    }
    forall x | x in set k | 0 <= k < |order| :: order[k] ensures x in IdsIn(users) {
      var k :| 0 <= k < |order| && order[k] == x;
      assert users[k].id == x;
    }
  }

  /** `USER_JOINED` reads back as the user who joined. */
  lemma JoinedReachesClient(id: int, name: string)
    requires IsLong(id) && name != "" && ':' !in name
    ensures Dispatch(JoinedLine(id, name)) == Joined(IdText(id, name))
    ensures ParseEntry(IdText(id, name)) == UserEntry(ClientUser(id, name))
  {
    DispatchJoined(IdText(id, name));
    EntryParses(id, name);
  }

  /** `USER_LEFT` reads back as the user who left. */
  lemma LeftReachesClient(id: int, name: string)
    requires IsLong(id) && name != "" && ':' !in name
    ensures Dispatch(LeftLine(id, name)) == Left(IdText(id, name))
    ensures ParseEntry(IdText(id, name)) == UserEntry(ClientUser(id, name))
  {
    DispatchLeft(IdText(id, name));
    EntryParses(id, name);
  }

  /** The relay's `PM:<sender>:<content>` reaches the receiver as that content from that sender. */
  lemma PmReachesClient(senderId: int, content: string)
    requires IsLong(senderId)
    ensures Dispatch(PmLine(senderId, content)) == Private(IdText(senderId, content))
    ensures SplitIdPayload(IdText(senderId, content)) == WithId(senderId, content)
  {
    DispatchPrivate(IdText(senderId, content));
    PrivateMessageDecodes(senderId, content);
  }

  /**
   * A private message end to end: the client's `PM:<receiver>:<content>`
   * reaches the relay as that content for that receiver, and the line the
   * relay forwards reaches the receiver as that content from the sender.
   */
  lemma PrivateMessageRoundTrip(senderId: int, receiverId: int, content: string)
    requires IsLong(senderId) && IsLong(receiverId)
    ensures Classify(PmCommand(receiverId, content)) == PrivateMessage(IdText(receiverId, content))
    ensures SplitIdPayload(IdText(receiverId, content)) == WithId(receiverId, content)
    ensures Dispatch(PmLine(senderId, content)) == Private(IdText(senderId, content))
    ensures SplitIdPayload(IdText(senderId, content)) == WithId(senderId, content)
  {
    PrivateMessageDecodes(receiverId, content);
    PmReachesClient(senderId, content);
  }

  /** An `OFFLINE_MSG` line reads back as that sender and that content (`null` for a null content). */
  lemma OfflineMessageReachesClient(senderId: int, m: Message)
    requires IsLong(senderId)
    ensures var text := if m.content.Some? then m.content.value else "null";
            && Dispatch(OfflineMsgLine(senderId, m)) == OfflineMessage(IdText(senderId, text))
            && SplitIdPayload(IdText(senderId, text)) == WithId(senderId, text)
  {
    var text := if m.content.Some? then m.content.value else "null";
    DispatchOfflineMessage(IdText(senderId, text));
    PrivateMessageDecodes(senderId, text);
  }

  /** An `OFFLINE_STAT` line reads back as that sender and that count, so the client's parses succeed. */
  lemma StatReachesClient(senderId: int, count: int)
    requires IsLong(senderId) && IsInt(count)
    ensures var payload := IdText(senderId, LongToString(count));
            && Dispatch(StatLine(senderId, count)) == OfflineStat(payload)
            && SplitFirst(payload, ':') == [LongToString(senderId), LongToString(count)]
            && ParseLong(LongToString(senderId)) == Some(senderId)
            && ParseInt(LongToString(count)) == Some(count)
  {
    var head := LongToString(senderId);
    var payload := IdText(senderId, LongToString(count));
    DispatchOfflineStat(payload);
    assert payload == head + [':'] + LongToString(count);
    assert ':' in payload by { assert payload[|head|] == ':'; }
    SplitAtOnlyColon(head, LongToString(count), SplitFirst(payload, ':'));
    ParseLongOfLongToString(senderId);
    ParseIntOfLongToString(count);
  }

  /** The first `": "` of `name + ": " + content` is the one after the name, when the name holds none. */
  lemma FirstSeparatorAfterName(name: string, content: string)
    requires !Contains(name, ": ")
    ensures Find(ChatLine(name, content), ": ") == Some(|name|)
  {
    var line := ChatLine(name, content);
    assert MatchAt(line, ": ", |name|) by {
      assert line[|name|..|name| + 2] == ": ";
    }
    forall k | 0 <= k < |name| ensures !MatchAt(line, ": ", k) {
      if k + 2 <= |name| {
        assert line[k..k + 2] == name[k..k + 2];
        assert !MatchAt(name, ": ", k);
      } else {
        assert line[k + 1] == ':';
      }
    }
    var f := Find(line, ": ");
    assert f.Some? && f.value <= |name|;
  }

  /**
   * A chat line reaches the client's bubble path exactly when no command
   * prefix starts `name + ": "` (the text never decides it, since no prefix
   * holds a space), and there it reads back as its sender's name and its
   * text when the name holds no `": "`.
   */
  lemma ChatLineReachesClient(name: string, content: string)
    requires !Contains(name, ": ")
    ensures Dispatch(ChatLine(name, content)).Plain? <==> forall p :: p in Prefixes ==> !StartsWith(name + ": ", p)
    ensures ParseBubble(ChatLine(name, content)) == (name, content)
  {
    var line := ChatLine(name, content);
    forall p | p in Prefixes
      ensures StartsWith(line, p) <==> StartsWith(name + ": ", p)
    {
      PrefixOfChatLine(name, content, p);
    }
    FirstSeparatorAfterName(name, content);
  }

  /** Whether a space-free prefix starts a chat line depends only on the name and the separator. */
  lemma PrefixOfChatLine(name: string, content: string, p: string)
    requires ' ' !in p
    ensures StartsWith(ChatLine(name, content), p) <==> StartsWith(name + ": ", p)
  {
    var line := ChatLine(name, content);
    var head := name + ": ";
    assert line == head + content;
    assert line[|name| + 1] == ' ';
    if |p| <= |head| {
      assert line[..|p|] == head[..|p|];
    } else {
      assert p[|name| + 1] != ' ';
    }
  }

  /**
   * A user named `PM` is misread: its chat line `"PM: <text>"` reaches every
   * client as a private message whose payload is `" <text>"`, not as a bubble.
   */
  lemma SenderNamedPmMisread(content: string)
    ensures Dispatch(ChatLine("PM", content)) == Private(" " + content)
  {
    var line := ChatLine("PM", content);
    assert line == "PM:" + (" " + content);
    assert line[0] == 'P' && line[..3] == "PM:";
  }
}
