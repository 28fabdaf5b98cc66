/**
 * The client's half of the wire protocol, from `MainView`: how a line from the
 * server is dispatched, how its payload is parsed, the user-list state the
 * window keeps (the online ids, every known user, the list on screen and
 * whether it shows everyone), and the lines the client sends.
 */
module ClientView {
  import opened JavaText
  import opened MessageModel
  import opened Relay

  /** A `User` as the window keeps it: an id and a display name. */
  datatype ClientUser = ClientUser(id: int, name: string)

  // ---------------------------------------------------------------------------
  // Server lines

  /** A server line, by the prefix it starts with; the payload is what follows the prefix. */
  datatype ServerLine =
    | ListUpdate(payload: string)
    | Joined(payload: string)
    | Left(payload: string)
    | Private(payload: string)
    | OfflineStat(payload: string)
    | OfflineMessage(payload: string)
    | Plain(line: string)

  const Prefixes: seq<string> := ["USER_LIST:", "USER_JOINED:", "USER_LEFT:", "PM:", "OFFLINE_STAT:", "OFFLINE_MSG:"]

  function PrefixOf(d: ServerLine): string {
    match d
    case ListUpdate(_) => "USER_LIST:"
    case Joined(_) => "USER_JOINED:"
    case Left(_) => "USER_LEFT:"
    case Private(_) => "PM:"
    case OfflineStat(_) => "OFFLINE_STAT:"
    case OfflineMessage(_) => "OFFLINE_MSG:"
    case Plain(_) => ""
  }

  /**
   * The listener's dispatch: the six prefixes in order, each stripped exactly;
   * a line with none of them is a chat line.
   */
  function Dispatch(line: string): (d: ServerLine)
    ensures !d.Plain? ==> PrefixOf(d) in Prefixes && line == PrefixOf(d) + d.payload
    ensures d.Plain? <==> forall p :: p in Prefixes ==> !StartsWith(line, p)
    ensures d.Plain? ==> d.line == line
  {
    if StartsWith(line, "USER_LIST:") then ListUpdate(line[10..])
    else if StartsWith(line, "USER_JOINED:") then Joined(line[12..])
    else if StartsWith(line, "USER_LEFT:") then Left(line[10..])
    else if StartsWith(line, "PM:") then Private(line[3..])
    else if StartsWith(line, "OFFLINE_STAT:") then OfflineStat(line[13..])
    else if StartsWith(line, "OFFLINE_MSG:") then OfflineMessage(line[12..])
    else Plain(line)
  }

  // ---------------------------------------------------------------------------
  // Payloads

  /** A roster entry `"<id>:<name>"` read with `split(":")`. */
  datatype Entry = Skipped | BadEntryId | UserEntry(user: ClientUser)

  /**
   * Exactly two pieces give a user; any other count skips the entry; a first
   * piece that is not a long throws.
   */
  function ParseEntry(info: string): Entry {
    var parts := JavaSplit(info, ':');
    if |parts| != 2 then Skipped
    else
      match ParseLong(parts[0])
      case None => BadEntryId
      case Some(id) => UserEntry(ClientUser(id, parts[1]))
  }

  /** An entry is skipped unless it splits in two, throws when the id does not parse, and is read as that id and name otherwise. */
  lemma ParseEntryCases(info: string)
    ensures ParseEntry(info).Skipped? <==> |JavaSplit(info, ':')| != 2
    ensures ParseEntry(info).BadEntryId? <==> |JavaSplit(info, ':')| == 2 && ParseLong(JavaSplit(info, ':')[0]).None?
    ensures ParseEntry(info).UserEntry? ==>
              Some(ParseEntry(info).user.id) == ParseLong(JavaSplit(info, ':')[0]) && ParseEntry(info).user.name == JavaSplit(info, ':')[1]
  {
  }

  /** Each entry of a payload, read on its own. */
  function EntriesOf(entries: seq<string>): (es: seq<Entry>)
    ensures |es| == |entries|
  {
    seq(|entries|, k requires 0 <= k < |entries| => ParseEntry(entries[k]))
  }

  /** The users of read entries, in order, up to the first bad id; `complete` says there was none. */
  function Collect(es: seq<Entry>): (r: (seq<ClientUser>, bool))
    ensures |r.0| <= |es|
  {
    if es == [] then ([], true)
    else
      var before := Collect(es[..|es| - 1]);
      if !before.1 then before
      else
        match es[|es| - 1]
        case Skipped => before
        case BadEntryId => (before.0, false)
        case UserEntry(u) => (before.0 + [u], true)
  }

  /**
   * The users read from the entries of a `USER_LIST` payload, in order, up to
   * the first entry whose id does not parse; `complete` says none did.
   */
  function ParseEntries(entries: seq<string>): (r: (seq<ClientUser>, bool))
    ensures |r.0| <= |entries|
  {
    Collect(EntriesOf(entries))
  }

  /** `handleUserListUpdate`'s reading of its payload: an empty payload lists nobody. */
  function RosterUpdate(payload: string): (seq<ClientUser>, bool) {
    if payload == "" then ([], true) else ParseEntries(JavaSplit(payload, ','))
  }

  /** Once an entry has thrown, later entries change nothing. */
  lemma {:induction false} CollectStops(es: seq<Entry>, more: seq<Entry>)
    requires !Collect(es).1
    ensures Collect(es + more) == Collect(es)
    decreases |more|
  {
    if more != [] {
      var init := more[..|more| - 1];
      assert (es + more)[..|es + more| - 1] == es + init;
      CollectStops(es, init);
    } else {
      assert es + more == es;
    }
  }

  /** `CollectStops` read on a prefix: a throw within the first `j` entries decides the result. */
  lemma {:induction false} CollectStopsAt(es: seq<Entry>, j: int)
    requires 0 <= j <= |es| && !Collect(es[..j]).1
    ensures Collect(es) == Collect(es[..j])
    decreases |es| - j
  {
    if j < |es| {
      var init := es[..|es| - 1];
      assert init[..j] == es[..j];
      CollectStopsAt(init, j);
    } else {
      assert es[..j] == es;
    }
  }

  /** Once an entry has thrown, later entries are never read. */
  lemma ParseEntriesStops(entries: seq<string>, more: seq<string>)
    requires !ParseEntries(entries).1
    ensures ParseEntries(entries + more) == ParseEntries(entries)
  {
    EntriesOfAppend(entries, more);
    CollectStops(EntriesOf(entries), EntriesOf(more));
  }

  /** Entries are read one by one, so reading a concatenation concatenates the readings. */
  lemma EntriesOfAppend(entries: seq<string>, more: seq<string>)
    ensures EntriesOf(entries + more) == EntriesOf(entries) + EntriesOf(more)
  {
    var whole, left, right := EntriesOf(entries + more), EntriesOf(entries), EntriesOf(more);
    forall k | 0 <= k < |whole|
      ensures whole[k] == (left + right)[k]
    {
      if k < |entries| {
        assert (entries + more)[k] == entries[k];
      } else {
        assert (entries + more)[k] == more[k - |entries|];
      }
    }
  }

  /** One more entry read by `Collect`, while none has thrown. */
  lemma CollectNext(es: seq<Entry>, i: int)
    requires 0 <= i < |es| && Collect(es[..i]).1
    ensures es[i].Skipped? ==> Collect(es[..i + 1]) == (Collect(es[..i]).0, true)
    ensures es[i].BadEntryId? ==> Collect(es[..i + 1]) == (Collect(es[..i]).0, false)
    ensures es[i].UserEntry? ==> Collect(es[..i + 1]) == (Collect(es[..i]).0 + [es[i].user], true)
  {
    assert es[..i + 1][..i] == es[..i];
  }

  /** `split(": ", 2)` of a chat line: the name before the first `": "`, or the whole line as both. */
  function ParseBubble(line: string): (r: (string, string))
    ensures Contains(line, ": ") ==> line == r.0 + ": " + r.1 && !Contains(r.0, ": ")
    ensures !Contains(line, ": ") ==> r == (line, line)
  {
    var parts := SplitFirstSeq(line, ": ");
    (parts[0], if |parts| > 1 then parts[1] else line)
  }

  /** `username.matches("User\\d+")`. */
  predicate IsGeneratedName(s: string) {
    |s| > 4 && s[..4] == "User" && AllDigits(s[4..])
  }

  /** `getInitials`: `"?"` for a null or empty name, else its first character upper-cased. */
  function Initials(name: Option<string>): (s: string)
    ensures |s| == 1
    ensures name.None? || name.value == [] ==> s == "?"
    ensures name.Some? && name.value != [] ==> s == [ToUpperChar(name.value[0])]
  {
    if name.None? || name.value == [] then "?" else [ToUpperChar(name.value[0])]
  }

  // ---------------------------------------------------------------------------
  // Lines the client sends

  function IdLine(id: int): string { LongToString(id) }
  const GetUsersLine := "GET_USERS"
  function OfflineRequestLine(senderId: int): string { "GET_OFFLINE_MSG:" + LongToString(senderId) }
  function PmCommand(receiverId: int, content: string): string { "PM:" + LongToString(receiverId) + ":" + content }

  // ---------------------------------------------------------------------------
  // Views of the user list

  predicate DistinctIds(users: seq<ClientUser>) {
    forall i, j :: 0 <= i < j < |users| ==> users[i].id != users[j].id
  }

  predicate HasId(users: seq<ClientUser>, id: int) {
    exists k :: 0 <= k < |users| && users[k].id == id
  }

  function IdsIn(users: seq<ClientUser>): set<int> {
    set k | 0 <= k < |users| :: users[k].id
  }

  lemma IdsInSnoc(users: seq<ClientUser>, u: ClientUser)
    ensures IdsIn(users + [u]) == IdsIn(users) + {u.id}
  {
    var xs := users + [u];
    forall x | x in IdsIn(xs) ensures x in IdsIn(users) + {u.id} {
      var k :| 0 <= k < |xs| && xs[k].id == x;
      if k < |users| { assert users[k] == xs[k]; }
    }
    forall x | x in IdsIn(users) ensures x in IdsIn(xs) {
      var k :| 0 <= k < |users| && users[k].id == x;
      assert xs[k] == users[k];
    }
    assert xs[|users|] == u;
  }

  /** The first user with that id (`findUserById`). */
  function FirstWithId(users: seq<ClientUser>, id: int): (r: Option<ClientUser>)
    ensures r.None? <==> !HasId(users, id)
    ensures r.Some? ==> exists k :: 0 <= k < |users| && users[k] == r.value && r.value.id == id &&
                                    forall j :: 0 <= j < k ==> users[j].id != id
  {
    if users == [] then None
    else if users[0].id == id then Some(users[0])
    else
      var r := FirstWithId(users[1..], id);
      assert forall k :: 1 <= k < |users| ==> users[k] == users[1..][k - 1];
      r
  }

  /** A user is appended unless one with its id is already there. */
  function AppendIfNew(users: seq<ClientUser>, u: ClientUser): (r: seq<ClientUser>)
    ensures HasId(users, u.id) ==> r == users
    ensures !HasId(users, u.id) ==> r == users + [u]
    ensures DistinctIds(users) ==> DistinctIds(r)
  {
    if HasId(users, u.id) then users else users + [u]
  }

  /** `allUsers` after the users of a roster update are added one by one. */
  function AddAll(all: seq<ClientUser>, users: seq<ClientUser>): (r: seq<ClientUser>)
    ensures DistinctIds(all) ==> DistinctIds(r)
    ensures |all| <= |r| && r[..|all|] == all
    ensures IdsIn(r) == IdsIn(all) + IdsIn(users)
  {
    if users == [] then all
    else
      var before := AddAll(all, users[..|users| - 1]);
      var u := users[|users| - 1];
      assert users == users[..|users| - 1] + [u];
      IdsInSnoc(users[..|users| - 1], u);
      assert HasId(before, u.id) ==> u.id in IdsIn(before);
      IdsInSnoc(before, u);
      assert (before + [u])[..|all|] == before[..|all|];
      AppendIfNew(before, u)
  }

  /** Adding one more user to the ones `AddAll` added, and the ids that makes. */
  lemma AddAllSnoc(all: seq<ClientUser>, users: seq<ClientUser>, u: ClientUser)
    ensures AddAll(all, users + [u]) == AppendIfNew(AddAll(all, users), u)
    ensures IdsIn(users + [u]) == IdsIn(users) + {u.id}
  {
    assert (users + [u])[..|users|] == users;
    IdsInSnoc(users, u);
  }

  /** A user appended after `init` has an id no user taken from `init` has, when all ids are distinct. */
  lemma LastIdFresh(init: seq<ClientUser>, u: ClientUser, before: seq<ClientUser>)
    requires forall v :: v in before ==> v in init
    ensures DistinctIds(init + [u]) ==> forall v :: v in before ==> v.id != u.id
  {
    if DistinctIds(init + [u]) {
      forall v | v in before ensures v.id != u.id {
        var k :| 0 <= k < |init| && init[k] == v;
        assert (init + [u])[k] == v && (init + [u])[|init|] == u;
      }
    }
  }

  /** `updateUserListWithOnlineUsers`: `allUsers` restricted to the online ids, in order. */
  function OnlineView(all: seq<ClientUser>, online: set<int>): (r: seq<ClientUser>)
    ensures forall u :: u in r <==> u in all && u.id in online
    ensures DistinctIds(all) ==> DistinctIds(r)
  {
    if all == [] then []
    else
      var init := all[..|all| - 1];
      var u := all[|all| - 1];
      assert all == init + [u];
      var before := OnlineView(init, online);
      var keep := u.id in online;
      KeepLast(init, u, before, keep);
      if keep then before + [u] else before
  }

  /** Whether `filterUserList` keeps a user: the name contains the text ignoring case, and the user is online unless everyone is shown. */
  predicate Matches(u: ClientUser, online: set<int>, showingAll: bool, text: string) {
    Contains(ToLower(u.name), ToLower(text)) && (showingAll || u.id in online)
  }

  /** The filtered list of `filterUserList`: names containing the text, ignoring case, online ones unless everyone is shown. */
  function SearchView(all: seq<ClientUser>, online: set<int>, showingAll: bool, text: string): (r: seq<ClientUser>)
    ensures forall u :: u in r <==> u in all && Matches(u, online, showingAll, text)
    ensures DistinctIds(all) ==> DistinctIds(r)
  {
    if all == [] then []
    else
      var init := all[..|all| - 1];
      var u := all[|all| - 1];
      assert all == init + [u];
      var before := SearchView(init, online, showingAll, text);
      var keep := Matches(u, online, showingAll, text);
      KeepLast(init, u, before, keep);
      if keep then before + [u] else before
  }

  /** Adding the last user to a selection of the others, or not, keeps ids distinct and takes in exactly that user. */
  lemma KeepLast(init: seq<ClientUser>, u: ClientUser, before: seq<ClientUser>, keep: bool)
    requires forall v :: v in before ==> v in init
    requires DistinctIds(init) ==> DistinctIds(before)
    ensures forall v :: v in (if keep then before + [u] else before) <==> v in before || (keep && v == u)
    ensures DistinctIds(init + [u]) ==> DistinctIds(if keep then before + [u] else before)
  {
    LastIdFresh(init, u, before);
    if DistinctIds(init + [u]) {
      assert DistinctIds(init) by {
        forall i, j | 0 <= i < j < |init| ensures init[i].id != init[j].id {
          assert (init + [u])[i] == init[i] && (init + [u])[j] == init[j];
        }
      }
    }
  }

  /** One more user is kept exactly when it is online. */
  lemma OnlineViewSnoc(all: seq<ClientUser>, u: ClientUser, online: set<int>)
    ensures OnlineView(all + [u], online) == OnlineView(all, online) + (if u.id in online then [u] else [])
  {
    assert (all + [u])[..|all|] == all;
  }

  /** One more user is kept exactly when it matches. */
  lemma SearchViewSnoc(all: seq<ClientUser>, u: ClientUser, online: set<int>, showingAll: bool, text: string)
    ensures SearchView(all + [u], online, showingAll, text)
         == SearchView(all, online, showingAll, text) + (if Matches(u, online, showingAll, text) then [u] else [])
  {
    assert (all + [u])[..|all|] == all;
  }

  /** The list shown in the current mode. */
  function ModeView(all: seq<ClientUser>, online: set<int>, showingAll: bool): seq<ClientUser> {
    if showingAll then all else OnlineView(all, online)
  }

  const SearchPlaceholder := "搜索用户..."

  // ---------------------------------------------------------------------------
  // The window's loops, over the values they read

  /** The `userExists` loop over `allUsers`, and the duplicate check of `addUserToList`. */
  method ContainsId(users: seq<ClientUser>, id: int) returns (found: bool)
    ensures found <==> HasId(users, id)
  {
    found := false;
    var i := 0;
    while i < |users| && !found
      invariant 0 <= i <= |users|
      invariant found <==> exists k :: 0 <= k < i && users[k].id == id
    {
      if users[i].id == id {
        found := true;
      }
      i := i + 1;
    }
  }

  /** `findUserById`'s loop over the list model. */
  method FindById(users: seq<ClientUser>, id: int) returns (r: Option<ClientUser>)
    ensures r == FirstWithId(users, id)
  {
    var i := 0;
    while i < |users|
      invariant 0 <= i <= |users|
      invariant forall k :: 0 <= k < i ==> users[k].id != id
      invariant FirstWithId(users, id) == FirstWithId(users[i..], id)
    {
      if users[i].id == id {
        return Some(users[i]);
      }
      assert users[i..][1..] == users[i + 1..];
      i := i + 1;
    }
    return None;
  }

  /** The `for (User user : allUsers)` loop of `updateUserListWithOnlineUsers`. */
  method SelectOnline(all: seq<ClientUser>, online: set<int>) returns (r: seq<ClientUser>)
    ensures r == OnlineView(all, online)
  {
    r := [];
    var i := 0;
    while i < |all|
      invariant 0 <= i <= |all|
      invariant r == OnlineView(all[..i], online)
    {
      var u := all[i];
      OnlineViewSnoc(all[..i], u, online);
      assert all[..i + 1] == all[..i] + [u];
      if u.id in online {
        r := r + [u];
      }
      i := i + 1;
    }
    assert all[..i] == all;
  }

  /** The loop of `filterUserList`. */
  method SelectMatching(all: seq<ClientUser>, online: set<int>, showingAll: bool, text: string) returns (r: seq<ClientUser>)
    ensures r == SearchView(all, online, showingAll, text)
  {
    r := [];
    var lowerCaseSearch := ToLower(text);
    var i := 0;
    while i < |all|
      invariant 0 <= i <= |all|
      invariant r == SearchView(all[..i], online, showingAll, text)
    {
      var user := all[i];
      assert all[..i + 1] == all[..i] + [user];
      SearchViewSnoc(all[..i], user, online, showingAll, text);
      if Contains(ToLower(user.name), lowerCaseSearch) {
        if showingAll || user.id in online {
          r := r + [user];
        }
      }
      i := i + 1;
    }
    assert all[..i] == all;
  }

  /** An entry whose id does not parse ends the reading with the users read before it. */
  lemma StopAtBadEntry(es: seq<Entry>, i: int)
    requires 0 <= i < |es| && Collect(es[..i]).1 && es[i].BadEntryId?
    ensures Collect(es) == (Collect(es[..i]).0, false)
  {
    CollectNext(es, i);
    CollectStopsAt(es, i + 1);
  }

  /** One more user read: its id goes online and it is added to `allUsers` unless listed. */
  lemma AddEntryStep(self: int, all: seq<ClientUser>, read: seq<ClientUser>, u: ClientUser, online: set<int>, users: seq<ClientUser>)
    requires online == {self} + IdsIn(read) && users == AddAll(all, read)
    ensures online + {u.id} == {self} + IdsIn(read + [u])
    ensures AppendIfNew(users, u) == AddAll(all, read + [u])
  {
    AddAllSnoc(all, read, u);
  }

  /** The `contains` check and `add` of `handleUserListUpdate`'s loop. */
  method AddIfNew(users: seq<ClientUser>, u: ClientUser) returns (r: seq<ClientUser>)
    ensures r == AppendIfNew(users, u)
  {
    var known := ContainsId(users, u.id);
    r := if known then users else users + [u];
  }

  /**
   * The entry loop of `handleUserListUpdate`, from the online set `{self}`:
   * the online ids and `allUsers` afterwards, and whether every entry was read.
   */
  method ApplyEntries(self: int, all: seq<ClientUser>, entries: seq<string>)
    returns (online: set<int>, users: seq<ClientUser>, complete: bool)
    ensures complete == ParseEntries(entries).1
    ensures online == {self} + IdsIn(ParseEntries(entries).0)
    ensures users == AddAll(all, ParseEntries(entries).0)
  {
    online := {self};
    users := all;
    ghost var es := EntriesOf(entries);
    var i := 0;
    while i < |entries|
      invariant 0 <= i <= |entries|
      invariant Collect(es[..i]).1
      invariant online == {self} + IdsIn(Collect(es[..i]).0)
      invariant users == AddAll(all, Collect(es[..i]).0)
    {
      ghost var read := Collect(es[..i]).0;
      CollectNext(es, i);
      var e := ParseEntry(entries[i]);
      assert e == es[i];
      if e.BadEntryId? {
        StopAtBadEntry(es, i);
        return online, users, false;
      } else if e.UserEntry? {
        AddEntryStep(self, all, read, e.user, online, users);
        online := online + {e.user.id};
        users := AddIfNew(users, e.user);
      }
      i := i + 1;
    }
    assert es[..i] == es;
    complete := true;
  }

  // ---------------------------------------------------------------------------
  // The window's state

  /** What the main chat panel was given: a chat bubble or a system message. */
  datatype ChatEvent = Said(name: string, content: string) | Notice(text: string)

  /** What a private chat window was given. */
  datatype PrivateEntry = Received(content: string) | ReceivedOffline(content: string) | Forwarded(content: string)

    /**
   * Whether the handler of a line returns normally: the joined, left, private
   * and statistics handlers parse ids (and the count) without a `catch`, so a
   * malformed one ends the listener.
   */
  predicate KeepsListening(d: ServerLine) {
    match d
    case Joined(p) => !ParseEntry(p).BadEntryId?
    case Left(p) => !ParseEntry(p).BadEntryId?
    case Private(p) => !SplitIdPayload(p).BadId?
    case OfflineStat(p) =>
      var parts := SplitFirst(p, ':');
      |parts| != 2 || (ParseLong(parts[0]).Some? && ParseInt(parts[1]).Some?)
    case _ => true
  }

/** The entry appended to the window for `id`, the window opened when there is none. */
  function AppendTo(chats: map<int, seq<PrivateEntry>>, id: int, e: PrivateEntry): (r: map<int, seq<PrivateEntry>>)
    ensures r.Keys == chats.Keys + {id}
    ensures r[id] == (if id in chats then chats[id] else []) + [e]
    ensures forall other :: other in chats && other != id ==> r[other] == chats[other]
  {
    chats[id := (if id in chats then chats[id] else []) + [e]]
  }

  /**
   * The window's listening thread: it reads server lines while it runs, and
   * an exception a handler throws (only an `IOException` is caught) ends it.
   */
  class Listener {
    var running: bool
    constructor ()
      ensures running
    {
      running := true;
    }
  }

  class MainView {
    const currentUser: ClientUser
    var onlineUserIds: set<int>
    var allUsers: seq<ClientUser>
    var showingAllUsers: bool
    /** `userListModel`: the users on screen. */
    var userListModel: seq<ClientUser>
    var chatLog: seq<ChatEvent>
    /** The open private chat windows, by the other user's id. */
    var privateChats: map<int, seq<PrivateEntry>>
    /** Every line written to the server. */
    var sent: seq<string>
    /** `out != null`: a connection was made and has not been closed. */
    var connected: bool
    /** The listening thread `startMessageListening` starts. */
    const listener: Listener

    /** Neither list ever holds two users with the same id. */
    ghost predicate Valid()
      reads this
    {
      DistinctIds(allUsers) && DistinctIds(userListModel)
    }

    constructor (currentUser: ClientUser)
      ensures Valid() && this.currentUser == currentUser
      ensures onlineUserIds == {} && allUsers == [] && !showingAllUsers && userListModel == []
      ensures chatLog == [] && privateChats == map[] && sent == [] && !connected
      ensures fresh(listener) && listener.running
    {
      this.currentUser := currentUser;
      onlineUserIds := {};
      allUsers := [];
      showingAllUsers := false;
      userListModel := [];
      chatLog := [];
      privateChats := map[];
      sent := [];
      connected := false;
      listener := new Listener();
    }

    /**
     * `connectToServer`: the id line, the user itself on the list, then
     * `GET_USERS`. When opening the socket or its streams throws (`refused`),
     * the `IOException` is caught before `out` is assigned: nothing is
     * written, the list is untouched, and the connection state stays as it was.
     */
    method Connect(refused: bool)
      requires Valid()
      modifies this
      ensures Valid()
      ensures !refused ==> connected && sent == old(sent) + [IdLine(currentUser.id), GetUsersLine]
      ensures !refused ==> userListModel == AppendIfNew(old(userListModel), currentUser)
      ensures refused ==> connected == old(connected) && sent == old(sent) && userListModel == old(userListModel)
      ensures onlineUserIds == old(onlineUserIds) && allUsers == old(allUsers) && showingAllUsers == old(showingAllUsers)
      ensures chatLog == old(chatLog) && privateChats == old(privateChats)
    {
      if refused {
        return;
      }
      sent := sent + [IdLine(currentUser.id)];
      AddUserToList(currentUser);
      sent := sent + [GetUsersLine];
      connected := true;
    }

    /** `closeConnection`: `out` is closed and set to null; nothing is written after it. */
    method CloseConnection()
      modifies this
      ensures !connected
      ensures sent == old(sent) && userListModel == old(userListModel) && chatLog == old(chatLog)
      ensures onlineUserIds == old(onlineUserIds) && allUsers == old(allUsers) && showingAllUsers == old(showingAllUsers)
      ensures privateChats == old(privateChats)
    {
      connected := false;
    }

    /**
     * `loadAllUsers`: the user table, with the user itself appended when it is
     * missing, becomes `allUsers`, and the list is refreshed. The table's ids
     * are its key, so they are distinct.
     */
    method LoadAllUsers(table: seq<ClientUser>)
      requires Valid() && DistinctIds(table)
      modifies this
      ensures Valid()
      ensures allUsers == AppendIfNew(table, currentUser)
      ensures userListModel == ModeView(allUsers, onlineUserIds, showingAllUsers)
      ensures onlineUserIds == old(onlineUserIds) && showingAllUsers == old(showingAllUsers)
      ensures chatLog == old(chatLog) && privateChats == old(privateChats) && sent == old(sent)
    {
      var found := ContainsId(table, currentUser.id);
      allUsers := if found then table else table + [currentUser];
      RefreshUserList();
    }

    /** `updateUserListWithAllUsers` or `updateUserListWithOnlineUsers`, as the mode says. */
    method RefreshUserList()
      requires DistinctIds(allUsers)
      modifies this
      ensures Valid()
      ensures userListModel == ModeView(allUsers, onlineUserIds, showingAllUsers)
      ensures onlineUserIds == old(onlineUserIds) && allUsers == old(allUsers) && showingAllUsers == old(showingAllUsers)
      ensures chatLog == old(chatLog) && privateChats == old(privateChats) && sent == old(sent)
    {
      if showingAllUsers {
        userListModel := allUsers;
      } else {
        userListModel := SelectOnline(allUsers, onlineUserIds);
      }
    }

    /** `addUserToList`: appended unless the list already shows that id. */
    method AddUserToList(user: ClientUser)
      requires Valid()
      modifies this
      ensures Valid()
      ensures userListModel == AppendIfNew(old(userListModel), user)
      ensures onlineUserIds == old(onlineUserIds) && allUsers == old(allUsers) && showingAllUsers == old(showingAllUsers)
      ensures chatLog == old(chatLog) && privateChats == old(privateChats) && sent == old(sent)
    {
      var found := ContainsId(userListModel, user.id);
      if !found {
        userListModel := userListModel + [user];
      }
    }

    /** The effect of `handleUserListUpdate(payload)` on everything but the listener. */
    twostate predicate ListUpdated(payload: string)
      reads this
    {
      && var r := RosterUpdate(payload);
         && onlineUserIds == {currentUser.id} + IdsIn(r.0)
         && allUsers == AddAll(old(allUsers), r.0)
         && userListModel == (if r.1 then ModeView(allUsers, onlineUserIds, showingAllUsers) else old(userListModel))
         && showingAllUsers == old(showingAllUsers)
         && chatLog == old(chatLog) && privateChats == old(privateChats) && sent == old(sent)
    }

    /**
     * `handleUserListUpdate`: the online set becomes the user itself plus the
     * ids listed, unknown users are appended to `allUsers`, and the list is
     * refreshed. An id that does not parse aborts the update where it stands,
     * before the refresh.
     */
    method HandleUserListUpdate(payload: string)
      requires Valid()
      modifies this
      ensures Valid() && ListUpdated(payload)
    {
      if payload == "" {
        onlineUserIds := {currentUser.id};
        assert IdsIn([]) == {};
        RefreshUserList();
        return;
      }
      var complete;
      onlineUserIds, allUsers, complete := ApplyEntries(currentUser.id, allUsers, JavaSplit(payload, ','));
      if complete {
        RefreshUserList();
      }
    }

    /** The effect of `handleUserJoined(payload)` on everything but the listener. */
    twostate predicate UserJoinedHandled(payload: string)
      reads this
    {
      && (!ParseEntry(payload).UserEntry? ==>
            onlineUserIds == old(onlineUserIds) && allUsers == old(allUsers) && userListModel == old(userListModel)
            && chatLog == old(chatLog))
      && (ParseEntry(payload).UserEntry? ==>
            var u := ParseEntry(payload).user;
            && onlineUserIds == old(onlineUserIds) + {u.id}
            && allUsers == AppendIfNew(old(allUsers), u)
            && userListModel == ModeView(allUsers, onlineUserIds, showingAllUsers)
            && chatLog == old(chatLog) + [Notice(u.name + " 已加入聊天")])
      && showingAllUsers == old(showingAllUsers) && privateChats == old(privateChats) && sent == old(sent)
    }

    /**
     * `handleUserJoined`: a well-formed `<id>:<name>` puts the id online, adds
     * an unknown user to `allUsers`, refreshes the list and posts a notice.
     * `alive` is false when the id does not parse: the exception ends the
     * listener.
     */
    method HandleUserJoined(payload: string) returns (alive: bool)
      requires Valid()
      modifies this
      ensures Valid() && UserJoinedHandled(payload)
      ensures alive <==> !ParseEntry(payload).BadEntryId?
    {
      var entry := ParseEntry(payload);
      if entry.UserEntry? {
        Join(entry.user);
      }
      alive := !entry.BadEntryId?;
    }

    /** The effect of a well-formed `USER_JOINED` entry. */
    method Join(u: ClientUser)
      requires Valid()
      modifies this
      ensures Valid()
      ensures onlineUserIds == old(onlineUserIds) + {u.id}
      ensures allUsers == AppendIfNew(old(allUsers), u)
      ensures userListModel == ModeView(allUsers, onlineUserIds, showingAllUsers)
      ensures chatLog == old(chatLog) + [Notice(u.name + " 已加入聊天")]
      ensures showingAllUsers == old(showingAllUsers) && privateChats == old(privateChats) && sent == old(sent)
    {
      onlineUserIds := onlineUserIds + {u.id};
      var found := ContainsId(allUsers, u.id);
      if !found {
        allUsers := allUsers + [u];
      }
      RefreshUserList();
      chatLog := chatLog + [Notice(u.name + " 已加入聊天")];
    }

    /** The effect of `handleUserLeft(payload)` on everything but the listener. */
    twostate predicate UserLeftHandled(payload: string)
      reads this
    {
      && allUsers == old(allUsers)
      && (!ParseEntry(payload).UserEntry? ==>
            onlineUserIds == old(onlineUserIds) && userListModel == old(userListModel) && chatLog == old(chatLog))
      && (ParseEntry(payload).UserEntry? ==>
            var u := ParseEntry(payload).user;
            && onlineUserIds == old(onlineUserIds) - {u.id}
            && userListModel == ModeView(allUsers, onlineUserIds, showingAllUsers)
            && chatLog == old(chatLog) + [Notice(u.name + " 已离开聊天")])
      && showingAllUsers == old(showingAllUsers) && privateChats == old(privateChats) && sent == old(sent)
    }

    /**
     * `handleUserLeft`: a well-formed `<id>:<name>` takes the id offline,
     * leaves `allUsers` as it is, refreshes the list and posts a notice.
     */
    method HandleUserLeft(payload: string) returns (alive: bool)
      requires Valid()
      modifies this
      ensures Valid() && UserLeftHandled(payload)
      ensures alive <==> !ParseEntry(payload).BadEntryId?
    {
      match ParseEntry(payload)
      case Skipped =>
        return true;
      case BadEntryId =>
        return false;
      case UserEntry(u) =>
        onlineUserIds := onlineUserIds - {u.id};
        RefreshUserList();
        chatLog := chatLog + [Notice(u.name + " 已离开聊天")];
        return true;
    }

    /** `toggleUserListMode`: the mode flips and the list shows the new mode's view. */
    method ToggleUserListMode()
      requires Valid()
      modifies this
      ensures Valid()
      ensures showingAllUsers == !old(showingAllUsers)
      ensures userListModel == ModeView(allUsers, onlineUserIds, showingAllUsers)
      ensures onlineUserIds == old(onlineUserIds) && allUsers == old(allUsers)
      ensures chatLog == old(chatLog) && privateChats == old(privateChats) && sent == old(sent)
    {
      showingAllUsers := !showingAllUsers;
      RefreshUserList();
    }

    /**
     * `filterUserList`: the placeholder or an empty text restores the mode's
     * view; any other text keeps the matching users.
     */
    method FilterUserList(searchText: string)
      requires Valid()
      modifies this
      ensures Valid()
      ensures searchText == SearchPlaceholder || searchText == "" ==>
                userListModel == ModeView(allUsers, onlineUserIds, showingAllUsers)
      ensures searchText != SearchPlaceholder && searchText != "" ==>
                userListModel == SearchView(allUsers, onlineUserIds, showingAllUsers, searchText)
      ensures onlineUserIds == old(onlineUserIds) && allUsers == old(allUsers) && showingAllUsers == old(showingAllUsers)
      ensures chatLog == old(chatLog) && privateChats == old(privateChats) && sent == old(sent)
    {
      if searchText == SearchPlaceholder || searchText == "" {
        RefreshUserList();
        return;
      }
      userListModel := SelectMatching(allUsers, onlineUserIds, showingAllUsers, searchText);
    }

    /** The effect of `handlePrivateMessage(payload)` on everything but the listener. */
    twostate predicate PrivateHandled(payload: string)
      reads this
    {
      && (var a := SplitIdPayload(payload);
          privateChats == if a.WithId? && HasId(userListModel, a.id)
                          then AppendTo(old(privateChats), a.id, Received(a.text)) else old(privateChats))
      && onlineUserIds == old(onlineUserIds) && allUsers == old(allUsers) && showingAllUsers == old(showingAllUsers)
      && userListModel == old(userListModel) && chatLog == old(chatLog) && sent == old(sent)
    }

    /**
     * `handlePrivateMessage`: `<senderId>:<content>` from a user on the list
     * goes to that user's window, opened if need be. No colon or an unknown
     * sender drops the line; a bad id ends the listener.
     */
    method HandlePrivateMessage(payload: string) returns (alive: bool)
      requires Valid()
      modifies this
      ensures Valid() && PrivateHandled(payload)
      ensures alive <==> !SplitIdPayload(payload).BadId?
    {
      match SplitIdPayload(payload)
      case NoColon =>
        return true;
      case BadId =>
        return false;
      case WithId(senderId, content) =>
        var sender := FindById(userListModel, senderId);
        if sender.Some? {
          privateChats := AppendTo(privateChats, senderId, Received(content));
        }
        return true;
    }

    /** The effect of `handleOfflineMessage(payload)` on everything but the listener. */
    twostate predicate OfflineMessageHandled(payload: string)
      reads this
    {
      && (var a := SplitIdPayload(payload);
          privateChats == if a.WithId? && HasId(userListModel, a.id)
                          then AppendTo(old(privateChats), a.id, ReceivedOffline(a.text)) else old(privateChats))
      && onlineUserIds == old(onlineUserIds) && allUsers == old(allUsers) && showingAllUsers == old(showingAllUsers)
      && userListModel == old(userListModel) && chatLog == old(chatLog) && sent == old(sent)
    }

    /**
     * `handleOfflineMessage`: as a private message, marked as offline, except
     * that a bad id is caught and only that line is dropped.
     */
    method HandleOfflineMessage(payload: string)
      requires Valid()
      modifies this
      ensures Valid() && OfflineMessageHandled(payload)
    {
      match SplitIdPayload(payload)
      case NoColon =>
      case BadId =>
      case WithId(senderId, content) =>
        var sender := FindById(userListModel, senderId);
        if sender.Some? {
          privateChats := AppendTo(privateChats, senderId, ReceivedOffline(content));
        }
    }

    /** The effect of `handleOfflineMessageStat(payload)` on everything but the listener. */
    twostate predicate StatHandled(payload: string)
      reads this
    {
      && (var parts := SplitFirst(payload, ':');
          chatLog == if |parts| == 2 && ParseLong(parts[0]).Some? && ParseInt(parts[1]).Some?
                        && HasId(userListModel, ParseLong(parts[0]).value)
                     then old(chatLog) + [Notice("您有 " + LongToString(ParseInt(parts[1]).value) + " 条来自 "
                                                 + FirstWithId(userListModel, ParseLong(parts[0]).value).value.name + " 的未读消息")]
                     else old(chatLog))
      && onlineUserIds == old(onlineUserIds) && allUsers == old(allUsers) && showingAllUsers == old(showingAllUsers)
      && userListModel == old(userListModel) && privateChats == old(privateChats) && sent == old(sent)
    }

    /**
     * `handleOfflineMessageStat`: `<senderId>:<count>` from a user on the list
     * posts a notice with the count. A bad id or count ends the listener.
     */
    method HandleOfflineMessageStat(payload: string) returns (alive: bool)
      requires Valid()
      modifies this
      ensures Valid() && StatHandled(payload)
      ensures var parts := SplitFirst(payload, ':');
              alive <==> |parts| != 2 || (ParseLong(parts[0]).Some? && ParseInt(parts[1]).Some?)
    {
      var parts := SplitFirst(payload, ':');
      if |parts| != 2 {
        return true;
      }
      var senderId := ParseLong(parts[0]);
      if senderId.None? {
        return false;
      }
      var count := ParseInt(parts[1]);
      if count.None? {
        return false;
      }
      var sender := FindById(userListModel, senderId.value);
      if sender.Some? {
        chatLog := chatLog + [Notice("您有 " + LongToString(count.value) + " 条来自 " + sender.value.name + " 的未读消息")];
      }
      return true;
    }

    /** The effect of `addMessageBubble(line, false)` on everything but the listener. */
    twostate predicate BubbleAdded(line: string)
      reads this
    {
      && (var (name, content) := ParseBubble(line);
          var shown := if IsGeneratedName(name) && ParseLong(name[4..]).Some?
                          && HasId(userListModel, ParseLong(name[4..]).value)
                       then FirstWithId(userListModel, ParseLong(name[4..]).value).value.name else name;
          chatLog == old(chatLog) + [Said(shown, content)])
      && onlineUserIds == old(onlineUserIds) && allUsers == old(allUsers) && showingAllUsers == old(showingAllUsers)
      && userListModel == old(userListModel) && privateChats == old(privateChats) && sent == old(sent)
    }

    /**
     * `addMessageBubble(line, false)`: a bubble with the name before the first
     * `": "` and the text after it; a generated name `User<digits>` naming a
     * user on the list is shown as that user's name.
     */
    method AddMessageBubble(line: string)
      requires Valid()
      modifies this
      ensures Valid() && BubbleAdded(line)
    {
      var parts := ParseBubble(line);
      var username := parts.0;
      var content := parts.1;
      if IsGeneratedName(username) {
        var userId := ParseLong(username[4..]);
        if userId.Some? {
          var user := FindById(userListModel, userId.value);
          if user.Some? {
            username := user.value.name;
          }
        }
      }
      chatLog := chatLog + [Said(username, content)];
    }

    /**
     * The effect of the handler a dispatched line goes to, on everything but
     * the listener: each prefix names its handler, and any other line is a
     * chat bubble.
     */
    twostate predicate Handled(d: ServerLine)
      reads this
    {
      match d
      case ListUpdate(p) => ListUpdated(p)
      case Joined(p) => UserJoinedHandled(p)
      case Left(p) => UserLeftHandled(p)
      case Private(p) => PrivateHandled(p)
      case OfflineStat(p) => StatHandled(p)
      case OfflineMessage(p) => OfflineMessageHandled(p)
      case Plain(l) => BubbleAdded(l)
    }

    /** One line read by the listening thread; afterwards it keeps running unless a handler threw. */
    method Receive(line: string)
      requires Valid() && listener.running
      modifies this, listener
      ensures Valid() && Handled(Dispatch(line))
      ensures listener.running <==> KeepsListening(Dispatch(line))
      ensures Dispatch(line).ListUpdate? ==> onlineUserIds == {currentUser.id} + IdsIn(RosterUpdate(Dispatch(line).payload).0)
      ensures Dispatch(line).Plain? ==> |chatLog| == |old(chatLog)| + 1 && chatLog[..|old(chatLog)|] == old(chatLog)
      ensures sent == old(sent) && showingAllUsers == old(showingAllUsers)
    {
      var alive := Handle(Dispatch(line));
      listener.running := alive;
    }

    /** The handler the listener calls for a dispatched line; `alive` is false when it threw. */
    method Handle(d: ServerLine) returns (alive: bool)
      requires Valid()
      modifies this
      ensures Valid() && Handled(d)
      ensures alive <==> KeepsListening(d)
      ensures d.ListUpdate? ==> onlineUserIds == {currentUser.id} + IdsIn(RosterUpdate(d.payload).0)
      ensures d.Plain? ==> |chatLog| == |old(chatLog)| + 1 && chatLog[..|old(chatLog)|] == old(chatLog)
      ensures sent == old(sent) && showingAllUsers == old(showingAllUsers)
    {
      alive := true;
      match d {
      case ListUpdate(p) =>
        HandleUserListUpdate(p);
      case Joined(p) =>
        alive := HandleUserJoined(p);
      case Left(p) =>
        alive := HandleUserLeft(p);
      case Private(p) =>
        alive := HandlePrivateMessage(p);
      case OfflineStat(p) =>
        alive := HandleOfflineMessageStat(p);
      case OfflineMessage(p) =>
        HandleOfflineMessage(p);
      case Plain(l) =>
        AddMessageBubble(l);
      }
    }

    /**
     * `openPrivateChat`: a new window is opened, and asks the server for that
     * user's offline messages when there is a connection; an open window
     * changes nothing.
     */
    method OpenPrivateChat(target: ClientUser)
      requires Valid()
      modifies this
      ensures Valid() && connected == old(connected)
      ensures target.id in old(privateChats) ==> privateChats == old(privateChats) && sent == old(sent)
      ensures target.id !in old(privateChats) ==> privateChats == old(privateChats)[target.id := []]
      ensures target.id !in old(privateChats) && connected ==> sent == old(sent) + [OfflineRequestLine(target.id)]
      ensures !connected ==> sent == old(sent)
      ensures onlineUserIds == old(onlineUserIds) && allUsers == old(allUsers) && showingAllUsers == old(showingAllUsers)
      ensures userListModel == old(userListModel) && chatLog == old(chatLog)
    {
      if target.id !in privateChats {
        privateChats := privateChats[target.id := []];
        if connected {
          sent := sent + [OfflineRequestLine(target.id)];
        }
      }
    }

    /**
     * `forwardMessage`: with a connection, a `PM` command to the target, a
     * notice, and the text in the target's open window; without one, nothing.
     */
    method ForwardMessage(content: string, target: ClientUser)
      requires Valid()
      modifies this
      ensures Valid() && connected == old(connected)
      ensures connected ==> sent == old(sent) + [PmCommand(target.id, content)]
      ensures connected ==> chatLog == old(chatLog) + [Notice("已转发消息给 " + target.name)]
      ensures connected ==> privateChats == if target.id in old(privateChats)
                                            then AppendTo(old(privateChats), target.id, Forwarded(content))
                                            else old(privateChats)
      ensures !connected ==> sent == old(sent) && chatLog == old(chatLog) && privateChats == old(privateChats)
      ensures onlineUserIds == old(onlineUserIds) && allUsers == old(allUsers) && showingAllUsers == old(showingAllUsers)
      ensures userListModel == old(userListModel)
    {
      if !connected {
        return;
      }
      sent := sent + [PmCommand(target.id, content)];
      chatLog := chatLog + [Notice("已转发消息给 " + target.name)];
      if target.id in privateChats {
        privateChats := AppendTo(privateChats, target.id, Forwarded(content));
      }
    }
  }
}
