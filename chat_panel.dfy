/**
 * The chat panel's rows: message bubbles, system notices and the time lines
 * it inserts when the minute changes. The clock is a parameter: each message
 * brings the `"yyyy-MM-dd HH:mm"` timestamp it was added at.
 */
module Panel {
  import opened JavaText

  /** Which side of the panel a bubble sits on. */
  datatype Side = West | East

  /** Which bubble colours a message uses. */
  datatype Palette = Sent | Received

  datatype Row =
    | Timeline(time: string)
    | MessageRow(content: string, nameLabel: Option<string>, side: Side, palette: Palette)
    | SystemRow(text: string)

  /** A timestamp as the formatter writes it: at least the 16 characters of `yyyy-MM-dd HH:mm`. */
  predicate IsTimestamp(ts: string) {
    |ts| >= 16
  }

  /** `lastTimestamp` is empty before the first message and after `clear`, else a timestamp. */
  predicate IsLast(last: string) {
    last == "" || IsTimestamp(last)
  }

  /**
   * `addTimelineIfNeeded`: a time line labelled `HH:mm` is added when there
   * was no earlier message or the minute differs, and the new timestamp is
   * remembered; otherwise nothing changes.
   */
  function TimelineStep(last: string, ts: string): (r: (string, seq<Row>))
    requires IsLast(last) && IsTimestamp(ts)
    ensures IsLast(r.0) && r.0 != "" && r.0[..16] == ts[..16]
    ensures r.1 == [] <==> last != "" && last[..16] == ts[..16]
    ensures r.1 == [] ==> r.0 == last
    ensures r.1 != [] ==> r.1 == [Timeline(ts[11..16])] && r.0 == ts
  {
    if last == "" || ts[..16] != last[..16] then (ts, [Timeline(ts[11..16])]) else (last, [])
  }

  /** A second message within the same minute as the previous one adds no time line. */
  lemma SameMinuteNoTimeline(last: string, ts1: string, ts2: string)
    requires IsLast(last) && IsTimestamp(ts1) && IsTimestamp(ts2)
    requires ts1[..16] == ts2[..16]
    ensures TimelineStep(TimelineStep(last, ts1).0, ts2).1 == []
  {
    var mid := TimelineStep(last, ts1).0;
    assert mid[..16] == ts1[..16];
  }

  /**
   * `createMessageRow`: own messages sit on the east side in the sent
   * colours with no name; others sit on the west in the received colours,
   * named when a name is given.
   */
  function CreateMessageRow(content: string, isOwnMessage: bool, username: Option<string>): (row: Row)
    ensures row.MessageRow? && row.content == content
    ensures row.side == East <==> isOwnMessage
    ensures row.palette == Sent <==> isOwnMessage
    ensures row.nameLabel.Some? <==> !isOwnMessage && username.Some?
    ensures row.nameLabel.Some? ==> row.nameLabel == username
  {
    MessageRow(content,
               if !isOwnMessage && username.Some? then username else None,
               if isOwnMessage then East else West,
               if isOwnMessage then Sent else Received)
  }

  class ChatPanel {
    var lastTimestamp: string
    /** The panel's rows, top to bottom. */
    var rows: seq<Row>

    ghost predicate Valid()
      reads this
    {
      IsLast(lastTimestamp)
    }

    constructor ()
      ensures Valid() && lastTimestamp == "" && rows == []
    {
      lastTimestamp := "";
      rows := [];
    }

    method AddTimelineIfNeeded(timestamp: string)
      requires Valid() && IsTimestamp(timestamp)
      modifies this
      ensures Valid()
      ensures var step := TimelineStep(old(lastTimestamp), timestamp);
              lastTimestamp == step.0 && rows == old(rows) + step.1
    {
      var shouldAddTimeline := lastTimestamp == "" || timestamp[..16] != lastTimestamp[..16];
      if shouldAddTimeline {
        var hourMinute := timestamp[11..16];
        rows := rows + [Timeline(hourMinute)];
        lastTimestamp := timestamp;
      }
    }

    /** `addMessage`: at most one time line, then exactly one message row. */
    method AddMessage(content: string, isOwnMessage: bool, username: Option<string>, timestamp: string)
      requires Valid() && IsTimestamp(timestamp)
      modifies this
      ensures Valid()
      ensures var step := TimelineStep(old(lastTimestamp), timestamp);
              && lastTimestamp == step.0
              && rows == old(rows) + step.1 + [CreateMessageRow(content, isOwnMessage, username)]
      ensures |old(rows)| + 1 <= |rows| <= |old(rows)| + 2
    {
      AddTimelineIfNeeded(timestamp);
      var messageRow := CreateMessageRow(content, isOwnMessage, username);
      rows := rows + [messageRow];
    }

    /** `addSystemMessage`: one notice row; the time line state is untouched. */
    method AddSystemMessage(message: string)
      requires Valid()
      modifies this
      ensures Valid()
      ensures rows == old(rows) + [SystemRow(message)] && lastTimestamp == old(lastTimestamp)
    {
      rows := rows + [SystemRow(message)];
    }

    /** `clear`: no rows, and the next message starts with a time line. */
    method Clear()
      modifies this
      ensures Valid() && rows == [] && lastTimestamp == ""
    {
      rows := [];
      lastTimestamp := "";
    }
  }
}
