/**
 * The Message record: a possibly-null id, sender, receiver, content and send
 * time, and the read/delivered flags. Java's nullable fields are `Option`s.
 */
module MessageModel {
  import opened JavaText

  /** A `LocalDateTime`: a day number and the nanosecond within that day. */
  datatype DateTime = DateTime(day: int, nanoOfDay: nat)

  /** `LocalDate.atStartOfDay()` */
  function StartOfDay(day: int): DateTime {
    DateTime(day, 0)
  }

  datatype Message = Message(
    id: Option<int>,
    senderId: Option<int>,
    receiverId: Option<int>,
    content: Option<string>,
    sentAt: Option<DateTime>,
    isRead: bool,
    isDelivered: bool)

  /** `new Message()`: every reference field null, both flags false. */
  function Blank(): (m: Message)
    ensures m.id.None? && m.senderId.None? && m.receiverId.None? && m.content.None?
    ensures m.sentAt.None? && !m.isRead && !m.isDelivered
  {
    Message(None, None, None, None, None, false, false)
  }

  /**
   * `new Message(senderId, receiverId, content)`: a message not yet stored,
   * stamped with the clock reading `now`.
   */
  function Compose(senderId: Option<int>, receiverId: Option<int>, content: Option<string>, now: DateTime): (m: Message)
    ensures m.id.None? && !m.isRead && !m.isDelivered
    ensures m.senderId == senderId && m.receiverId == receiverId && m.content == content && m.sentAt == Some(now)
  {
    Message(None, senderId, receiverId, content, Some(now), false, false)
  }

  /** The seven-argument constructor: every argument lands in its field. */
  function Full(id: Option<int>, senderId: Option<int>, receiverId: Option<int>, content: Option<string>,
                sentAt: Option<DateTime>, isRead: bool, isDelivered: bool): (m: Message)
    ensures m.id == id && m.senderId == senderId && m.receiverId == receiverId && m.content == content
    ensures m.sentAt == sentAt && m.isRead == isRead && m.isDelivered == isDelivered
  {
    Message(id, senderId, receiverId, content, sentAt, isRead, isDelivered)
  }

  /**
   * `a.equals(b)`, where `sameObject` says whether `b` is the very object `a`
   * (Java's `this == o`); the same object is necessarily the same value.
   */
  predicate Equals(a: Message, b: Message, sameObject: bool)
    requires sameObject ==> a == b
  {
    sameObject || (a.id.Some? && b.id == a.id)
  }

  /** Bitwise exclusive or of two naturals, one binary digit at a time. */
  function Xor(a: nat, b: nat): nat
    decreases a + b
  {
    if a == 0 && b == 0 then 0
    else 2 * Xor(a / 2, b / 2) + (a % 2 + b % 2) % 2
  }

  lemma {:induction false} XorZero(a: nat)
    ensures Xor(a, 0) == a
    decreases a
  {
    if a != 0 {
      XorZero(a / 2);
    }
  }

  /**
   * `Long.hashCode(v)`: `(int)(v ^ (v >>> 32))`. Only the low 32 bits survive
   * the cast, so this is the xor of the two 32-bit halves of the unsigned
   * 64-bit pattern, read back as a signed `int`.
   */
  function LongHash(v: int): (h: int)
    requires IsLong(v)
    ensures IsInt(h)
  {
    var u := if v < 0 then v + 0x1_0000_0000_0000_0000 else v;
    var x := Xor(u % 0x1_0000_0000, u / 0x1_0000_0000) % 0x1_0000_0000;
    if x >= 0x8000_0000 then x - 0x1_0000_0000 else x
  }

  /** `hashCode()`: the id's hash, 0 for a null id. */
  function HashCode(m: Message): (h: int)
    requires m.id.Some? ==> IsLong(m.id.value)
    ensures IsInt(h)
    ensures m.id.None? ==> h == 0
  {
    if m.id.Some? then LongHash(m.id.value) else 0
  }

  /** Equal messages have equal hash codes. */
  lemma HashConsistentWithEquals(a: Message, b: Message, sameObject: bool)
    requires sameObject ==> a == b
    requires a.id.Some? ==> IsLong(a.id.value)
    requires b.id.Some? ==> IsLong(b.id.value)
    requires Equals(a, b, sameObject)
    ensures HashCode(a) == HashCode(b)
  {
  }

  /** Two distinct objects with null ids are never equal, whatever their other fields. */
  lemma NullIdsNeverEqual(a: Message, b: Message)
    requires a.id.None? || b.id.None?
    ensures !Equals(a, b, false)
  {
  }

  /** Equality between distinct objects depends on the ids alone. */
  lemma EqualsOnlyByIds(a: Message, b: Message, a': Message, b': Message)
    requires a.id == a'.id && b.id == b'.id
    ensures Equals(a, b, false) == Equals(a', b', false)
  {
  }

  /** `equals` is symmetric and transitive. */
  lemma EqualsSymmetricTransitive(a: Message, b: Message, c: Message)
    ensures Equals(a, b, false) == Equals(b, a, false)
    ensures Equals(a, b, false) && Equals(b, c, false) ==> Equals(a, c, false)
  {
  }

  /** The hash of an id in `[0, 2^31)` is the id itself. */
  lemma HashOfSmallId(v: int)
    requires 0 <= v < 0x8000_0000
    ensures LongHash(v) == v
  {
    assert v % 0x1_0000_0000 == v && v / 0x1_0000_0000 == 0;
    XorZero(v);
  }
}
