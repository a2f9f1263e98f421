/** The message table (`MessageService` over `MessageRepository`). The three
    JPQL statements fix what the service does: a bulk UPDATE that marks a
    receiver's messages in one conversation as read, a COUNT of the unread
    ones, and an UPDATE that recalls a message only for its sender. */
module Messages {
  import opened Wrappers
  import opened Tables

  /** `Message.MessageType`. */
  datatype MessageType = Text | Image | File | Voice | Video

  /** The constant's name, which is what `@Enumerated(STRING)` stores. */
  function TypeName(t: MessageType): string
  {
    match t
    case Text => "TEXT"
    case Image => "IMAGE"
    case File => "FILE"
    case Voice => "VOICE"
    case Video => "VIDEO"
  }

  /** `MessageType.valueOf(s)`: the constant whose name is exactly `s`, or
      `IllegalArgumentException` (`None`). */
  function ParseMessageType(s: string): (r: Option<MessageType>)
    ensures r.Some? ==> TypeName(r.value) == s
    ensures r.None? ==> forall t: MessageType :: TypeName(t) != s
  {
    if s == "TEXT" then Some(Text)
    else if s == "IMAGE" then Some(Image)
    else if s == "FILE" then Some(File)
    else if s == "VOICE" then Some(Voice)
    else if s == "VIDEO" then Some(Video)
    else None
  }

  /** A row of `messages`. `id` is 0 until the row is saved (identity values
      start at 1); times are clock readings passed in by the caller. File
      attachments (`fileUrl`, `fileSize`, `duration`) are carried by no core
      path and are left out. */
  datatype Message = Message(
    id: int,
    conversationId: string,
    senderId: int,
    receiverId: Option<int>,
    groupId: Option<int>,
    content: string,
    messageType: MessageType,
    isRead: bool,
    isRecalled: bool,
    recallTime: Option<int>,
    createdTime: int)

  /** `new Message()` followed by the setters the handler calls; a type that
      is never set keeps the field default `TEXT`. */
  function NewMessage(conversationId: string, senderId: int, receiverId: Option<int>,
                      groupId: Option<int>, content: string, messageType: Option<MessageType>): (m: Message)
    ensures !m.isRead && !m.isRecalled && m.recallTime.None?
    ensures m.messageType == (if messageType.Some? then messageType.value else Text)
    ensures m.conversationId == conversationId && m.senderId == senderId && m.content == content
    ensures m.receiverId == receiverId && m.groupId == groupId
  {
    Message(0, conversationId, senderId, receiverId, groupId, content,
            if messageType.Some? then messageType.value else Text,
            false, false, None, 0)
  }

  // ---------------------------------------------------------------------------
  // The JPQL statements as functions on the table

  /** `WHERE m.conversationId = :c AND m.receiverId = :r AND m.isRead = false`;
      a null receiver never equals the parameter. */
  predicate UnreadFor(m: Message, c: string, r: int)
  {
    m.conversationId == c && m.receiverId == Some(r) && !m.isRead
  }

  function UnreadIn(c: string, r: int): Message -> bool
  {
    (m: Message) => UnreadFor(m, c, r)
  }

  /** `countUnreadMessages(c, r)`. */
  function UnreadCount(rows: seq<Message>, c: string, r: int): (n: nat)
    ensures n <= |rows|
    ensures n == 0 <==> forall i | 0 <= i < |rows| :: !UnreadFor(rows[i], c, r)
  {
    Count(rows, UnreadIn(c, r))
  }

  /** One row after `UPDATE Message m SET m.isRead = true WHERE ...`. */
  function MarkRow(m: Message, c: string, r: int): Message
  {
    if UnreadFor(m, c, r) then m.(isRead := true) else m
  }

  /** The table after `markMessagesAsRead(c, r)`. */
  function MarkedRead(rows: seq<Message>, c: string, r: int): (out: seq<Message>)
    ensures |out| == |rows|
  {
    seq(|rows|, i requires 0 <= i < |rows| => MarkRow(rows[i], c, r))
  }

  /** `WHERE m.id = :messageId AND m.senderId = :senderId`. */
  function RecallTarget(messageId: int, senderId: int): Message -> bool
  {
    (m: Message) => m.id == messageId && m.senderId == senderId
  }

  /** One row after `SET m.isRecalled = true, m.recallTime = :recallTime`. */
  function RecallRow(m: Message, messageId: int, senderId: int, now: int): Message
  {
    if RecallTarget(messageId, senderId)(m) then m.(isRecalled := true, recallTime := Some(now)) else m
  }

  /** How many of the first `n` rows the recall UPDATE touches. */
  function Hits(rows: seq<Message>, n: nat, messageId: int, senderId: int): (count: nat)
    requires n <= |rows|
    ensures count <= n
  {
    if n == 0 then 0
    else Hits(rows, n - 1, messageId, senderId) + (if rows[n - 1].id == messageId && rows[n - 1].senderId == senderId then 1 else 0)
  }

  /** The UPDATE touches some row exactly when some row has that id and sender. */
  lemma {:induction false} HitsSome(rows: seq<Message>, n: nat, messageId: int, senderId: int)
    requires n <= |rows|
    ensures Hits(rows, n, messageId, senderId) > 0 <==> exists k | 0 <= k < n :: rows[k].id == messageId && rows[k].senderId == senderId
  {
    if n > 0 {
      HitsSome(rows, n - 1, messageId, senderId);
      if rows[n - 1].id == messageId && rows[n - 1].senderId == senderId {
        assert exists k | 0 <= k < n :: rows[k].id == messageId && rows[k].senderId == senderId;
      } else if exists k | 0 <= k < n :: rows[k].id == messageId && rows[k].senderId == senderId {
        var k :| 0 <= k < n && rows[k].id == messageId && rows[k].senderId == senderId;
        assert k < n - 1;
      }
    }
  }

  /** The table after `recallMessage(messageId, senderId, now)`. */
  function Recalled(rows: seq<Message>, messageId: int, senderId: int, now: int): (out: seq<Message>)
    ensures |out| == |rows|
    ensures forall i | 0 <= i < |rows| :: out[i].id == rows[i].id
  {
    seq(|rows|, i requires 0 <= i < |rows| => RecallRow(rows[i], messageId, senderId, now))
  }

  // ---------------------------------------------------------------------------
  // The service over a mutable table

  class MessageStore {
    var rows: seq<Message>
    /** The next identity value the database hands out. */
    var nextId: int

    /** Identity values are positive, below `nextId`, and distinct. */
    ghost predicate Valid()
      reads this
    {
      nextId >= 1 &&
      (forall i | 0 <= i < |rows| :: 1 <= rows[i].id < nextId) &&
      (forall i, j | 0 <= i < j < |rows| :: rows[i].id != rows[j].id)
    }

    constructor ()
      ensures rows == [] && nextId == 1 && Valid()
    {
      rows := [];
      nextId := 1;
    }

    /** `saveMessage(message)`: inserts the row under a fresh identity value
        and stamps its creation time (`@PrePersist`). */
    method SaveMessage(message: Message, now: int) returns (saved: Message)
      requires Valid()
      modifies this
      ensures Valid()
      ensures saved == message.(id := old(nextId), createdTime := now)
      ensures rows == old(rows) + [saved] && nextId == old(nextId) + 1
    {
      saved := message.(id := nextId, createdTime := now);
      rows := rows + [saved];
      nextId := nextId + 1;
    }

    /** `getUnreadCount(c, r)`: zero exactly when no row of the conversation
        addressed to `r` is unread. */
    function GetUnreadCount(c: string, r: int): (n: nat)
      reads this
      ensures n <= |rows|
      ensures n == 0 <==> forall i | 0 <= i < |rows| :: !UnreadFor(rows[i], c, r)
    {
      UnreadCount(rows, c, r)
    }

    /** `markConversationAsRead(c, r)`: the bulk UPDATE, row by row. */
    method MarkConversationAsRead(c: string, r: int)
      modifies this`rows
      ensures rows == MarkedRead(old(rows), c, r)
      ensures GetUnreadCount(c, r) == 0
    {
      var i := 0;
      while i < |rows|
        invariant 0 <= i <= |rows| == |old(rows)|
        invariant forall k | 0 <= k < i :: rows[k] == MarkRow(old(rows)[k], c, r)
        invariant forall k | i <= k < |rows| :: rows[k] == old(rows)[k]
      {
        rows := rows[i := MarkRow(rows[i], c, r)];
        i := i + 1;
      }
      MarkedReadHasNoUnread(old(rows), c, r);
    }

    /** `recallMessage(messageId, senderId)`: the UPDATE row by row, counting
        the rows it touches; the result is `updated > 0`. */
    method RecallMessage(messageId: int, senderId: int, now: int) returns (ok: bool)
      modifies this`rows
      ensures rows == Recalled(old(rows), messageId, senderId, now)
      ensures ok <==> exists i | 0 <= i < |old(rows)| :: old(rows)[i].id == messageId && old(rows)[i].senderId == senderId
    {
      ghost var before := rows;
      var updated := 0;
      var i := 0;
      while i < |rows|
        invariant 0 <= i <= |rows| == |before|
        invariant forall k | 0 <= k < i :: rows[k] == RecallRow(before[k], messageId, senderId, now)
        invariant forall k | i <= k < |rows| :: rows[k] == before[k]
        invariant updated == Hits(before, i, messageId, senderId)
      {
        if rows[i].id == messageId && rows[i].senderId == senderId {
          rows := rows[i := RecallRow(rows[i], messageId, senderId, now)];
          updated := updated + 1;
        }
        i := i + 1;
      }
      assert forall k | 0 <= k < |rows| :: rows[k] == Recalled(before, messageId, senderId, now)[k];
      HitsSome(before, |before|, messageId, senderId);
      ok := updated > 0;
    }
  }

  // ---------------------------------------------------------------------------
  // Properties of the statements

  /** After marking, nothing of that conversation is unread for that receiver. */
  lemma MarkedReadHasNoUnread(rows: seq<Message>, c: string, r: int)
    ensures UnreadCount(MarkedRead(rows, c, r), c, r) == 0
  {
    var out := MarkedRead(rows, c, r);
    assert forall i | 0 <= i < |out| :: !UnreadIn(c, r)(out[i]);
  }

  /** Marking twice is marking once. */
  lemma MarkIdempotent(rows: seq<Message>, c: string, r: int)
    ensures MarkedRead(MarkedRead(rows, c, r), c, r) == MarkedRead(rows, c, r)
  {
  }

  /** Marking touches exactly the unread rows of the pair: every other row is
      unchanged, and each touched row differs only in `isRead`. */
  lemma MarkTouchesOnlyPair(rows: seq<Message>, c: string, r: int, i: int)
    requires 0 <= i < |rows|
    ensures MarkedRead(rows, c, r)[i] != rows[i] <==> UnreadFor(rows[i], c, r)
    ensures MarkedRead(rows, c, r)[i] == rows[i].(isRead := MarkedRead(rows, c, r)[i].isRead)
  {
  }

  /** Marking one (conversation, receiver) pair leaves the unread count of
      every other pair as it was. */
  lemma {:induction false} MarkKeepsOtherCounts(rows: seq<Message>, c: string, r: int, c': string, r': int)
    requires c != c' || r != r'
    ensures UnreadCount(MarkedRead(rows, c, r), c', r') == UnreadCount(rows, c', r')
  {
    if |rows| > 0 {
      assert MarkedRead(rows, c, r)[1..] == MarkedRead(rows[1..], c, r);
      MarkKeepsOtherCounts(rows[1..], c, r, c', r');
    }
  }

  /** A saved message adds one to its own pair's unread count (it is saved
      unread) and nothing to any other pair's. */
  lemma SaveAddsUnread(rows: seq<Message>, m: Message, c: string, r: int)
    ensures UnreadCount(rows + [m], c, r) == UnreadCount(rows, c, r) + (if UnreadFor(m, c, r) then 1 else 0)
  {
    CountAppend(rows, [m], UnreadIn(c, r));
  }

  /** Recall changes at most the row carrying that id, and only when the
      sender matches; ids being distinct, that is one message. */
  lemma RecallTouchesOnlyTarget(rows: seq<Message>, messageId: int, senderId: int, now: int, i: int)
    requires 0 <= i < |rows|
    ensures rows[i].id != messageId || rows[i].senderId != senderId ==>
      Recalled(rows, messageId, senderId, now)[i] == rows[i]
    ensures rows[i].id == messageId && rows[i].senderId == senderId ==>
      Recalled(rows, messageId, senderId, now)[i].isRecalled &&
      Recalled(rows, messageId, senderId, now)[i].recallTime == Some(now)
  {
  }

  /** Nothing guards against recalling twice: a second recall by the sender
      succeeds again and its time replaces the first one. */
  lemma RecallAgain(rows: seq<Message>, messageId: int, senderId: int, t1: int, t2: int)
    ensures Recalled(Recalled(rows, messageId, senderId, t1), messageId, senderId, t2)
         == Recalled(rows, messageId, senderId, t2)
    ensures forall i | 0 <= i < |rows| ::
      RecallTarget(messageId, senderId)(rows[i]) <==>
      RecallTarget(messageId, senderId)(Recalled(rows, messageId, senderId, t1)[i])
  {
  }

  /** Recall leaves every unread count as it was. */
  lemma {:induction false} RecallKeepsUnread(rows: seq<Message>, messageId: int, senderId: int, now: int, c: string, r: int)
    ensures UnreadCount(Recalled(rows, messageId, senderId, now), c, r) == UnreadCount(rows, c, r)
  {
    if |rows| > 0 {
      assert Recalled(rows, messageId, senderId, now)[1..] == Recalled(rows[1..], messageId, senderId, now);
      RecallKeepsUnread(rows[1..], messageId, senderId, now, c, r);
    }
  }

  /** `valueOf` accepts every constant's own name. */
  lemma ParseTypeName(t: MessageType)
    ensures ParseMessageType(TypeName(t)) == Some(t)
  {
  }
}
