/** The conversation projection (`ConversationService` over
    `ConversationRepository`): one row per (user, conversation) carrying that
    user's unread count, pin flag, last message and, for groups, the member
    count. */
module Conversations {
  import opened Wrappers
  import opened JavaText
  import opened Tables

  /** A row of `conversations`. `kind` is the `type` column ("FRIEND",
      "GROUP"); `lastMessageTime` is a clock reading. */
  datatype Conversation = Conversation(
    id: int,
    conversationId: string,
    userId: int,
    kind: string,
    targetId: Option<string>,
    name: Option<string>,
    avatar: Option<string>,
    lastMessage: Option<string>,
    unreadCount: int,
    isTop: bool,
    lastMessageTime: int,
    memberCount: Option<int>)

  /** Why a single-row operation fails: no row (`RuntimeException("对话不存在")`),
      or several rows where `Optional` expects one
      (`IncorrectResultSizeDataAccessException`). */
  datatype Failure = NotFound | NotUnique

  function FailureText(f: Failure): string
  {
    match f
    case NotFound => "对话不存在"
    case NotUnique => "query did not return a unique result"
  }

  // ---------------------------------------------------------------------------
  // Conversation ids

  /** `"conversation_" + Math.min(a, b) + "_" + Math.max(a, b)`. */
  function PrivateConversationId(a: int, b: int): string
  {
    var lo, hi := if a <= b then a else b, if a <= b then b else a;
    "conversation_" + (DecimalString(lo) + "_" + DecimalString(hi))
  }

  /** `"group_" + groupId`. */
  function GroupConversationId(groupId: int): string
  {
    "group_" + DecimalString(groupId)
  }

  /** `getUserName`: a placeholder display name. */
  function UserName(userId: int): string
  {
    "用户" + DecimalString(userId)
  }

  /** The private id does not depend on which user asks. */
  lemma PrivateIdSymmetric(a: int, b: int)
    ensures PrivateConversationId(a, b) == PrivateConversationId(b, a)
  {
  }

  lemma NoUnderscoreInDecimal(n: int)
    ensures '_' !in DecimalString(n)
  {
    var d := if n < 0 then Digits(-n) else Digits(n);
    assert forall i | 0 <= i < |d| :: IsDigit(d[i]);
  }

  /** In `x + [sep] + y` with no `sep` in `x`, the first `sep` sits at `|x|`. */
  lemma FirstSeparator(x: string, y: string, sep: char)
    requires sep !in x
    ensures forall k | 0 <= k <= |x| :: (x + [sep] + y)[k] == sep <==> k == |x|
  {
    assert forall k | 0 <= k < |x| :: (x + [sep] + y)[k] == x[k];
  }

  /** Two strings joined by a separator that neither contains split back
      uniquely. */
  lemma SplitAtSeparator(x: string, y: string, x': string, y': string, sep: char)
    requires sep !in x && sep !in x'
    requires x + [sep] + y == x' + [sep] + y'
    ensures x == x' && y == y'
  {
    var s := x + [sep] + y;
    FirstSeparator(x, y, sep);
    FirstSeparator(x', y', sep);
    assert |x| <= |x'| ==> s[|x|] == sep;
    assert |x'| <= |x| ==> s[|x'|] == sep;
    assert |x| == |x'|;
    assert x == s[..|x|] == x';
    assert y == s[|x| + 1..] == y';
  }

  lemma StripPrefix(p: string, u: string, v: string)
    requires p + u == p + v
    ensures u == v
  {
    assert u == (p + u)[|p|..];
    assert v == (p + v)[|p|..];
  }

  /** Decimal text names one `long`. */
  lemma DecimalInjective(m: int, n: int)
    requires InLongRange(m) && InLongRange(n) && DecimalString(m) == DecimalString(n)
    ensures m == n
  {
    ParseDecimalString(m);
    ParseDecimalString(n);
  }

  lemma JoinedDecimalsInjective(lo: int, hi: int, lo': int, hi': int)
    requires InLongRange(lo) && InLongRange(hi) && InLongRange(lo') && InLongRange(hi')
    requires DecimalString(lo) + "_" + DecimalString(hi) == DecimalString(lo') + "_" + DecimalString(hi')
    ensures lo == lo' && hi == hi'
  {
    NoUnderscoreInDecimal(lo);
    NoUnderscoreInDecimal(lo');
    SplitAtSeparator(DecimalString(lo), DecimalString(hi), DecimalString(lo'), DecimalString(hi'), '_');
    DecimalInjective(lo, lo');
    DecimalInjective(hi, hi');
  }

  /** Different groups get different conversation ids. */
  lemma GroupIdInjective(g: int, h: int)
    requires InLongRange(g) && InLongRange(h) && GroupConversationId(g) == GroupConversationId(h)
    ensures g == h
  {
    StripPrefix("group_", DecimalString(g), DecimalString(h));
    DecimalInjective(g, h);
  }

  /** Different users get different placeholder names. */
  lemma UserNameInjective(u: int, w: int)
    requires InLongRange(u) && InLongRange(w) && UserName(u) == UserName(w)
    ensures u == w
  {
    StripPrefix("用户", DecimalString(u), DecimalString(w));
    DecimalInjective(u, w);
  }

  /** Different pairs of `long` ids get different private ids: the id names
      the unordered pair exactly, so two friendships never share a row set. */
  lemma PrivateIdInjective(a: int, b: int, c: int, d: int)
    requires InLongRange(a) && InLongRange(b) && InLongRange(c) && InLongRange(d)
    requires PrivateConversationId(a, b) == PrivateConversationId(c, d)
    ensures (if a <= b then a else b) == (if c <= d then c else d)
    ensures (if a <= b then b else a) == (if c <= d then d else c)
  {
    var lo, hi := if a <= b then a else b, if a <= b then b else a;
    var lo', hi' := if c <= d then c else d, if c <= d then d else c;
    var u := DecimalString(lo) + "_" + DecimalString(hi);
    var v := DecimalString(lo') + "_" + DecimalString(hi');
    assert PrivateConversationId(a, b) == "conversation_" + u;
    assert PrivateConversationId(c, d) == "conversation_" + v;
    StripPrefix("conversation_", u, v);
    JoinedDecimalsInjective(lo, hi, lo', hi');
  }

  /** A private id is never a group id. */
  lemma PrivateIsNotGroup(a: int, b: int, g: int)
    ensures PrivateConversationId(a, b) != GroupConversationId(g)
  {
    assert PrivateConversationId(a, b)[0] == 'c';
    assert GroupConversationId(g)[0] == 'g';
  }

  // ---------------------------------------------------------------------------
  // Row predicates and table functions

  /** `findByUserIdAndConversationId(userId, conversationId)`. */
  function OwnRow(userId: int, conversationId: string): Conversation -> bool
  {
    (c: Conversation) => c.userId == userId && c.conversationId == conversationId
  }

  /** `findByConversationId(conversationId)`. */
  function InConversation(conversationId: string): Conversation -> bool
  {
    (c: Conversation) => c.conversationId == conversationId
  }

  /** `findByUserIdOrderByLastMessageTimeDesc(userId)`, without the order. */
  function UserConversations(rows: seq<Conversation>, userId: int): (r: seq<Conversation>)
    ensures forall c | c in r :: c in rows && c.userId == userId
    ensures forall c | c in rows && c.userId == userId :: c in r
  {
    Filter(rows, (c: Conversation) => c.userId == userId)
  }

  /** `SUM(c.unreadCount) WHERE c.userId = :userId`, with the service's null
      (no rows) read as 0. */
  function TotalUnread(rows: seq<Conversation>, userId: int): int
  {
    if |rows| == 0 then 0
    else (if rows[0].userId == userId then rows[0].unreadCount else 0) + TotalUnread(rows[1..], userId)
  }

  /** The two rows `createPrivateConversation` saves: each user's row targets
      the other user. */
  function PrivateRow(owner: int, other: int, conversationId: string, now: int, id: int): Conversation
  {
    Conversation(id, conversationId, owner, "FRIEND", Some(DecimalString(other)), Some(UserName(other)),
                 None, None, 0, false, now, None)
  }

  /** The table after `getOrCreatePrivateConversation(a, b)`, given the next
      identity value. */
  function WithPrivate(rows: seq<Conversation>, a: int, b: int, now: int, nextId: int): seq<Conversation>
  {
    var cid := PrivateConversationId(a, b);
    if Count(rows, InConversation(cid)) == 0 then
      rows + [PrivateRow(a, b, cid, now, nextId), PrivateRow(b, a, cid, now, nextId + 1)]
    else rows
  }

  /** One row after `updateLastMessage(conversationId, lastMessage, senderId)`. */
  function NewMessageRow(c: Conversation, conversationId: string, lastMessage: Option<string>, senderId: int, now: int): Conversation
  {
    if c.conversationId != conversationId then c
    else c.(lastMessage := lastMessage, lastMessageTime := now,
            unreadCount := if c.userId != senderId then c.unreadCount + 1 else c.unreadCount)
  }

  function AfterNewMessage(rows: seq<Conversation>, conversationId: string, lastMessage: Option<string>, senderId: int, now: int): (out: seq<Conversation>)
    ensures |out| == |rows|
  {
    seq(|rows|, i requires 0 <= i < |rows| => NewMessageRow(rows[i], conversationId, lastMessage, senderId, now))
  }

  /** A group row as `createGroupConversation` and `addUserToGroupConversation`
      build it. */
  function GroupRow(userId: int, groupId: int, groupName: Option<string>, now: int, memberCount: int, id: int): Conversation
  {
    Conversation(id, GroupConversationId(groupId), userId, "GROUP", Some(DecimalString(groupId)), groupName,
                 None, None, 0, false, now, Some(memberCount))
  }

  function GroupRows(memberIds: seq<int>, groupId: int, groupName: Option<string>, now: int, firstId: int): (out: seq<Conversation>)
    ensures |out| == |memberIds|
  {
    seq(|memberIds|, i requires 0 <= i < |memberIds| =>
      GroupRow(memberIds[i], groupId, groupName, now, |memberIds|, firstId + i))
  }

  /** Every row of the conversation has its member count set to `n`. */
  function Recounted(rows: seq<Conversation>, conversationId: string, n: int): (out: seq<Conversation>)
    ensures |out| == |rows|
  {
    seq(|rows|, i requires 0 <= i < |rows| =>
      if rows[i].conversationId == conversationId then rows[i].(memberCount := Some(n)) else rows[i])
  }

  function RenamedRow(c: Conversation, conversationId: string, groupName: Option<string>, avatar: Option<string>): Conversation
  {
    if c.conversationId != conversationId then c
    else c.(name := if groupName.Some? then groupName else c.name,
            avatar := if avatar.Some? then avatar else c.avatar)
  }

  /** Every row of the group conversation agrees with the number of rows. */
  ghost predicate MemberCountsAgree(rows: seq<Conversation>, conversationId: string)
  {
    forall k | 0 <= k < |rows| && rows[k].conversationId == conversationId ::
      rows[k].memberCount == Some(Count(rows, InConversation(conversationId)))
  }

  // ---------------------------------------------------------------------------
  // The service over a mutable table

  class ConversationStore {
    var rows: seq<Conversation>
    var nextId: int

    constructor ()
      ensures rows == [] && nextId == 1
    {
      rows := [];
      nextId := 1;
    }

    /** `markAsRead(userId, conversationId)`: zeroes the caller's own row. */
    method MarkAsRead(userId: int, conversationId: string) returns (r: Result<Unit, Failure>)
      modifies this`rows
      ensures match FindUnique(old(rows), OwnRow(userId, conversationId))
        case At(i) => r.Ok? && rows == old(rows)[i := old(rows)[i].(unreadCount := 0)]
        case Absent => r == Err(NotFound) && rows == old(rows)
        case Duplicate => r == Err(NotUnique) && rows == old(rows)
    {
      match FindUnique(rows, OwnRow(userId, conversationId))
      case At(i) =>
        rows := rows[i := rows[i].(unreadCount := 0)];
        r := Ok(Unit);
      case Absent =>
        r := Err(NotFound);
      case Duplicate =>
        r := Err(NotUnique);
    }

    /** `setTop(userId, conversationId, isTop)`: sets the flag on the caller's
        own row only. */
    method SetTop(userId: int, conversationId: string, isTop: bool) returns (r: Result<Unit, Failure>)
      modifies this`rows
      ensures match FindUnique(old(rows), OwnRow(userId, conversationId))
        case At(i) => r.Ok? && rows == old(rows)[i := old(rows)[i].(isTop := isTop)]
        case Absent => r == Err(NotFound) && rows == old(rows)
        case Duplicate => r == Err(NotUnique) && rows == old(rows)
    {
      match FindUnique(rows, OwnRow(userId, conversationId))
      case At(i) =>
        rows := rows[i := rows[i].(isTop := isTop)];
        r := Ok(Unit);
      case Absent =>
        r := Err(NotFound);
      case Duplicate =>
        r := Err(NotUnique);
    }

    /** `deleteConversation(userId, conversationId)`: removes the caller's
        own row; the other participant's row stays. */
    method DeleteConversation(userId: int, conversationId: string) returns (r: Result<Unit, Failure>)
      modifies this`rows
      ensures match FindUnique(old(rows), OwnRow(userId, conversationId))
        case At(i) => r.Ok? && rows == RemoveAt(old(rows), i)
        case Absent => r == Err(NotFound) && rows == old(rows)
        case Duplicate => r == Err(NotUnique) && rows == old(rows)
    {
      match FindUnique(rows, OwnRow(userId, conversationId))
      case At(i) =>
        rows := RemoveAt(rows, i);
        r := Ok(Unit);
      case Absent =>
        r := Err(NotFound);
      case Duplicate =>
        r := Err(NotUnique);
    }

    /** `getOrCreatePrivateConversation(a, b)`: returns the canonical id and
        saves the two rows only when no row carries that id yet. */
    method GetOrCreatePrivateConversation(a: int, b: int, now: int) returns (cid: string)
      modifies this
      ensures cid == PrivateConversationId(a, b)
      ensures rows == WithPrivate(old(rows), a, b, now, old(nextId))
      ensures nextId == old(nextId) + |rows| - |old(rows)|
    {
      cid := PrivateConversationId(a, b);
      if Count(rows, InConversation(cid)) == 0 {
        rows := rows + [PrivateRow(a, b, cid, now, nextId)];
        rows := rows + [PrivateRow(b, a, cid, now, nextId + 1)];
        nextId := nextId + 2;
      }
    }

    /** `updateLastMessage(conversationId, lastMessage, senderId)`: every row
        of the conversation gets the message, and every row but the sender's
        one more unread. */
    method UpdateLastMessage(conversationId: string, lastMessage: Option<string>, senderId: int, now: int)
      modifies this`rows
      ensures rows == AfterNewMessage(old(rows), conversationId, lastMessage, senderId, now)
    {
      var i := 0;
      while i < |rows|
        invariant 0 <= i <= |rows| == |old(rows)|
        invariant forall k | 0 <= k < i :: rows[k] == NewMessageRow(old(rows)[k], conversationId, lastMessage, senderId, now)
        invariant forall k | i <= k < |rows| :: rows[k] == old(rows)[k]
      {
        if rows[i].conversationId == conversationId {
          var c := rows[i].(lastMessage := lastMessage, lastMessageTime := now);
          if c.userId != senderId {
            c := c.(unreadCount := c.unreadCount + 1);
          }
          rows := rows[i := c];
        }
        i := i + 1;
      }
    }

    /** `getTotalUnreadCount(userId)`. */
    function GetTotalUnreadCount(userId: int): (n: int)
      reads this
      ensures (forall k | 0 <= k < |rows| :: rows[k].unreadCount >= 0) ==> n >= 0
      ensures (forall k | 0 <= k < |rows| :: rows[k].userId != userId) ==> n == 0
    {
      TotalUnreadBounds(rows, userId);
      TotalUnread(rows, userId)
    }

    /** `createGroupConversation(groupId, groupName, memberIds)`: one row per
        listed id, each counting the whole list. */
    method CreateGroupConversation(groupId: int, groupName: Option<string>, memberIds: seq<int>, now: int)
      modifies this
      ensures rows == old(rows) + GroupRows(memberIds, groupId, groupName, now, old(nextId))
      ensures nextId == old(nextId) + |memberIds|
    {
      ghost var all := GroupRows(memberIds, groupId, groupName, now, nextId);
      var i := 0;
      while i < |memberIds|
        invariant 0 <= i <= |memberIds|
        invariant nextId == old(nextId) + i
        invariant rows == old(rows) + all[..i]
      {
        var row := GroupRow(memberIds[i], groupId, groupName, now, |memberIds|, nextId);
        assert all[i] == row;
        assert all[..i + 1] == all[..i] + [row];
        AppendAssoc(old(rows), all[..i], [row]);
        rows := rows + [row];
        nextId := nextId + 1;
        i := i + 1;
      }
      assert all[..i] == all;
    }

    /** `addUserToGroupConversation(groupId, userId, groupName)`: adds the
        user's row, counting the rows already there plus one, unless it
        exists; rows already there keep their count. */
    method AddUserToGroupConversation(groupId: int, userId: int, groupName: Option<string>, now: int) returns (r: Result<Unit, Failure>)
      modifies this
      ensures var cid := GroupConversationId(groupId);
        match FindUnique(old(rows), OwnRow(userId, cid))
        case Absent =>
          r.Ok? && nextId == old(nextId) + 1 &&
          rows == old(rows) + [GroupRow(userId, groupId, groupName, now, Count(old(rows), InConversation(cid)) + 1, old(nextId))]
        case At(_) => r.Ok? && rows == old(rows) && nextId == old(nextId)
        case Duplicate => r == Err(NotUnique) && rows == old(rows) && nextId == old(nextId)
    {
      var cid := GroupConversationId(groupId);
      match FindUnique(rows, OwnRow(userId, cid))
      case Absent =>
        var memberCount := Count(rows, InConversation(cid));
        rows := rows + [GroupRow(userId, groupId, groupName, now, memberCount + 1, nextId)];
        nextId := nextId + 1;
        r := Ok(Unit);
      case At(_) =>
        r := Ok(Unit);
      case Duplicate =>
        r := Err(NotUnique);
    }

    /** `removeUserFromGroupConversation(groupId, userId)`: deletes the
        user's row, then sets every remaining row of the group to the number
        of remaining rows. */
    method RemoveUserFromGroupConversation(groupId: int, userId: int) returns (r: Result<Unit, Failure>)
      modifies this`rows
      ensures var cid := GroupConversationId(groupId);
        match FindUnique(old(rows), OwnRow(userId, cid))
        case At(i) =>
          var rest := RemoveAt(old(rows), i);
          r.Ok? && rows == Recounted(rest, cid, Count(rest, InConversation(cid)))
        case Absent => r.Ok? && rows == old(rows)
        case Duplicate => r == Err(NotUnique) && rows == old(rows)
      ensures r.Ok? && FindUnique(old(rows), OwnRow(userId, GroupConversationId(groupId))).At? ==>
        MemberCountsAgree(rows, GroupConversationId(groupId))
    {
      var cid := GroupConversationId(groupId);
      match FindUnique(rows, OwnRow(userId, cid))
      case At(i) =>
        rows := RemoveAt(rows, i);
        ghost var rest := rows;
        var remaining := Count(rows, InConversation(cid));
        SetMemberCount(cid, remaining);
        RecountAgrees(rest, cid);
        r := Ok(Unit);
      case Absent =>
        r := Ok(Unit);
      case Duplicate =>
        r := Err(NotUnique);
    }

    /** The loop over `findByConversationId` that saves each row with the
        new member count. */
    method SetMemberCount(conversationId: string, n: int)
      modifies this`rows
      ensures rows == Recounted(old(rows), conversationId, n)
    {
      var k := 0;
      while k < |rows|
        invariant 0 <= k <= |rows| == |old(rows)|
        invariant forall j | 0 <= j < k :: rows[j] == Recounted(old(rows), conversationId, n)[j]
        invariant forall j | k <= j < |rows| :: rows[j] == old(rows)[j]
      {
        if rows[k].conversationId == conversationId {
          rows := rows[k := rows[k].(memberCount := Some(n))];
        }
        k := k + 1;
      }
    }

    /** `updateGroupConversation(groupId, groupName, avatar)`: copies each
        non-null value onto every row of the group. */
    method UpdateGroupConversation(groupId: int, groupName: Option<string>, avatar: Option<string>)
      modifies this`rows
      ensures |rows| == |old(rows)|
      ensures forall k | 0 <= k < |rows| :: rows[k] == RenamedRow(old(rows)[k], GroupConversationId(groupId), groupName, avatar)
    {
      var cid := GroupConversationId(groupId);
      var i := 0;
      while i < |rows|
        invariant 0 <= i <= |rows| == |old(rows)|
        invariant forall k | 0 <= k < i :: rows[k] == RenamedRow(old(rows)[k], cid, groupName, avatar)
        invariant forall k | i <= k < |rows| :: rows[k] == old(rows)[k]
      {
        rows := rows[i := RenamedRow(rows[i], cid, groupName, avatar)];
        i := i + 1;
      }
    }
  }

  // ---------------------------------------------------------------------------
  // Properties

  lemma {:induction false} TotalUnreadBounds(rows: seq<Conversation>, userId: int)
    ensures (forall k | 0 <= k < |rows| :: rows[k].unreadCount >= 0) ==> TotalUnread(rows, userId) >= 0
    ensures (forall k | 0 <= k < |rows| :: rows[k].userId != userId) ==> TotalUnread(rows, userId) == 0
  {
    if |rows| > 0 {
      TotalUnreadBounds(rows[1..], userId);
    }
  }

  /** Once the private rows exist, asking again (in either order, at any
      time) changes nothing. */
  lemma PrivateCreationIdempotent(rows: seq<Conversation>, a: int, b: int, t1: int, t2: int, n1: int, n2: int)
    ensures WithPrivate(WithPrivate(rows, a, b, t1, n1), a, b, t2, n2) == WithPrivate(rows, a, b, t1, n1)
    ensures WithPrivate(WithPrivate(rows, a, b, t1, n1), b, a, t2, n2) == WithPrivate(rows, a, b, t1, n1)
  {
    var cid := PrivateConversationId(a, b);
    PrivateIdSymmetric(a, b);
    var once := WithPrivate(rows, a, b, t1, n1);
    if Count(rows, InConversation(cid)) == 0 {
      assert InConversation(cid)(once[|rows|]);
    } else {
      var k :| 0 <= k < |rows| && InConversation(cid)(rows[k]);
      assert InConversation(cid)(once[k]);
    }
  }

  /** A first contact creates exactly two rows, one per user, each pointing
      at the other user, unread 0 and not pinned. */
  lemma PrivateCreationRows(rows: seq<Conversation>, a: int, b: int, now: int, nextId: int)
    requires Count(rows, InConversation(PrivateConversationId(a, b))) == 0
    ensures var out := WithPrivate(rows, a, b, now, nextId);
      |out| == |rows| + 2 && out[..|rows|] == rows &&
      out[|rows|].userId == a && out[|rows|].targetId == Some(DecimalString(b)) &&
      out[|rows| + 1].userId == b && out[|rows| + 1].targetId == Some(DecimalString(a)) &&
      out[|rows|].unreadCount == 0 == out[|rows| + 1].unreadCount &&
      !out[|rows|].isTop && !out[|rows| + 1].isTop &&
      Count(out, InConversation(PrivateConversationId(a, b))) == 2
  {
    var cid := PrivateConversationId(a, b);
    var two := [PrivateRow(a, b, cid, now, nextId), PrivateRow(b, a, cid, now, nextId + 1)];
    var out := rows + two;
    assert WithPrivate(rows, a, b, now, nextId) == out;
    assert out[..|rows|] == rows;
    assert out[|rows|] == two[0] && out[|rows| + 1] == two[1];
    CountAppend(rows, two, InConversation(cid));
    assert Count(two, InConversation(cid)) == 2 by {
      assert InConversation(cid)(two[0]) && InConversation(cid)(two[1]);
      assert two[1..] == [two[1]] && two[1..][1..] == [];
    }
  }

  /** A new message raises a user's total unread by the number of that user's
      rows in the conversation, unless the user is the sender, whose total
      stays. */
  lemma {:induction false} NewMessageUnread(rows: seq<Conversation>, conversationId: string, lastMessage: Option<string>, senderId: int, now: int, userId: int)
    ensures TotalUnread(AfterNewMessage(rows, conversationId, lastMessage, senderId, now), userId)
         == TotalUnread(rows, userId) + (if userId == senderId then 0 else Count(rows, OwnRow(userId, conversationId)))
  {
    if |rows| > 0 {
      assert AfterNewMessage(rows, conversationId, lastMessage, senderId, now)[1..]
          == AfterNewMessage(rows[1..], conversationId, lastMessage, senderId, now);
      NewMessageUnread(rows[1..], conversationId, lastMessage, senderId, now, userId);
    }
  }

  /** Zeroing one row lowers its owner's total by that row's count and no one
      else's. */
  lemma {:induction false} MarkReadLowersTotal(rows: seq<Conversation>, i: int, userId: int)
    requires 0 <= i < |rows|
    ensures TotalUnread(rows[i := rows[i].(unreadCount := 0)], userId)
         == TotalUnread(rows, userId) - (if rows[i].userId == userId then rows[i].unreadCount else 0)
  {
    if i > 0 {
      assert rows[i := rows[i].(unreadCount := 0)][1..] == rows[1..][i - 1 := rows[i].(unreadCount := 0)];
      MarkReadLowersTotal(rows[1..], i - 1, userId);
    }
  }

  lemma {:induction false} CountRecounted(rows: seq<Conversation>, conversationId: string, n: int, p: Conversation -> bool)
    requires forall c: Conversation :: p(c) == (c.conversationId == conversationId)
    ensures Count(Recounted(rows, conversationId, n), p) == Count(rows, p)
  {
    if |rows| > 0 {
      assert Recounted(rows, conversationId, n)[1..] == Recounted(rows[1..], conversationId, n);
      CountRecounted(rows[1..], conversationId, n, p);
    }
  }

  /** Recounting with the number of rows makes every row of the conversation
      agree with it. */
  lemma RecountAgrees(rows: seq<Conversation>, conversationId: string)
    ensures MemberCountsAgree(Recounted(rows, conversationId, Count(rows, InConversation(conversationId))), conversationId)
  {
    CountRecounted(rows, conversationId, Count(rows, InConversation(conversationId)), InConversation(conversationId));
  }

  /** Group rows built from a list all count the whole list and carry the
      group's id, one row per listed member in list order. */
  lemma GroupRowsShape(memberIds: seq<int>, groupId: int, groupName: Option<string>, now: int, firstId: int, i: int)
    requires 0 <= i < |memberIds|
    ensures var row := GroupRows(memberIds, groupId, groupName, now, firstId)[i];
      row.userId == memberIds[i] && row.conversationId == GroupConversationId(groupId) &&
      row.memberCount == Some(|memberIds|) && row.unreadCount == 0 && !row.isTop
  {
  }
}
