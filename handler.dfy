/** The chat WebSocket endpoint (`ChatWebSocketHandler`): a registry from user
    id to that user's current session, authentication from the connection's
    query string, and a router that turns each text frame into a call on the
    message, conversation and group services plus the frames sent back.

    Frames are not serialised: every frame the handler writes is appended to
    `outbox` as (session, kind). Writing to a session that is not open delivers
    nothing (the transport's exception is caught and logged by the handler),
    so a frame reaches the log only when its session is open. */
module ChatHandler {
  import opened Wrappers
  import opened JavaText
  import opened Tables
  import opened Tokens
  import opened Envelope
  import Messages
  import Conversations
  import Groups

  /** A WebSocket session: its identity and the query string of the URI it
      was opened with (`null` when the URI has none). */
  datatype Session = Session(id: nat, query: Option<string>)

  /** What made a handler's own `catch` fire: a failed cast, a null value
      dereferenced, or a service that threw. */
  datatype Cause =
    | ClassCast
    | NullDereference
    | ConversationFailure(failure: Conversations.Failure)
    | GroupFailure(error: Groups.GroupError)

  /** Why a command was refused; each is one `error` frame. */
  datatype Reason =
    | MalformedFrame
    | NotAuthenticated
    | TypeMissing
    | UnknownType(typeName: string)
    | ConversationIdMissing
    | ContentMissing
    | MessageTypeMissing
    | TargetUserIdMalformed
    | GroupIdMalformed
    | TargetMissing
    | MessageTypeUnsupported(messageType: string)
    | SendFailed(cause: Cause)
    | MessageIdMissing
    | MessageIdMalformed
    | RecallDenied
    | RecallFailed(cause: Cause)
    | GroupNameMissing
    | CreateGroupFailed(cause: Cause)
    | GroupIdMissing
    | JoinFailed(cause: Cause)
    | MarkReadFailed(cause: Cause)
    | TopFlagMissing
    | SetTopFailed(cause: Cause)

  /** The exception message appended after a handler's prefix. The JVM's own
      messages for a failed cast or a null dereference are not modelled; the
      exception's name stands in for them. */
  function CauseText(c: Cause): string
  {
    match c
    case ClassCast => "ClassCastException"
    case NullDereference => "NullPointerException"
    case ConversationFailure(f) => Conversations.FailureText(f)
    case GroupFailure(e) => Groups.ErrorText(e)
  }

  /** The `message` field of the error frame. */
  function ReasonText(r: Reason): string
  {
    match r
    case MalformedFrame => "消息格式错误"
    case NotAuthenticated => "用户未认证"
    case TypeMissing => "消息类型不能为空"
    case UnknownType(t) => "未知消息类型: " + t
    case ConversationIdMissing => "会话ID不能为空"
    case ContentMissing => "消息内容不能为空"
    case MessageTypeMissing => "消息类型不能为空"
    case TargetUserIdMalformed => "目标用户ID格式错误"
    case GroupIdMalformed => "群组ID格式错误"
    case TargetMissing => "必须指定目标用户或群组"
    case MessageTypeUnsupported(t) => "不支持的消息类型: " + t
    case SendFailed(c) => "消息发送失败: " + CauseText(c)
    case MessageIdMissing => "消息ID不能为空"
    case MessageIdMalformed => "消息ID格式错误"
    case RecallDenied => "撤回消息失败：无权限或消息不存在"
    case RecallFailed(c) => "撤回消息失败: " + CauseText(c)
    case GroupNameMissing => "群组名称不能为空"
    case CreateGroupFailed(c) => "创建群组失败: " + CauseText(c)
    case GroupIdMissing => "群组ID不能为空"
    case JoinFailed(c) => "加入群组失败: " + CauseText(c)
    case MarkReadFailed(c) => "标记已读失败: " + CauseText(c)
    case TopFlagMissing => "置顶状态不能为空"
    case SetTopFailed(c) => "设置置顶失败: " + CauseText(c)
  }

  /** The frames the handler writes, by their `type` field. Timestamps are
      left out. */
  datatype FrameKind =
    | Pong
    | System(text: string, level: string)
    | ConversationList(rows: seq<Conversations.Conversation>)
    | Error(reason: Reason)
    | MessageSent(conversationId: string, content: string, messageId: int)
    | NewMessage(message: Messages.Message)
    | MessageRecalled(messageId: int, recalledBy: int)
    | RecallSuccess(messageId: int)
    | GroupCreated(groupId: int, groupName: string)
    | GroupJoined(groupId: int)

  datatype Frame = Frame(session: nat, kind: FrameKind)

  // ---------------------------------------------------------------------------
  // Authentication from the query string

  /** What the token loop does with one query parameter: keep scanning
      (`None`) or return the given value. A token that does not validate is
      skipped; one that validates decides, whether its type is "USER" (its id,
      possibly null), another type (null), or a claim read that throws (the
      method's `catch` returns null). */
  function TokenParam(param: string, v: Verifier): Option<Option<int>>
  {
    if !StartsWith(param, "token=") then None
    else match Check(v, param[6..])
      case Invalid => None
      case ClaimError(_) => Some(None)
      case Valid(c) => if c.kind == Some(UserKind) then Some(c.id) else Some(None)
  }

  /** The token loop: the first parameter that decides. */
  function TokenScan(params: seq<string>, v: Verifier): (r: Option<Option<int>>)
    ensures r.None? <==> forall k | 0 <= k < |params| :: TokenParam(params[k], v).None?
  {
    if |params| == 0 then None
    else if TokenParam(params[0], v).Some? then TokenParam(params[0], v)
    else TokenScan(params[1..], v)
  }

  /** What the `userId=` loop does with one parameter: a value `Long.parseLong`
      accepts is returned; anything else is skipped. */
  function UserIdParam(param: string): Option<int>
  {
    if StartsWith(param, "userId=") then ParseLong(param[7..]) else None
  }

  function UserIdScan(params: seq<string>): (r: Option<int>)
    ensures r.None? <==> forall k | 0 <= k < |params| :: UserIdParam(params[k]).None?
    ensures r.Some? ==> InLongRange(r.value)
  {
    if |params| == 0 then None
    else if UserIdParam(params[0]).Some? then UserIdParam(params[0])
    else UserIdScan(params[1..])
  }

  /** `getUserIdFromSession`: the user a session's query string authenticates,
      if any. */
  function AuthenticatedUser(query: Option<string>, v: Verifier): (r: Option<int>)
    ensures r.Some? ==> query.Some? && (Contains(query.value, "token=") || Contains(query.value, "userId="))
    ensures r.Some? && !Contains(query.value, "token=") ==> InLongRange(r.value)
  {
    match query
    case None => None
    case Some(q) =>
      var t := if Contains(q, "token=") then TokenScan(Split(q, '&'), v) else None;
      if t.Some? then t.value
      else if Contains(q, "userId=") then UserIdScan(Split(q, '&'))
      else None
  }

  /** The token loop returns what the first deciding parameter says. */
  lemma {:induction false} TokenScanFirst(params: seq<string>, v: Verifier, k: int)
    requires 0 <= k < |params| && TokenParam(params[k], v).Some?
    requires forall j | 0 <= j < k :: TokenParam(params[j], v).None?
    ensures TokenScan(params, v) == TokenParam(params[k], v)
  {
    if k > 0 {
      TokenScanFirst(params[1..], v, k - 1);
    }
  }

  /** The fallback loop returns the first parameter that parses. */
  lemma {:induction false} UserIdScanFirst(params: seq<string>, k: int)
    requires 0 <= k < |params| && UserIdParam(params[k]).Some?
    requires forall j | 0 <= j < k :: UserIdParam(params[j]).None?
    ensures UserIdScan(params) == UserIdParam(params[k])
  {
    if k > 0 {
      UserIdScanFirst(params[1..], k - 1);
    }
  }

  /** A valid "USER" token that comes first among the deciding parameters
      authenticates as the token's id. */
  lemma UserTokenAuthenticates(q: string, v: Verifier, k: int, id: int)
    requires Contains(q, "token=")
    requires 0 <= k < |Split(q, '&')| && StartsWith(Split(q, '&')[k], "token=")
    requires Check(v, Split(q, '&')[k][6..]).Valid?
    requires Check(v, Split(q, '&')[k][6..]).claims.kind == Some(UserKind)
    requires Check(v, Split(q, '&')[k][6..]).claims.id == Some(id)
    requires forall j | 0 <= j < k :: TokenParam(Split(q, '&')[j], v).None?
    ensures AuthenticatedUser(Some(q), v) == Some(id)
  {
    TokenScanFirst(Split(q, '&'), v, k);
  }

  /** A valid token of any other type refuses the connection, even when a
      later `userId=` parameter would parse. */
  lemma OtherTokenRefuses(q: string, v: Verifier, k: int)
    requires Contains(q, "token=")
    requires 0 <= k < |Split(q, '&')| && StartsWith(Split(q, '&')[k], "token=")
    requires Check(v, Split(q, '&')[k][6..]).Valid?
    requires Check(v, Split(q, '&')[k][6..]).claims.kind != Some(UserKind)
    requires forall j | 0 <= j < k :: TokenParam(Split(q, '&')[j], v).None?
    ensures AuthenticatedUser(Some(q), v) == None
  {
    TokenScanFirst(Split(q, '&'), v, k);
  }

  /** When no token decides, the `userId=` parameters are read, and the first
      one that parses wins; the ones before it that do not parse are skipped. */
  lemma InvalidTokensFallBack(q: string, v: Verifier, k: int)
    requires forall j | 0 <= j < |Split(q, '&')| :: TokenParam(Split(q, '&')[j], v).None?
    requires Contains(q, "userId=")
    requires 0 <= k < |Split(q, '&')| && UserIdParam(Split(q, '&')[k]).Some?
    requires forall j | 0 <= j < k :: UserIdParam(Split(q, '&')[j]).None?
    ensures AuthenticatedUser(Some(q), v) == UserIdParam(Split(q, '&')[k])
  {
    UserIdScanFirst(Split(q, '&'), k);
  }

  // ---------------------------------------------------------------------------
  // Routing a text frame

  /** The `type` values the router knows. */
  datatype Command =
    | GetConversationList | MarkAsRead | SetTop | SendMessage | RecallMessage | CreateGroup | JoinGroup

  function CommandName(c: Command): string
  {
    match c
    case GetConversationList => "get_conversation_list"
    case MarkAsRead => "mark_as_read"
    case SetTop => "set_top"
    case SendMessage => "send_message"
    case RecallMessage => "recall_message"
    case CreateGroup => "create_group"
    case JoinGroup => "join_group"
  }

  /** The `switch (type)`. */
  function CommandOf(t: string): (r: Option<Command>)
    ensures r.Some? ==> CommandName(r.value) == t
    ensures r.None? ==> forall c: Command :: CommandName(c) != t
  {
    if t == "get_conversation_list" then Some(GetConversationList)
    else if t == "mark_as_read" then Some(MarkAsRead)
    else if t == "set_top" then Some(SetTop)
    else if t == "send_message" then Some(SendMessage)
    else if t == "recall_message" then Some(RecallMessage)
    else if t == "create_group" then Some(CreateGroup)
    else if t == "join_group" then Some(JoinGroup)
    else None
  }

  /** What `handleTextMessage` does with a frame before any command runs:
      answer a heartbeat, refuse with one error frame, or hand the frame's
      fields to a command for an authenticated user. `parsed` is Jackson's
      reading of the payload, `None` when it is not a JSON object. */
  datatype Route = Heartbeat | Reject(reason: Reason) | Dispatch(command: Command, userId: int, fields: Fields)

  function RouteOf(payload: string, parsed: Option<Fields>, userId: Option<int>): (r: Route)
    ensures r.Heartbeat? <==> payload == "ping" || payload == "heartbeat"
    ensures !r.Heartbeat? && parsed.None? ==> r == Reject(MalformedFrame)
    ensures r.Dispatch? ==> parsed == Some(r.fields) && userId == Some(r.userId) &&
                            Get(r.fields, "type") == JString(CommandName(r.command))
    ensures !r.Heartbeat? && userId.None? ==> r == Reject(NotAuthenticated) || r == Reject(MalformedFrame)
    ensures !r.Heartbeat? && parsed.Some? && userId.Some? && Get(parsed.value, "type").JNull? ==> r == Reject(TypeMissing)
    ensures (!r.Heartbeat? && parsed.Some? && userId.Some? && Get(parsed.value, "type").JString? &&
             CommandOf(Get(parsed.value, "type").s).None?) ==> r == Reject(UnknownType(Get(parsed.value, "type").s))
  {
    if payload == "ping" || payload == "heartbeat" then Heartbeat
    else if parsed.None? then Reject(MalformedFrame)
    else match StringField(parsed.value, "type")
      case Err(_) => Reject(MalformedFrame)
      case Ok(t) =>
        if userId.None? then Reject(NotAuthenticated)
        else if t.None? then Reject(TypeMissing)
        else match CommandOf(t.value)
          case None => Reject(UnknownType(t.value))
          case Some(c) => Dispatch(c, userId.value, parsed.value)
  }

  // ---------------------------------------------------------------------------
  // Reading a command's fields

  /** An id field read only when the key is present with a non-null value:
      `None` when absent or null, `Err` when `Long.valueOf` rejects it. */
  function OptionalId(fields: Fields, key: string): (r: Result<Option<int>, Unit>)
    ensures r == Ok(None) <==> Get(fields, key).JNull?
    ensures r.Ok? && r.value.Some? ==> LongValue(Get(fields, key)) == Long(r.value.value)
    ensures r.Err? ==> LongValue(Get(fields, key)) == NotANumber
  {
    match LongValue(Get(fields, key))
    case NullValue => Ok(None)
    case NotANumber => Err(Unit)
    case Long(n) => Ok(Some(n))
  }

  /** A `send_message` that passed validation. */
  datatype SendRequest = SendRequest(
    conversationId: string,
    content: string,
    messageType: Messages.MessageType,
    targetUserId: Option<int>,
    groupId: Option<int>)

  /** The checks of `handleSendMessage`, in the order it makes them. The
      three casts come first, all before any check. */
  function ValidateSend(f: Fields): (r: Result<SendRequest, Reason>)
    // a non-string text field aborts the handler before any check
    ensures (StringField(f, "conversationId").Err? || StringField(f, "content").Err? ||
             StringField(f, "messageType").Err?) ==> r == Err(SendFailed(ClassCast))
    // then each check in turn, the first failing one giving the error
    ensures StringField(f, "conversationId").Ok? && StringField(f, "content").Ok? && StringField(f, "messageType").Ok? ==>
      (NullOrBlank(StringField(f, "conversationId").value) ==> r == Err(ConversationIdMissing)) &&
      (!NullOrBlank(StringField(f, "conversationId").value) && NullOrBlank(StringField(f, "content").value) ==>
        r == Err(ContentMissing)) &&
      (!NullOrBlank(StringField(f, "conversationId").value) && !NullOrBlank(StringField(f, "content").value) ==>
        (StringField(f, "messageType").value.None? ==> r == Err(MessageTypeMissing)) &&
        (StringField(f, "messageType").value.Some? ==>
          (OptionalId(f, "targetUserId").Err? ==> r == Err(TargetUserIdMalformed)) &&
          (OptionalId(f, "targetUserId").Ok? && OptionalId(f, "groupId").Err? ==> r == Err(GroupIdMalformed)) &&
          (OptionalId(f, "targetUserId") == Ok(None) && OptionalId(f, "groupId") == Ok(None) ==> r == Err(TargetMissing))))
    // a request that passes carries exactly the frame's values
    ensures r.Ok? ==>
      Get(f, "conversationId") == JString(r.value.conversationId) && !IsBlank(r.value.conversationId) &&
      Get(f, "content") == JString(r.value.content) && !IsBlank(r.value.content) &&
      Get(f, "messageType").JString? &&
      Messages.TypeName(r.value.messageType) == ToUpper(Get(f, "messageType").s) &&
      OptionalId(f, "targetUserId") == Ok(r.value.targetUserId) &&
      OptionalId(f, "groupId") == Ok(r.value.groupId) &&
      (r.value.targetUserId.Some? || r.value.groupId.Some?)
    // a frame passing every earlier check is accepted exactly when its type
    // parses after upper-casing, and then carries the frame's values
    ensures var cid, content, mtype := StringField(f, "conversationId"), StringField(f, "content"), StringField(f, "messageType");
            var target, group := OptionalId(f, "targetUserId"), OptionalId(f, "groupId");
      cid.Ok? && content.Ok? && mtype.Ok? && !NullOrBlank(cid.value) && !NullOrBlank(content.value) &&
      mtype.value.Some? && target.Ok? && group.Ok? && (target.value.Some? || group.value.Some?) ==>
        match Messages.ParseMessageType(ToUpper(mtype.value.value))
        case None => r == Err(MessageTypeUnsupported(mtype.value.value))
        case Some(t) => r == Ok(SendRequest(cid.value.value, content.value.value, t, target.value, group.value))
    // the type check comes last and is case-insensitive
    ensures r.Err? && r.error.MessageTypeUnsupported? ==>
      Get(f, "messageType") == JString(r.error.messageType) &&
      forall t: Messages.MessageType :: Messages.TypeName(t) != ToUpper(r.error.messageType)
  {
    var cid := StringField(f, "conversationId");
    var content := StringField(f, "content");
    var mtype := StringField(f, "messageType");
    if cid.Err? || content.Err? || mtype.Err? then Err(SendFailed(ClassCast))
    else if NullOrBlank(cid.value) then Err(ConversationIdMissing)
    else if NullOrBlank(content.value) then Err(ContentMissing)
    else if mtype.value.None? then Err(MessageTypeMissing)
    else
      var target := OptionalId(f, "targetUserId");
      if target.Err? then Err(TargetUserIdMalformed)
      else
        var group := OptionalId(f, "groupId");
        if group.Err? then Err(GroupIdMalformed)
        else if target.value.None? && group.value.None? then Err(TargetMissing)
        else match Messages.ParseMessageType(ToUpper(mtype.value.value))
          case None => Err(MessageTypeUnsupported(mtype.value.value))
          case Some(t) => Ok(SendRequest(cid.value.value, content.value.value, t, target.value, group.value))
  }

  /** Every spelling of a type name that differs only in ASCII case is
      accepted as that type. */
  lemma TypeNameAnyCase(s: string, t: Messages.MessageType)
    requires EqualsIgnoreCase(s, Messages.TypeName(t))
    ensures Messages.ParseMessageType(ToUpper(s)) == Some(t)
  {
    var n := Messages.TypeName(t);
    assert forall i | 0 <= i < |n| :: 'A' <= n[i] <= 'Z';
    assert ToUpper(n) == n;
    Messages.ParseTypeName(t);
  }

  /** A frame that passes the other checks is accepted whatever the letter
      case of its type name. */
  lemma SendAcceptsAnyCase(f: Fields, t: Messages.MessageType)
    requires Get(f, "conversationId").JString? && !IsBlank(Get(f, "conversationId").s)
    requires Get(f, "content").JString? && !IsBlank(Get(f, "content").s)
    requires Get(f, "messageType").JString? && EqualsIgnoreCase(Get(f, "messageType").s, Messages.TypeName(t))
    requires OptionalId(f, "targetUserId").Ok? && OptionalId(f, "groupId").Ok?
    requires OptionalId(f, "targetUserId").value.Some? || OptionalId(f, "groupId").value.Some?
    ensures ValidateSend(f) == Ok(SendRequest(Get(f, "conversationId").s, Get(f, "content").s, t,
                                              OptionalId(f, "targetUserId").value, OptionalId(f, "groupId").value))
  {
    TypeNameAnyCase(Get(f, "messageType").s, t);
  }

  /** The message `handleSendMessage` saves for a request. */
  function Outgoing(q: SendRequest, senderId: int): (m: Messages.Message)
    ensures m.senderId == senderId && m.receiverId == q.targetUserId && m.groupId == q.groupId
    ensures m.conversationId == q.conversationId && m.content == q.content && m.messageType == q.messageType
    ensures !m.isRead && !m.isRecalled
  {
    Messages.NewMessage(q.conversationId, senderId, q.targetUserId, q.groupId, q.content, Some(q.messageType))
  }

  /** `recall_message`: the message id, or why it is refused. A key present
      with a null value is dereferenced by `toString()` and aborts the
      handler. */
  function RecallRequest(f: Fields): (r: Result<int, Reason>)
    ensures r == Err(MessageIdMissing) <==> "messageId" !in f
    ensures r.Ok? ==> LongValue(f["messageId"]) == Long(r.value)
    ensures r == Err(MessageIdMalformed) ==> LongValue(f["messageId"]) == NotANumber
  {
    if "messageId" !in f then Err(MessageIdMissing)
    else match LongValue(f["messageId"])
      case NullValue => Err(RecallFailed(NullDereference))
      case NotANumber => Err(MessageIdMalformed)
      case Long(n) => Ok(n)
  }

  /** `join_group`: the group id, read like the message id of a recall. */
  function JoinRequest(f: Fields): (r: Result<int, Reason>)
    ensures r == Err(GroupIdMissing) <==> "groupId" !in f
    ensures r.Ok? ==> LongValue(f["groupId"]) == Long(r.value)
    ensures r == Err(GroupIdMalformed) ==> LongValue(f["groupId"]) == NotANumber
  {
    if "groupId" !in f then Err(GroupIdMissing)
    else match LongValue(f["groupId"])
      case NullValue => Err(JoinFailed(NullDereference))
      case NotANumber => Err(GroupIdMalformed)
      case Long(n) => Ok(n)
  }

  datatype GroupRequest = GroupRequest(groupName: string, description: Option<string>)

  /** `create_group`: both casts happen before the name check. */
  function CreateGroupRequest(f: Fields): (r: Result<GroupRequest, Reason>)
    ensures r.Ok? ==> Get(f, "groupName") == JString(r.value.groupName) && !IsBlank(r.value.groupName)
    ensures r.Ok? ==> StringField(f, "description") == Ok(r.value.description)
    ensures StringField(f, "groupName").Ok? && StringField(f, "description").Ok? ==>
      (r == Err(GroupNameMissing) <==> NullOrBlank(StringField(f, "groupName").value))
  {
    var name := StringField(f, "groupName");
    var description := StringField(f, "description");
    if name.Err? || description.Err? then Err(CreateGroupFailed(ClassCast))
    else if NullOrBlank(name.value) then Err(GroupNameMissing)
    else Ok(GroupRequest(name.value.value, description.value))
  }

  /** `mark_as_read`: a missing key and a null or blank value give the same
      error; a non-string value aborts the handler. */
  function MarkRequest(f: Fields): (r: Result<string, Reason>)
    ensures r.Ok? ==> Get(f, "conversationId") == JString(r.value) && !IsBlank(r.value)
    ensures r == Err(ConversationIdMissing) <==> StringField(f, "conversationId").Ok? && NullOrBlank(StringField(f, "conversationId").value)
  {
    if "conversationId" !in f then Err(ConversationIdMissing)
    else match StringField(f, "conversationId")
      case Err(_) => Err(MarkReadFailed(ClassCast))
      case Ok(c) => if NullOrBlank(c) then Err(ConversationIdMissing) else Ok(c.value)
  }

  datatype TopRequest = TopRequest(conversationId: string, isTop: bool)

  /** `set_top`: both casts, then the id check, then the flag check. */
  function TopRequestOf(f: Fields): (r: Result<TopRequest, Reason>)
    ensures r.Ok? ==> Get(f, "conversationId") == JString(r.value.conversationId) && !IsBlank(r.value.conversationId)
    ensures r.Ok? ==> Get(f, "isTop") == JBool(r.value.isTop)
    ensures r == Err(TopFlagMissing) <==>
      StringField(f, "conversationId").Ok? && !NullOrBlank(StringField(f, "conversationId").value) && Get(f, "isTop").JNull?
  {
    var cid := StringField(f, "conversationId");
    var top := BoolField(f, "isTop");
    if cid.Err? || top.Err? then Err(SetTopFailed(ClassCast))
    else if NullOrBlank(cid.value) then Err(ConversationIdMissing)
    else if top.value.None? then Err(TopFlagMissing)
    else Ok(TopRequest(cid.value.value, top.value.value))
  }

  // ---------------------------------------------------------------------------
  // Frames sent

  /** A frame written to a session: delivered only if the session is open. */
  function Deliver(open: set<nat>, session: nat, kind: FrameKind): seq<Frame>
  {
    if session in open then [Frame(session, kind)] else []
  }

  /** A frame written to a user's registered session, if any. */
  function ToUser(registry: map<int, Session>, open: set<nat>, userId: int, kind: FrameKind): (r: seq<Frame>)
    ensures r != [] <==> userId in registry && registry[userId].id in open
    ensures r != [] ==> r == [Frame(registry[userId].id, kind)]
  {
    if userId in registry then Deliver(open, registry[userId].id, kind) else []
  }

  /** One member row's share of `sendGroupMessage`: nothing for the sender. */
  function Notify(registry: map<int, Session>, open: set<nat>, member: Groups.GroupMember,
                  senderId: int, m: Messages.Message): seq<Frame>
  {
    if member.userId != senderId then ToUser(registry, open, member.userId, NewMessage(m)) else []
  }

  /** `sendGroupMessage`'s loop: a `new_message` to each member row's user
      except the sender, in row order. */
  function GroupFanout(registry: map<int, Session>, open: set<nat>, members: seq<Groups.GroupMember>,
                       senderId: int, m: Messages.Message): seq<Frame>
  {
    if |members| == 0 then []
    else Notify(registry, open, members[0], senderId, m) + GroupFanout(registry, open, members[1..], senderId, m)
  }

  lemma {:induction false} GroupFanoutAppend(registry: map<int, Session>, open: set<nat>, members: seq<Groups.GroupMember>,
                                             member: Groups.GroupMember, senderId: int, m: Messages.Message)
    ensures GroupFanout(registry, open, members + [member], senderId, m) ==
            GroupFanout(registry, open, members, senderId, m) + Notify(registry, open, member, senderId, m)
  {
    var last := Notify(registry, open, member, senderId, m);
    if |members| > 0 {
      var first := Notify(registry, open, members[0], senderId, m);
      assert (members + [member])[0] == members[0];
      assert (members + [member])[1..] == members[1..] + [member];
      GroupFanoutAppend(registry, open, members[1..], member, senderId, m);
      calc {
        GroupFanout(registry, open, members + [member], senderId, m);
        first + GroupFanout(registry, open, members[1..] + [member], senderId, m);
        first + (GroupFanout(registry, open, members[1..], senderId, m) + last);
        (first + GroupFanout(registry, open, members[1..], senderId, m)) + last;
      }
    } else {
      assert members + [member] == [member];
      assert [member][1..] == [];
      assert GroupFanout(registry, open, [member], senderId, m) == last + [];
    }
  }

  /** A group message reaches exactly the members other than the sender whose
      session is registered and open. */
  lemma {:induction false} GroupFanoutRecipients(registry: map<int, Session>, open: set<nat>,
                                                 members: seq<Groups.GroupMember>, senderId: int,
                                                 m: Messages.Message, f: Frame)
    ensures f in GroupFanout(registry, open, members, senderId, m) <==>
      exists k | 0 <= k < |members| ::
        members[k].userId != senderId && members[k].userId in registry &&
        registry[members[k].userId].id in open && f == Frame(registry[members[k].userId].id, NewMessage(m))
  {
    if |members| > 0 {
      GroupFanoutRecipients(registry, open, members[1..], senderId, m, f);
      var rest := members[1..];
      if f in GroupFanout(registry, open, rest, senderId, m) {
        var k :| 0 <= k < |rest| && rest[k].userId != senderId && rest[k].userId in registry &&
                 registry[rest[k].userId].id in open && f == Frame(registry[rest[k].userId].id, NewMessage(m));
        assert members[k + 1] == rest[k];
      }
      if exists k | 0 <= k < |members| ::
           members[k].userId != senderId && members[k].userId in registry &&
           registry[members[k].userId].id in open && f == Frame(registry[members[k].userId].id, NewMessage(m)) {
        var k :| 0 <= k < |members| && members[k].userId != senderId && members[k].userId in registry &&
                 registry[members[k].userId].id in open && f == Frame(registry[members[k].userId].id, NewMessage(m));
        if k > 0 {
          assert rest[k - 1] == members[k];
        }
      }
    }
  }

  /** Sessions belong to one user each. */
  predicate OneUserPerSession(registry: map<int, Session>)
  {
    forall a, b | a in registry && b in registry && registry[a].id == registry[b].id :: a == b
  }

  /** The sender's own session gets no copy of its group message. */
  lemma SenderGetsNoGroupCopy(registry: map<int, Session>, open: set<nat>,
                              members: seq<Groups.GroupMember>, senderId: int, m: Messages.Message)
    requires OneUserPerSession(registry) && senderId in registry
    ensures Frame(registry[senderId].id, NewMessage(m)) !in GroupFanout(registry, open, members, senderId, m)
  {
    GroupFanoutRecipients(registry, open, members, senderId, m, Frame(registry[senderId].id, NewMessage(m)));
  }

  /** Everything `handleSendMessage` writes after a successful save: the
      sender's `message_sent`, then the target's `new_message`, then the group
      fan-out over the group's member rows. */
  function SendFrames(registry: map<int, Session>, open: set<nat>, q: SendRequest, senderId: int,
                      saved: Messages.Message, members: seq<Groups.GroupMember>): seq<Frame>
  {
    ToUser(registry, open, senderId, MessageSent(q.conversationId, q.content, saved.id)) +
    (if q.targetUserId.Some? then ToUser(registry, open, q.targetUserId.value, NewMessage(saved)) else []) +
    (if q.groupId.Some? then GroupFanout(registry, open, Filter(members, Groups.InGroup(q.groupId.value)), senderId, saved) else [])
  }

  /** The three promises of a successful send: the sender is acknowledged,
      the target is told, and group members other than the sender are told. */
  lemma SendFramesReach(registry: map<int, Session>, open: set<nat>, q: SendRequest, senderId: int,
                        saved: Messages.Message, members: seq<Groups.GroupMember>, u: int)
    requires OneUserPerSession(registry)
    requires u in registry && registry[u].id in open
    ensures var frames := SendFrames(registry, open, q, senderId, saved, members);
      (u == senderId ==> Frame(registry[u].id, MessageSent(q.conversationId, q.content, saved.id)) in frames) &&
      (q.targetUserId == Some(u) ==> Frame(registry[u].id, NewMessage(saved)) in frames) &&
      (q.groupId.Some? && u != senderId &&
       (exists k | 0 <= k < |members| :: members[k].groupId == q.groupId.value && members[k].userId == u) ==>
        Frame(registry[u].id, NewMessage(saved)) in frames)
  {
    var frames := SendFrames(registry, open, q, senderId, saved, members);
    if q.groupId.Some? && u != senderId &&
       exists k | 0 <= k < |members| :: members[k].groupId == q.groupId.value && members[k].userId == u {
      var g := q.groupId.value;
      var rows := Filter(members, Groups.InGroup(g));
      var j :| 0 <= j < |members| && members[j].groupId == g && members[j].userId == u;
      var row := members[j];
      assert row in rows;
      var k :| 0 <= k < |rows| && rows[k] == row;
      GroupFanoutRecipients(registry, open, rows, senderId, saved, Frame(registry[u].id, NewMessage(saved)));
    }
  }

  /** `broadcastToAllOnlineUsers`: the frame written to each registered
      session, the users taken in the (unspecified) order `order`. */
  function Broadcast(registry: map<int, Session>, open: set<nat>, order: seq<int>, kind: FrameKind): seq<Frame>
  {
    if |order| == 0 then []
    else ToUser(registry, open, order[0], kind) + Broadcast(registry, open, order[1..], kind)
  }

  lemma {:induction false} BroadcastAppend(registry: map<int, Session>, open: set<nat>, order: seq<int>, u: int, kind: FrameKind)
    ensures Broadcast(registry, open, order + [u], kind) ==
            Broadcast(registry, open, order, kind) + ToUser(registry, open, u, kind)
  {
    var head := ToUser(registry, open, u, kind);
    if |order| > 0 {
      var first := ToUser(registry, open, order[0], kind);
      assert (order + [u])[0] == order[0];
      assert (order + [u])[1..] == order[1..] + [u];
      BroadcastAppend(registry, open, order[1..], u, kind);
      calc {
        Broadcast(registry, open, order + [u], kind);
        first + Broadcast(registry, open, order[1..] + [u], kind);
        first + (Broadcast(registry, open, order[1..], kind) + head);
        (first + Broadcast(registry, open, order[1..], kind)) + head;
      }
    } else {
      assert order + [u] == [u];
      assert [u][1..] == [];
      assert Broadcast(registry, open, [u], kind) == head + [];
    }
  }

  /** A broadcast over all registered users reaches every registered open
      session, and only those. */
  lemma {:induction false} BroadcastRecipients(registry: map<int, Session>, open: set<nat>, order: seq<int>,
                                               kind: FrameKind, f: Frame)
    ensures f in Broadcast(registry, open, order, kind) <==>
      exists k | 0 <= k < |order| ::
        order[k] in registry && registry[order[k]].id in open && f == Frame(registry[order[k]].id, kind)
  {
    if |order| > 0 {
      var rest := order[1..];
      BroadcastRecipients(registry, open, rest, kind, f);
      if f in Broadcast(registry, open, rest, kind) {
        var k :| 0 <= k < |rest| && rest[k] in registry && registry[rest[k]].id in open && f == Frame(registry[rest[k]].id, kind);
        assert order[k + 1] == rest[k];
      }
      if exists k | 0 <= k < |order| :: order[k] in registry && registry[order[k]].id in open && f == Frame(registry[order[k]].id, kind) {
        var k :| 0 <= k < |order| && order[k] in registry && registry[order[k]].id in open && f == Frame(registry[order[k]].id, kind);
        if k > 0 {
          assert rest[k - 1] == order[k];
        }
      }
    }
  }

  /** `order` lists each of `keys` exactly once. */
  predicate Enumerates(order: seq<int>, keys: set<int>)
  {
    (forall u | u in order :: u in keys) && (forall u | u in keys :: u in order) &&
    (forall i, j | 0 <= i < j < |order| :: order[i] != order[j])
  }

  /** The messages a recall by `userId` may hit: its own, with that id. */
  predicate Recallable(rows: seq<Messages.Message>, messageId: int, userId: int)
  {
    exists i | 0 <= i < |rows| :: rows[i].id == messageId && rows[i].senderId == userId
  }

  /** The token loop of `getUserIdFromSession`: `None` when it runs to the
      end, otherwise the value the method returns. */
  method ScanTokens(params: seq<string>, v: Verifier) returns (decided: Option<Option<int>>)
    ensures decided == TokenScan(params, v)
  {
    var i := 0;
    while i < |params|
      invariant 0 <= i <= |params|
      invariant TokenScan(params, v) == TokenScan(params[i..], v)
    {
      assert params[i..][1..] == params[i + 1..];
      var param := params[i];
      if StartsWith(param, "token=") {
        var token := param[6..];
        match Check(v, token)
        case Invalid =>
        case ClaimError(_) =>
          return Some(None);
        case Valid(c) =>
          if c.kind == Some(UserKind) {
            return Some(c.id);
          } else {
            return Some(None);
          }
      }
      i := i + 1;
    }
    return None;
  }

  /** The `userId=` loop of `getUserIdFromSession`. */
  method ScanUserIds(params: seq<string>) returns (userId: Option<int>)
    ensures userId == UserIdScan(params)
  {
    var i := 0;
    while i < |params|
      invariant 0 <= i <= |params|
      invariant UserIdScan(params) == UserIdScan(params[i..])
    {
      assert params[i..][1..] == params[i + 1..];
      var param := params[i];
      if StartsWith(param, "userId=") {
        var n := ParseLong(param[7..]);
        if n.Some? {
          return n;
        }
      }
      i := i + 1;
    }
    return None;
  }

  lemma NoElementsMeansEmpty(s: set<int>)
    requires forall y :: y !in s
    ensures s == {}
  {
    assert forall y :: y in s <==> y in {};
  }

  /** Visiting one more key extends an enumeration of the keys seen so far. */
  lemma EnumeratesAdd(order: seq<int>, done: set<int>, u: int)
    requires Enumerates(order, done) && u !in done
    ensures Enumerates(order + [u], done + {u})
  {
    assert forall v | v in order + [u] :: v in order || v == u;
  }

  /** Some element of a non-empty set: the next key a map iteration visits. */
  method Pick(s: set<int>) returns (x: int)
    requires s != {}
    ensures x in s
  {
    if forall y :: y !in s {
      NoElementsMeansEmpty(s);
      assert false;
    }
    x :| x in s;
  }

  // ---------------------------------------------------------------------------
  // The handler

  class WebSocketHandler {
    /** `userSessions`: each user id's current session. */
    var userSessions: map<int, Session>
    /** The sessions the transport holds open. */
    var open: set<nat>
    /** Every frame delivered so far, in order. */
    var outbox: seq<Frame>
    const conversations: Conversations.ConversationStore
    const messages: Messages.MessageStore
    const groups: Groups.GroupStore

    ghost predicate Valid()
      reads this, messages, groups
    {
      messages.Valid() && groups.Valid()
    }

    constructor (conversations: Conversations.ConversationStore, messages: Messages.MessageStore, groups: Groups.GroupStore)
      requires messages.Valid() && groups.Valid()
      ensures userSessions == map[] && open == {} && outbox == []
      ensures this.conversations == conversations && this.messages == messages && this.groups == groups
      ensures Valid()
    {
      userSessions := map[];
      open := {};
      outbox := [];
      this.conversations := conversations;
      this.messages := messages;
      this.groups := groups;
    }

    /** `isUserOnline(userId)`. */
    predicate IsUserOnline(userId: int)
      reads this
    {
      userId in userSessions && userSessions[userId].id in open
    }

    /** `isUserOnline` holds exactly when a frame sent to the user through
        the registry is delivered. */
    lemma OnlineIffReachable(userId: int, kind: FrameKind)
      ensures IsUserOnline(userId) <==> ToUser(userSessions, open, userId, kind) != []
    {
    }

    /** The users `isUserOnline` holds for. */
    ghost function OnlineUsers(): (users: set<int>)
      reads this
      ensures forall u :: u in users <==> IsUserOnline(u)
    {
      set u | u in userSessions && IsUserOnline(u)
    }

    /** `getOnlineUserCount()`: registered users, whether or not their
        session is still open. It counts every online user, and more exactly
        when some registered session has closed. */
    function GetOnlineUserCount(): (n: nat)
      reads this
      ensures n == |userSessions.Keys|
      ensures n >= |OnlineUsers()|
      ensures n == |OnlineUsers()| <==> forall u | u in userSessions :: IsUserOnline(u)
    {
      var online := OnlineUsers();
      assert online <= userSessions.Keys;
      assert |userSessions.Keys - online| + |online| == |userSessions.Keys|;
      assert |userSessions.Keys - online| == 0 ==> userSessions.Keys - online == {};
      |userSessions|
    }

    /** `getUserIdFromSession(session)`. */
    method GetUserIdFromSession(s: Session, v: Verifier) returns (userId: Option<int>)
      ensures userId == AuthenticatedUser(s.query, v)
    {
      if s.query.None? {
        return None;
      }
      var q := s.query.value;
      if Contains(q, "token=") {
        var decided := ScanTokens(Split(q, '&'), v);
        if decided.Some? {
          return decided.value;
        }
      }
      if Contains(q, "userId=") {
        userId := ScanUserIds(Split(q, '&'));
        return;
      }
      return None;
    }

    /** Writes one frame to a session. */
    method Send(session: nat, kind: FrameKind)
      modifies this`outbox
      ensures outbox == old(outbox) + Deliver(open, session, kind)
      ensures session in open ==> outbox == old(outbox) + [Frame(session, kind)]
      ensures session !in open ==> outbox == old(outbox)
    {
      if session in open {
        outbox := outbox + [Frame(session, kind)];
      }
    }

    /** `sendJsonMessage`, `sendErrorToUser`, `sendMessageSentResponse` and
        `sendNewMessageNotification`: a frame to the user's registered
        session. */
    method SendToUser(userId: int, kind: FrameKind)
      modifies this`outbox
      ensures outbox == old(outbox) + ToUser(userSessions, open, userId, kind)
    {
      if userId in userSessions {
        Send(userSessions[userId].id, kind);
      }
    }

    /** `sendConversationList(userId)`: the user's conversation rows. */
    method SendConversationList(userId: int)
      modifies this`outbox
      ensures outbox == old(outbox) +
        ToUser(userSessions, open, userId, ConversationList(Conversations.UserConversations(conversations.rows, userId)))
    {
      SendToUser(userId, ConversationList(Conversations.UserConversations(conversations.rows, userId)));
    }

    /** `afterConnectionEstablished(session)`: an authenticated session
        replaces any earlier one of its user and is greeted; any other is
        closed and nothing is registered. */
    method AfterConnectionEstablished(s: Session, v: Verifier)
      modifies this`userSessions, this`open, this`outbox
      ensures match AuthenticatedUser(s.query, v)
        case Some(u) =>
          userSessions == old(userSessions)[u := s] && open == old(open) + {s.id} &&
          outbox == old(outbox) + [Frame(s.id, System("连接成功", "success")),
                                   Frame(s.id, ConversationList(Conversations.UserConversations(conversations.rows, u)))] &&
          IsUserOnline(u)
        case None =>
          userSessions == old(userSessions) && open == old(open) - {s.id} && outbox == old(outbox)
    {
      var userId := GetUserIdFromSession(s, v);
      if userId.Some? {
        open := open + {s.id};
        userSessions := userSessions[userId.value := s];
        Send(s.id, System("连接成功", "success"));
        SendConversationList(userId.value);
      } else {
        open := open - {s.id};
      }
    }

    /** `afterConnectionClosed(session)`: the session is gone and the entry
        of its user is removed, whichever session that entry holds. */
    method AfterConnectionClosed(s: Session, v: Verifier)
      modifies this`userSessions, this`open
      ensures open == old(open) - {s.id}
      ensures match AuthenticatedUser(s.query, v)
        case Some(u) => userSessions == old(userSessions) - {u}
        case None => userSessions == old(userSessions)
    {
      open := open - {s.id};
      var userId := GetUserIdFromSession(s, v);
      if userId.Some? {
        userSessions := userSessions - {userId.value};
      }
    }

    /** `handleTransportError(session)`: the same removal; the session itself
        is left as the transport has it. */
    method HandleTransportError(s: Session, v: Verifier)
      modifies this`userSessions
      ensures match AuthenticatedUser(s.query, v)
        case Some(u) => userSessions == old(userSessions) - {u}
        case None => userSessions == old(userSessions)
    {
      var userId := GetUserIdFromSession(s, v);
      if userId.Some? {
        userSessions := userSessions - {userId.value};
      }
    }

    /** `sendGroupMessage(groupId, message, excludeUserId)`. */
    method SendGroupMessage(groupId: int, m: Messages.Message, excludeUserId: int)
      modifies this`outbox
      ensures outbox == old(outbox) + GroupFanout(userSessions, open, Filter(groups.members, Groups.InGroup(groupId)), excludeUserId, m)
    {
      var members := groups.GetGroupMembers(groupId);
      var i := 0;
      while i < |members|
        invariant 0 <= i <= |members|
        invariant outbox == old(outbox) + GroupFanout(userSessions, open, members[..i], excludeUserId, m)
      {
        GroupFanoutAppend(userSessions, open, members[..i], members[i], excludeUserId, m);
        assert members[..i + 1] == members[..i] + [members[i]];
        if members[i].userId != excludeUserId {
          SendToUser(members[i].userId, NewMessage(m));
        }
        i := i + 1;
      }
      assert members[..i] == members;
    }

    /** `broadcastToAllOnlineUsers(message)`: every registered session, in
        the map's iteration order, reported as `order`. */
    method BroadcastToAllOnlineUsers(kind: FrameKind) returns (ghost order: seq<int>)
      modifies this`outbox
      ensures Enumerates(order, userSessions.Keys)
      ensures outbox == old(outbox) + Broadcast(userSessions, open, order, kind)
    {
      ghost var keys := userSessions.Keys;
      ghost var before := outbox;
      var pending := userSessions.Keys;
      order := [];
      assert keys - pending == {};
      while pending != {}
        invariant pending <= keys
        invariant Enumerates(order, keys - pending)
        invariant outbox == before + Broadcast(userSessions, open, order, kind)
        decreases pending
      {
        var u := Pick(pending);
        SendToUser(u, kind);
        BroadcastAppend(userSessions, open, order, u, kind);
        AppendAssoc(before, Broadcast(userSessions, open, order, kind), ToUser(userSessions, open, u, kind));
        EnumeratesAdd(order, keys - pending, u);
        assert keys - (pending - {u}) == (keys - pending) + {u};
        order := order + [u];
        pending := pending - {u};
      }
      assert keys - pending == keys;
    }

    /** The notifications after a successful save (lines after
        `saveMessage` in `handleSendMessage`). */
    method AnnounceSent(q: SendRequest, userId: int, saved: Messages.Message)
      modifies this`outbox
      ensures outbox == old(outbox) + SendFrames(userSessions, open, q, userId, saved, groups.members)
    {
      ghost var toSender := ToUser(userSessions, open, userId, MessageSent(q.conversationId, q.content, saved.id));
      ghost var toTarget := if q.targetUserId.Some? then ToUser(userSessions, open, q.targetUserId.value, NewMessage(saved)) else [];
      ghost var toGroup := if q.groupId.Some? then
        GroupFanout(userSessions, open, Filter(groups.members, Groups.InGroup(q.groupId.value)), userId, saved) else [];
      SendToUser(userId, MessageSent(q.conversationId, q.content, saved.id));
      if q.targetUserId.Some? {
        SendToUser(q.targetUserId.value, NewMessage(saved));
      } else {
        assert outbox == outbox + toTarget;
      }
      AppendAssoc(old(outbox), toSender, toTarget);
      if q.groupId.Some? {
        SendGroupMessage(q.groupId.value, saved, userId);
      } else {
        assert outbox == outbox + toGroup;
      }
      AppendAssoc(old(outbox), toSender + toTarget, toGroup);
    }

    /** What `handleSendMessage(userId, messageData)` leaves behind: a refused
        request stores nothing and tells the caller why; an accepted one is
        saved unread and announced. */
    twostate predicate SendHandled(userId: int, f: Fields, now: int)
      reads this, messages, groups
    {
      match ValidateSend(f)
      case Err(r) =>
        messages.rows == old(messages.rows) && messages.nextId == old(messages.nextId) &&
        outbox == old(outbox) + ToUser(userSessions, open, userId, Error(r))
      case Ok(q) =>
        var saved := Outgoing(q, userId).(id := old(messages.nextId), createdTime := now);
        messages.rows == old(messages.rows) + [saved] && messages.nextId == old(messages.nextId) + 1 &&
        outbox == old(outbox) + SendFrames(userSessions, open, q, userId, saved, groups.members)
    }

    method HandleSendMessage(userId: int, f: Fields, now: int)
      requires Valid()
      modifies this`outbox, messages
      ensures Valid()
      ensures SendHandled(userId, f, now)
    {
      match ValidateSend(f)
      case Err(r) =>
        SendToUser(userId, Error(r));
      case Ok(q) =>
        var saved := messages.SaveMessage(Outgoing(q, userId), now);
        AnnounceSent(q, userId, saved);
    }

    /** What `handleRecallMessage(userId, messageData)` leaves behind: the
        recall UPDATE runs; when it hit the caller's own message the notice
        goes to every registered session (in some order of the registry),
        then the caller is acknowledged; otherwise the caller is refused. */
    twostate predicate RecallHandled(userId: int, f: Fields, now: int)
      reads this, messages
    {
      match RecallRequest(f)
      case Err(r) =>
        messages.rows == old(messages.rows) && outbox == old(outbox) + ToUser(userSessions, open, userId, Error(r))
      case Ok(id) =>
        messages.rows == Messages.Recalled(old(messages.rows), id, userId, now) &&
        if Recallable(old(messages.rows), id, userId) then
          exists order: seq<int> | Enumerates(order, userSessions.Keys) ::
            outbox == old(outbox) + Broadcast(userSessions, open, order, MessageRecalled(id, userId)) +
                      ToUser(userSessions, open, userId, RecallSuccess(id))
        else
          outbox == old(outbox) + ToUser(userSessions, open, userId, Error(RecallDenied))
    }

    method HandleRecallMessage(userId: int, f: Fields, now: int)
      requires Valid()
      modifies this`outbox, messages`rows
      ensures Valid()
      ensures RecallHandled(userId, f, now)
    {
      match RecallRequest(f)
      case Err(r) =>
        SendToUser(userId, Error(r));
      case Ok(id) =>
        var ok := messages.RecallMessage(id, userId, now);
        if ok {
          ghost var order := BroadcastToAllOnlineUsers(MessageRecalled(id, userId));
          SendToUser(userId, RecallSuccess(id));
        } else {
          SendToUser(userId, Error(RecallDenied));
        }
    }

    /** What `handleCreateGroup(userId, messageData)` leaves behind: the group
        with its owner row; no conversation rows are made for it. */
    twostate predicate CreateGroupHandled(userId: int, f: Fields)
      reads this, groups, conversations
    {
      match CreateGroupRequest(f)
      case Err(r) =>
        groups.groups == old(groups.groups) && groups.members == old(groups.members) &&
        groups.nextGroupId == old(groups.nextGroupId) &&
        outbox == old(outbox) + ToUser(userSessions, open, userId, Error(r))
      case Ok(q) =>
        var id := old(groups.nextGroupId);
        groups.groups == old(groups.groups)[id := Groups.NewGroup(q.groupName, q.description, userId).(id := id)] &&
        groups.members == old(groups.members) + [Groups.GroupMember(id, userId, Groups.Owner)] &&
        groups.nextGroupId == id + 1 &&
        outbox == old(outbox) + ToUser(userSessions, open, userId, GroupCreated(id, q.groupName)) +
          ToUser(userSessions, open, userId, ConversationList(Conversations.UserConversations(conversations.rows, userId)))
    }

    method HandleCreateGroup(userId: int, f: Fields)
      requires Valid()
      modifies this`outbox, groups
      ensures Valid()
      ensures CreateGroupHandled(userId, f)
    {
      match CreateGroupRequest(f)
      case Err(r) =>
        SendToUser(userId, Error(r));
      case Ok(q) =>
        var created := groups.CreateGroup(Groups.NewGroup(q.groupName, q.description, userId), userId);
        SendToUser(userId, GroupCreated(created.id, created.groupName));
        SendConversationList(userId);
    }

    /** What `handleJoinGroup(userId, messageData)` leaves behind: a MEMBER
        row, whether or not the group exists, unless the user already has a
        row there. */
    twostate predicate JoinGroupHandled(userId: int, f: Fields)
      reads this, groups, conversations
    {
      match JoinRequest(f)
      case Err(r) =>
        groups.groups == old(groups.groups) && groups.members == old(groups.members) &&
        outbox == old(outbox) + ToUser(userSessions, open, userId, Error(r))
      case Ok(g) =>
        if Groups.IsMember(old(groups.members), g, userId) then
          groups.groups == old(groups.groups) && groups.members == old(groups.members) &&
          outbox == old(outbox) + ToUser(userSessions, open, userId, Error(JoinFailed(GroupFailure(Groups.AlreadyMember))))
        else
          groups.members == old(groups.members) + [Groups.GroupMember(g, userId, Groups.Member)] &&
          groups.groups == Groups.WithCount(old(groups.groups), groups.members, g) &&
          outbox == old(outbox) + ToUser(userSessions, open, userId, GroupJoined(g)) +
            ToUser(userSessions, open, userId, ConversationList(Conversations.UserConversations(conversations.rows, userId)))
    }

    method HandleJoinGroup(userId: int, f: Fields)
      requires Valid()
      modifies this`outbox, groups`groups, groups`members
      ensures Valid()
      ensures JoinGroupHandled(userId, f)
    {
      match JoinRequest(f)
      case Err(r) =>
        SendToUser(userId, Error(r));
      case Ok(g) =>
        var result := groups.AddGroupMember(g, userId, Groups.Member);
        if result.Err? {
          SendToUser(userId, Error(JoinFailed(GroupFailure(result.error))));
        } else {
          SendToUser(userId, GroupJoined(g));
          SendConversationList(userId);
        }
    }

    /** What `handleMarkAsRead(userId, messageData)` leaves behind: the
        caller's unread counter on the conversation row is cleared; the
        message rows are not touched. */
    twostate predicate MarkAsReadHandled(userId: int, f: Fields)
      reads this, conversations
    {
      match MarkRequest(f)
      case Err(r) =>
        conversations.rows == old(conversations.rows) && outbox == old(outbox) + ToUser(userSessions, open, userId, Error(r))
      case Ok(cid) =>
        match FindUnique(old(conversations.rows), Conversations.OwnRow(userId, cid))
        case At(i) =>
          conversations.rows == old(conversations.rows)[i := old(conversations.rows)[i].(unreadCount := 0)] &&
          outbox == old(outbox) +
            ToUser(userSessions, open, userId, ConversationList(Conversations.UserConversations(conversations.rows, userId)))
        case Absent =>
          conversations.rows == old(conversations.rows) &&
          outbox == old(outbox) + ToUser(userSessions, open, userId, Error(MarkReadFailed(ConversationFailure(Conversations.NotFound))))
        case Duplicate =>
          conversations.rows == old(conversations.rows) &&
          outbox == old(outbox) + ToUser(userSessions, open, userId, Error(MarkReadFailed(ConversationFailure(Conversations.NotUnique))))
    }

    method HandleMarkAsRead(userId: int, f: Fields)
      modifies this`outbox, conversations`rows
      ensures MarkAsReadHandled(userId, f)
    {
      match MarkRequest(f)
      case Err(r) =>
        SendToUser(userId, Error(r));
      case Ok(cid) =>
        var result := conversations.MarkAsRead(userId, cid);
        if result.Err? {
          SendToUser(userId, Error(MarkReadFailed(ConversationFailure(result.error))));
        } else {
          SendConversationList(userId);
        }
    }

    /** What `handleSetTop(userId, messageData)` leaves behind: the flag on
        the caller's own row. */
    twostate predicate SetTopHandled(userId: int, f: Fields)
      reads this, conversations
    {
      match TopRequestOf(f)
      case Err(r) =>
        conversations.rows == old(conversations.rows) && outbox == old(outbox) + ToUser(userSessions, open, userId, Error(r))
      case Ok(q) =>
        match FindUnique(old(conversations.rows), Conversations.OwnRow(userId, q.conversationId))
        case At(i) =>
          conversations.rows == old(conversations.rows)[i := old(conversations.rows)[i].(isTop := q.isTop)] &&
          outbox == old(outbox) +
            ToUser(userSessions, open, userId, ConversationList(Conversations.UserConversations(conversations.rows, userId)))
        case Absent =>
          conversations.rows == old(conversations.rows) &&
          outbox == old(outbox) + ToUser(userSessions, open, userId, Error(SetTopFailed(ConversationFailure(Conversations.NotFound))))
        case Duplicate =>
          conversations.rows == old(conversations.rows) &&
          outbox == old(outbox) + ToUser(userSessions, open, userId, Error(SetTopFailed(ConversationFailure(Conversations.NotUnique))))
    }

    method HandleSetTop(userId: int, f: Fields)
      modifies this`outbox, conversations`rows
      ensures SetTopHandled(userId, f)
    {
      match TopRequestOf(f)
      case Err(r) =>
        SendToUser(userId, Error(r));
      case Ok(q) =>
        var result := conversations.SetTop(userId, q.conversationId, q.isTop);
        if result.Err? {
          SendToUser(userId, Error(SetTopFailed(ConversationFailure(result.error))));
        } else {
          SendConversationList(userId);
        }
    }

    /** What the command `c`, sent by `u` with fields `f`, leaves behind:
        each handler's own effect and nothing else changed. */
    twostate predicate CommandHandled(c: Command, u: int, f: Fields, now: int)
      reads this, messages, groups, conversations
    {
      match c
      case GetConversationList =>
        outbox == old(outbox) +
          ToUser(userSessions, open, u, ConversationList(Conversations.UserConversations(conversations.rows, u))) &&
        unchanged(messages, groups) && conversations.rows == old(conversations.rows)
      case MarkAsRead => MarkAsReadHandled(u, f) && unchanged(messages, groups)
      case SetTop => SetTopHandled(u, f) && unchanged(messages, groups)
      case SendMessage => SendHandled(u, f, now) && unchanged(groups) && conversations.rows == old(conversations.rows)
      case RecallMessage =>
        RecallHandled(u, f, now) && messages.nextId == old(messages.nextId) &&
        unchanged(groups) && conversations.rows == old(conversations.rows)
      case CreateGroup => CreateGroupHandled(u, f) && unchanged(messages) && conversations.rows == old(conversations.rows)
      case JoinGroup =>
        JoinGroupHandled(u, f) && groups.nextGroupId == old(groups.nextGroupId) &&
        unchanged(messages) && conversations.rows == old(conversations.rows)
    }

    /** `handleTextMessage(session, message)`. `parsed` is Jackson's reading
        of `payload`. A heartbeat or a refusal writes one frame to the
        session itself and calls no service; a command has its handler's
        effect for the authenticated user. */
    method HandleTextMessage(s: Session, payload: string, parsed: Option<Fields>, v: Verifier, now: int)
      requires Valid()
      modifies this`outbox, messages, groups, conversations`rows
      ensures Valid()
      ensures match RouteOf(payload, parsed, AuthenticatedUser(s.query, v))
        case Heartbeat =>
          outbox == old(outbox) + Deliver(open, s.id, Pong) &&
          unchanged(messages, groups) && conversations.rows == old(conversations.rows)
        case Reject(r) =>
          outbox == old(outbox) + Deliver(open, s.id, Error(r)) &&
          unchanged(messages, groups) && conversations.rows == old(conversations.rows)
        case Dispatch(c, u, f) => CommandHandled(c, u, f, now)
    {
      ghost var route := RouteOf(payload, parsed, AuthenticatedUser(s.query, v));
      if payload == "ping" || payload == "heartbeat" {
        Send(s.id, Pong);
        return;
      }
      if parsed.None? {
        Send(s.id, Error(MalformedFrame));
        return;
      }
      var f := parsed.value;
      var typeField := StringField(f, "type");
      if typeField.Err? {
        assert route == Reject(MalformedFrame);
        Send(s.id, Error(MalformedFrame));
        return;
      }
      var userId := GetUserIdFromSession(s, v);
      if userId.None? {
        assert route == Reject(NotAuthenticated);
        Send(s.id, Error(NotAuthenticated));
        return;
      }
      if typeField.value.None? {
        assert route == Reject(TypeMissing);
        Send(s.id, Error(TypeMissing));
        return;
      }
      match CommandOf(typeField.value.value)
      case None =>
        assert route == Reject(UnknownType(typeField.value.value));
        Send(s.id, Error(UnknownType(typeField.value.value)));
      case Some(c) =>
        assert route == Dispatch(c, userId.value, f);
        RunCommand(c, userId.value, f, now);
    }

    /** The `switch (type)` of `handleTextMessage` once the caller is known
        and the type names a command. */
    method RunCommand(c: Command, u: int, f: Fields, now: int)
      requires Valid()
      modifies this`outbox, messages, groups, conversations`rows
      ensures Valid()
      ensures CommandHandled(c, u, f, now)
    {
      match c
      case GetConversationList =>
        SendConversationList(u);
      case MarkAsRead =>
        HandleMarkAsRead(u, f);
      case SetTop =>
        HandleSetTop(u, f);
      case SendMessage =>
        HandleSendMessage(u, f, now);
      case RecallMessage =>
        HandleRecallMessage(u, f, now);
      case CreateGroup =>
        HandleCreateGroup(u, f);
      case JoinGroup =>
        HandleJoinGroup(u, f);
    }
  }

  /** A close that arrives for an older session of a user evicts the newer
      session registered since: the user no longer counts as online although
      the newer session is still open. */
  method StaleCloseEvicts(h: WebSocketHandler, older: Session, newer: Session, v: Verifier, u: int)
    requires AuthenticatedUser(older.query, v) == Some(u) && AuthenticatedUser(newer.query, v) == Some(u)
    requires older.id != newer.id
    modifies h
    ensures newer.id in h.open && !h.IsUserOnline(u)
  {
    h.AfterConnectionEstablished(newer, v);
    h.AfterConnectionClosed(older, v);
  }
}
