/** Friend requests, contacts and contact groups (`ContactService` over its
    repositories). A request moves from pending (0) to accepted (1) or
    rejected (2) once; accepting creates a contact row in each direction and
    the pair's private conversation. Contacts are never removed: status 1 is
    normal, 2 blocked, 3 deleted. */
module Contacts {
  import opened Wrappers
  import opened JavaText
  import opened Tables
  import Conversations

  /** The columns of `users` the contact operations read. */
  datatype UserRecord = UserRecord(id: int, username: string, nickname: Option<string>)

  /** A row of `contacts`; the friend's display fields are `@Transient` and
      filled on read, which is left out. */
  datatype Contact = Contact(
    id: int,
    userId: int,
    friendId: int,
    remarkName: Option<string>,
    contactGroup: Option<string>,
    status: int)

  /** A row of `friend_requests`. */
  datatype FriendRequest = FriendRequest(id: int, fromUserId: int, toUserId: int, message: Option<string>, status: int)

  /** A row of `contact_groups`. */
  datatype ContactGroup = ContactGroup(id: int, userId: int, groupName: string, sortOrder: Option<int>)

  const Pending: int := 0
  const Accepted: int := 1
  const Rejected: int := 2

  const Normal: int := 1
  const Blocked: int := 2
  const Deleted: int := 3

  /** `Contact.contactGroup`'s default. */
  const DefaultGroup: string := "默认"

  /** The service's exceptions, each a `RuntimeException` with its own text
      except `NotUnique` (a query that expected one row found several) and
      the two null-argument failures. */
  datatype ContactError =
    | UserNotFound        // 用户不存在
    | SelfRequest         // 不能添加自己为好友
    | AlreadyFriends      // 该用户已经是您的好友
    | RequestPending      // 已发送过好友申请，请等待对方处理
    | RequestIdMissing    // findById(null) throws
    | RequestNotFound     // 好友申请不存在
    | NotAddressee        // 无权处理此好友申请
    | AlreadyHandled      // 该好友申请已处理
    | DecisionMissing     // unboxing a null `accepted`
    | ContactIdMissing    // 联系人ID不能为空 in updateContact; elsewhere findById(null) throws
    | ContactNotFound     // 联系人不存在
    | NotOwner            // 无权修改/删除/操作此联系人, 无权向此联系人发送消息
    | ContactInactive     // 该联系人状态异常，无法发送消息
    | GroupNameTaken      // 分组名称已存在
    | GroupNotFound       // 分组不存在
    | GroupNotOwned       // 无权删除此分组
    | GroupNotEmpty       // 分组中还有联系人，无法删除
    | NotUnique

  function ContactKey(c: Contact): int { c.id }
  function RequestKey(q: FriendRequest): int { q.id }
  function GroupKey(g: ContactGroup): int { g.id }

  /** `findByUsername(username)`. */
  function Named(username: string): UserRecord -> bool
  {
    (u: UserRecord) => u.username == username
  }

  /** `findByUserIdAndFriendIdAndStatus(userId, friendId, 1)`. */
  function ActiveContact(userId: int, friendId: int): Contact -> bool
  {
    (c: Contact) => c.userId == userId && c.friendId == friendId && c.status == Normal
  }

  /** `findByFromUserIdAndToUserIdAndStatus(from, to, 0)`. */
  function PendingRequest(fromUserId: int, toUserId: int): FriendRequest -> bool
  {
    (q: FriendRequest) => q.fromUserId == fromUserId && q.toUserId == toUserId && q.status == Pending
  }

  /** `findByToUserIdAndStatus(userId, 0)` / `countByToUserIdAndStatus`. */
  function PendingFor(userId: int): FriendRequest -> bool
  {
    (q: FriendRequest) => q.toUserId == userId && q.status == Pending
  }

  /** `findByUserIdAndGroupName(userId, groupName)`. */
  function GroupNamed(userId: int, groupName: string): ContactGroup -> bool
  {
    (g: ContactGroup) => g.userId == userId && g.groupName == groupName
  }

  /** `findByUserIdAndContactGroupAndStatus(userId, groupName, 1)`. */
  function ActiveInGroup(userId: int, groupName: string): Contact -> bool
  {
    (c: Contact) => c.userId == userId && c.contactGroup == Some(groupName) && c.status == Normal
  }

  // ---------------------------------------------------------------------------
  // The guard sequences, as functions of the tables

  /** The checks of `sendFriendRequest` in source order; `Ok` carries the
      addressee's id. */
  function FriendRequestCheck(users: seq<UserRecord>, contacts: seq<Contact>, requests: seq<FriendRequest>,
                              fromUserId: int, username: Option<string>): (r: Result<int, ContactError>)
    ensures r.Ok? ==> username.Some? && (exists u | 0 <= u < |users| :: users[u].username == username.value && users[u].id == r.value)
    ensures r.Ok? ==> r.value != fromUserId
    ensures r.Ok? ==> forall k | 0 <= k < |contacts| :: !ActiveContact(fromUserId, r.value)(contacts[k])
    ensures r.Ok? ==> forall k | 0 <= k < |requests| :: !PendingRequest(fromUserId, r.value)(requests[k])
    ensures username.None? || (forall u | 0 <= u < |users| :: users[u].username != username.value) ==> r == Err(UserNotFound)
  {
    if username.None? then Err(UserNotFound)
    else match FindUnique(users, Named(username.value))
      case Absent => Err(UserNotFound)
      case Duplicate => Err(NotUnique)
      case At(u) =>
        var toUserId := users[u].id;
        if fromUserId == toUserId then Err(SelfRequest)
        else match FindUnique(contacts, ActiveContact(fromUserId, toUserId))
          case At(_) => Err(AlreadyFriends)
          case Duplicate => Err(NotUnique)
          case Absent =>
            match FindUnique(requests, PendingRequest(fromUserId, toUserId))
            case At(_) => Err(RequestPending)
            case Duplicate => Err(NotUnique)
            case Absent => Ok(toUserId)
  }

  /** The checks of `handleFriendRequest` in source order; `Ok` carries the
      request's index. Only the addressee may decide, and only once. */
  function HandleCheck(requests: seq<FriendRequest>, userId: int, requestId: Option<int>, accepted: Option<bool>): (r: Result<nat, ContactError>)
    ensures requestId.None? ==> r == Err(RequestIdMissing)
    ensures r.Ok? ==> r.value < |requests| && requests[r.value].id == requestId.value &&
                      requests[r.value].toUserId == userId && requests[r.value].status == Pending && accepted.Some?
    ensures KeysDistinct(requests, RequestKey) && requestId.Some? ==>
      forall i | 0 <= i < |requests| && requests[i].id == requestId.value ::
        (requests[i].toUserId != userId ==> r == Err(NotAddressee)) &&
        (requests[i].toUserId == userId && requests[i].status != Pending ==> r == Err(AlreadyHandled))
  {
    if requestId.None? then Err(RequestIdMissing)
    else match FindUnique(requests, HasKey(RequestKey, requestId.value))
      case Absent => Err(RequestNotFound)
      case Duplicate => Err(NotUnique)
      case At(i) =>
        if requests[i].toUserId != userId then Err(NotAddressee)
        else if requests[i].status != Pending then Err(AlreadyHandled)
        else if accepted.None? then Err(DecisionMissing)
        else Ok(i)
  }

  /** Looking a contact up by id for its owner: the shared prefix of
      `updateContact`, `deleteContact`, `blockContact`, `sendMessageToContact`
      and `moveContactToGroup`. */
  function OwnedContact(contacts: seq<Contact>, userId: int, contactId: Option<int>): (r: Result<nat, ContactError>)
    ensures contactId.None? ==> r == Err(ContactIdMissing)
    ensures r.Ok? ==> r.value < |contacts| && contacts[r.value].id == contactId.value && contacts[r.value].userId == userId
    ensures KeysDistinct(contacts, ContactKey) && contactId.Some? ==>
      (r.Ok? <==> exists i | 0 <= i < |contacts| :: contacts[i].id == contactId.value && contacts[i].userId == userId)
  {
    if contactId.None? then Err(ContactIdMissing)
    else match FindUnique(contacts, HasKey(ContactKey, contactId.value))
      case Absent =>
        assert forall i | 0 <= i < |contacts| :: ContactKey(contacts[i]) != contactId.value;
        Err(ContactNotFound)
      case Duplicate => Err(NotUnique)
      case At(i) =>
        assert ContactKey(contacts[i]) == contactId.value;
        if contacts[i].userId != userId then Err(NotOwner) else Ok(i)
  }

  /** The two rows `createMutualContact` saves. */
  function MutualContacts(fromUserId: int, toUserId: int, firstId: int): seq<Contact>
  {
    [Contact(firstId, fromUserId, toUserId, None, Some(DefaultGroup), Normal),
     Contact(firstId + 1, toUserId, fromUserId, None, Some(DefaultGroup), Normal)]
  }

  /** Appending the two mirror rows keeps contact ids unique and below the
      id counter once it has moved past them. */
  lemma MutualKeepsIds(contacts: seq<Contact>, next: int, a: int, b: int)
    requires KeysDistinct(contacts, ContactKey) && forall k | 0 <= k < |contacts| :: contacts[k].id < next
    ensures var after := contacts + MutualContacts(a, b, next);
      KeysDistinct(after, ContactKey) && forall k | 0 <= k < |after| :: after[k].id < next + 2
  {
  }

  /** Changing a request's status in place keeps request ids unique. */
  lemma RestatusKeepsIds(requests: seq<FriendRequest>, i: int, q: FriendRequest, next: int)
    requires KeysDistinct(requests, RequestKey) && forall k | 0 <= k < |requests| :: requests[k].id < next
    requires 0 <= i < |requests| && q.id == requests[i].id
    ensures var after := requests[i := q];
      KeysDistinct(after, RequestKey) && forall k | 0 <= k < |after| :: after[k].id < next
  {
  }

  /** `updateContact`: each non-null field of the request overwrites the
      contact's. */
  function Patched(c: Contact, remarkName: Option<string>, contactGroup: Option<string>, status: Option<int>): (r: Contact)
    ensures r.id == c.id && r.userId == c.userId && r.friendId == c.friendId
    ensures remarkName.Some? ==> r.remarkName == remarkName
    ensures contactGroup.Some? ==> r.contactGroup == contactGroup
    ensures status.Some? ==> r.status == status.value
    ensures remarkName.None? && contactGroup.None? && status.None? ==> r == c
  {
    c.(remarkName := if remarkName.Some? then remarkName else c.remarkName,
       contactGroup := if contactGroup.Some? then contactGroup else c.contactGroup,
       status := if status.Some? then status.value else c.status)
  }

  /** No user owns two contact groups of the same name. */
  ghost predicate GroupNamesUnique(groups: seq<ContactGroup>)
  {
    forall i, j | 0 <= i < j < |groups| :: !(groups[i].userId == groups[j].userId && groups[i].groupName == groups[j].groupName)
  }

  /** `searchUsers(userId, keyword)`: `username LIKE %keyword% OR nickname
      LIKE %keyword%`, the caller removed. */
  function SearchUsers(users: seq<UserRecord>, userId: int, keyword: string): (r: seq<UserRecord>)
    ensures forall u | u in r :: u in users && u.id != userId
    ensures forall u | u in users && u.id != userId &&
      (Contains(u.username, keyword) || (u.nickname.Some? && Contains(u.nickname.value, keyword))) :: u in r
    ensures forall u | u in r :: Contains(u.username, keyword) || (u.nickname.Some? && Contains(u.nickname.value, keyword))
  {
    var found := Filter(users, (u: UserRecord) => Contains(u.username, keyword) || (u.nickname.Some? && Contains(u.nickname.value, keyword)));
    Filter(found, (u: UserRecord) => u.id != userId)
  }

  // ---------------------------------------------------------------------------
  // The service over mutable tables

  class ContactService {
    var users: seq<UserRecord>
    var contacts: seq<Contact>
    var requests: seq<FriendRequest>
    var groups: seq<ContactGroup>
    var nextContactId: int
    var nextRequestId: int
    var nextGroupId: int
    /** The conversation service that accepting a request calls. */
    const conversations: Conversations.ConversationStore

    /** Primary keys are distinct and below the next identity value. */
    ghost predicate Valid()
      reads this
    {
      KeysDistinct(contacts, ContactKey) && (forall k | 0 <= k < |contacts| :: contacts[k].id < nextContactId) &&
      KeysDistinct(requests, RequestKey) && (forall k | 0 <= k < |requests| :: requests[k].id < nextRequestId) &&
      KeysDistinct(groups, GroupKey) && (forall k | 0 <= k < |groups| :: groups[k].id < nextGroupId)
    }

    constructor (users: seq<UserRecord>, conversations: Conversations.ConversationStore)
      ensures Valid()
      ensures this.users == users && this.conversations == conversations
      ensures contacts == [] && requests == [] && groups == []
    {
      this.users := users;
      this.conversations := conversations;
      contacts, requests, groups := [], [], [];
      nextContactId, nextRequestId, nextGroupId := 1, 1, 1;
    }

    /** `getUserContacts(userId)`: the caller's normal contacts only. */
    function GetUserContacts(userId: int): (r: seq<Contact>)
      reads this
      ensures forall c | c in r :: c in contacts && c.userId == userId && c.status == Normal
      ensures forall c | c in contacts && c.userId == userId && c.status == Normal :: c in r
    {
      Filter(contacts, (c: Contact) => c.userId == userId && c.status == Normal)
    }

    /** `getPendingFriendRequestCount(userId)`. */
    function GetPendingFriendRequestCount(userId: int): (n: nat)
      reads this
      ensures n <= |requests|
      ensures n == 0 <==> forall k | 0 <= k < |requests| :: !(requests[k].toUserId == userId && requests[k].status == Pending)
    {
      Count(requests, PendingFor(userId))
    }

    /** `sendFriendRequest(fromUserId, {username, message})`. */
    method SendFriendRequest(fromUserId: int, username: Option<string>, message: Option<string>) returns (r: Result<FriendRequest, ContactError>)
      requires Valid()
      modifies this`requests, this`nextRequestId
      ensures Valid()
      ensures match FriendRequestCheck(users, contacts, old(requests), fromUserId, username)
        case Ok(toUserId) =>
          r == Ok(FriendRequest(old(nextRequestId), fromUserId, toUserId, message, Pending)) &&
          requests == old(requests) + [r.value] && nextRequestId == old(nextRequestId) + 1
        case Err(e) => r == Err(e) && requests == old(requests) && nextRequestId == old(nextRequestId)
    {
      match FriendRequestCheck(users, contacts, requests, fromUserId, username)
      case Ok(toUserId) =>
        var q := FriendRequest(nextRequestId, fromUserId, toUserId, message, Pending);
        requests := requests + [q];
        nextRequestId := nextRequestId + 1;
        r := Ok(q);
      case Err(e) =>
        r := Err(e);
    }
  
    /** `handleFriendRequest(userId, {requestId, accepted})`: the addressee
        accepts (status 1, two mirror contacts, the private conversation) or
        rejects (status 2, nothing else). */
    method HandleFriendRequest(userId: int, requestId: Option<int>, accepted: Option<bool>, now: int) returns (r: Result<Unit, ContactError>)
      requires Valid()
      modifies this`requests, this`contacts, this`nextContactId, conversations
      ensures Valid()
      ensures match HandleCheck(old(requests), userId, requestId, accepted)
        case Err(e) =>
          r == Err(e) && requests == old(requests) && contacts == old(contacts) &&
          nextContactId == old(nextContactId) && conversations.rows == old(conversations.rows)
        case Ok(i) =>
          var q := old(requests)[i];
          r.Ok? &&
          if accepted.value then
            requests == old(requests)[i := q.(status := Accepted)] &&
            contacts == old(contacts) + MutualContacts(q.fromUserId, q.toUserId, old(nextContactId)) &&
            nextContactId == old(nextContactId) + 2 &&
            conversations.rows == Conversations.WithPrivate(old(conversations.rows), q.fromUserId, q.toUserId, now, old(conversations.nextId))
          else
            requests == old(requests)[i := q.(status := Rejected)] && contacts == old(contacts) &&
            nextContactId == old(nextContactId) && conversations.rows == old(conversations.rows)
    {
      match HandleCheck(requests, userId, requestId, accepted)
      case Err(e) =>
        r := Err(e);
      case Ok(i) =>
        ApplyDecision(i, accepted.value, now);
        r := Ok(Unit);
    }

    /** The branch of `handleFriendRequest` after the checks: request `i`
        is accepted or rejected. */
    method ApplyDecision(i: nat, accept: bool, now: int)
      requires Valid() && i < |requests|
      modifies this`requests, this`contacts, this`nextContactId, conversations
      ensures Valid()
      ensures var q := old(requests)[i];
        if accept then
          requests == old(requests)[i := q.(status := Accepted)] &&
          contacts == old(contacts) + MutualContacts(q.fromUserId, q.toUserId, old(nextContactId)) &&
          nextContactId == old(nextContactId) + 2 &&
          conversations.rows == Conversations.WithPrivate(old(conversations.rows), q.fromUserId, q.toUserId, now, old(conversations.nextId))
        else
          requests == old(requests)[i := q.(status := Rejected)] && contacts == old(contacts) &&
          nextContactId == old(nextContactId) && conversations.rows == old(conversations.rows)
    {
      var q := requests[i];
      if accept {
        q := q.(status := Accepted);
        MutualKeepsIds(contacts, nextContactId, q.fromUserId, q.toUserId);
        contacts := contacts + MutualContacts(q.fromUserId, q.toUserId, nextContactId);
        nextContactId := nextContactId + 2;
        var _ := conversations.GetOrCreatePrivateConversation(q.fromUserId, q.toUserId, now);
      } else {
        q := q.(status := Rejected);
      }
      RestatusKeepsIds(requests, i, q, nextRequestId);
      requests := requests[i := q];
    }

    /** `updateContact(userId, {id, remarkName, contactGroup, status})`. */
    method UpdateContact(userId: int, contactId: Option<int>, remarkName: Option<string>,
                         contactGroup: Option<string>, status: Option<int>) returns (r: Result<Contact, ContactError>)
      requires Valid()
      modifies this`contacts
      ensures Valid()
      ensures match OwnedContact(old(contacts), userId, contactId)
        case Err(e) => r == Err(e) && contacts == old(contacts)
        case Ok(i) =>
          r == Ok(Patched(old(contacts)[i], remarkName, contactGroup, status)) &&
          contacts == old(contacts)[i := r.value]
    {
      match OwnedContact(contacts, userId, contactId)
      case Err(e) =>
        r := Err(e);
      case Ok(i) =>
        var c := Patched(contacts[i], remarkName, contactGroup, status);
        contacts := contacts[i := c];
        r := Ok(c);
    }

    /** `deleteContact(userId, contactId)`: a soft delete, status 3. */
    method DeleteContact(userId: int, contactId: int) returns (r: Result<Unit, ContactError>)
      requires Valid()
      modifies this`contacts
      ensures Valid()
      ensures match OwnedContact(old(contacts), userId, Some(contactId))
        case Err(e) => r == Err(e) && contacts == old(contacts)
        case Ok(i) => r.Ok? && contacts == old(contacts)[i := old(contacts)[i].(status := Deleted)]
    {
      match OwnedContact(contacts, userId, Some(contactId))
      case Err(e) =>
        r := Err(e);
      case Ok(i) =>
        contacts := contacts[i := contacts[i].(status := Deleted)];
        r := Ok(Unit);
    }

    /** `blockContact(userId, contactId)`: status 2, the row stays. */
    method BlockContact(userId: int, contactId: int) returns (r: Result<Contact, ContactError>)
      requires Valid()
      modifies this`contacts
      ensures Valid()
      ensures match OwnedContact(old(contacts), userId, Some(contactId))
        case Err(e) => r == Err(e) && contacts == old(contacts)
        case Ok(i) => r == Ok(old(contacts)[i].(status := Blocked)) && contacts == old(contacts)[i := r.value]
    {
      match OwnedContact(contacts, userId, Some(contactId))
      case Err(e) =>
        r := Err(e);
      case Ok(i) =>
        var c := contacts[i].(status := Blocked);
        contacts := contacts[i := c];
        r := Ok(c);
    }

    /** `moveContactToGroup(userId, {contactId, targetGroup})`: the group name
        is copied as given; no group row is consulted. */
    method MoveContactToGroup(userId: int, contactId: Option<int>, targetGroup: Option<string>) returns (r: Result<Contact, ContactError>)
      requires Valid()
      modifies this`contacts
      ensures Valid()
      ensures match OwnedContact(old(contacts), userId, contactId)
        case Err(e) => r == Err(e) && contacts == old(contacts)
        case Ok(i) => r == Ok(old(contacts)[i].(contactGroup := targetGroup)) && contacts == old(contacts)[i := r.value]
    {
      match OwnedContact(contacts, userId, contactId)
      case Err(e) =>
        r := Err(e);
      case Ok(i) =>
        var c := contacts[i].(contactGroup := targetGroup);
        contacts := contacts[i := c];
        r := Ok(c);
    }

    /** `sendMessageToContact(userId, contactId, content, messageType)`: only
        to one's own contact in normal status; it ensures the private
        conversation exists (the message itself is not stored by the source). */
    method SendMessageToContact(userId: int, contactId: int, now: int) returns (r: Result<string, ContactError>)
      requires Valid()
      modifies conversations
      ensures match OwnedContact(contacts, userId, Some(contactId))
        case Err(e) => r == Err(e) && conversations.rows == old(conversations.rows)
        case Ok(i) =>
          if contacts[i].status != Normal then r == Err(ContactInactive) && conversations.rows == old(conversations.rows)
          else
            r == Ok(Conversations.PrivateConversationId(userId, contacts[i].friendId)) &&
            conversations.rows == Conversations.WithPrivate(old(conversations.rows), userId, contacts[i].friendId, now, old(conversations.nextId))
    {
      match OwnedContact(contacts, userId, Some(contactId))
      case Err(e) =>
        r := Err(e);
      case Ok(i) =>
        if contacts[i].status != Normal {
          return Err(ContactInactive);
        }
        var cid := conversations.GetOrCreatePrivateConversation(userId, contacts[i].friendId, now);
        r := Ok(cid);
    }

    /** `createContactGroup(userId, {groupName, sortOrder})`: one name per
        user. A null sort order replaces the default 0. */
    method CreateContactGroup(userId: int, groupName: string, sortOrder: Option<int>) returns (r: Result<ContactGroup, ContactError>)
      requires Valid()
      modifies this`groups, this`nextGroupId
      ensures Valid()
      ensures match FindUnique(old(groups), GroupNamed(userId, groupName))
        case Absent =>
          r == Ok(ContactGroup(old(nextGroupId), userId, groupName, sortOrder)) &&
          groups == old(groups) + [r.value] && nextGroupId == old(nextGroupId) + 1
        case At(_) => r == Err(GroupNameTaken) && groups == old(groups) && nextGroupId == old(nextGroupId)
        case Duplicate => r == Err(NotUnique) && groups == old(groups) && nextGroupId == old(nextGroupId)
      ensures GroupNamesUnique(old(groups)) ==> GroupNamesUnique(groups)
    {
      match FindUnique(groups, GroupNamed(userId, groupName))
      case Absent =>
        var g := ContactGroup(nextGroupId, userId, groupName, sortOrder);
        groups := groups + [g];
        nextGroupId := nextGroupId + 1;
        r := Ok(g);
      case At(_) =>
        r := Err(GroupNameTaken);
      case Duplicate =>
        r := Err(NotUnique);
    }

    /** `deleteContactGroup(userId, groupId)`: the owner may delete a group
        that holds no normal contact. */
    method DeleteContactGroup(userId: int, groupId: int) returns (r: Result<Unit, ContactError>)
      requires Valid()
      modifies this`groups
      ensures Valid()
      ensures match FindUnique(old(groups), HasKey(GroupKey, groupId))
        case Absent => r == Err(GroupNotFound) && groups == old(groups)
        case Duplicate => r == Err(NotUnique) && groups == old(groups)
        case At(i) =>
          if old(groups)[i].userId != userId then r == Err(GroupNotOwned) && groups == old(groups)
          else if Count(contacts, ActiveInGroup(userId, old(groups)[i].groupName)) > 0 then
            r == Err(GroupNotEmpty) && groups == old(groups)
          else r.Ok? && groups == RemoveAt(old(groups), i)
    {
      match FindUnique(groups, HasKey(GroupKey, groupId))
      case Absent =>
        r := Err(GroupNotFound);
      case Duplicate =>
        r := Err(NotUnique);
      case At(i) =>
        if groups[i].userId != userId {
          return Err(GroupNotOwned);
        }
        if Count(contacts, ActiveInGroup(userId, groups[i].groupName)) > 0 {
          return Err(GroupNotEmpty);
        }
        groups := RemoveAt(groups, i);
        r := Ok(Unit);
    }
  }

  // ---------------------------------------------------------------------------
  // Properties

  /** Once a request between two users is accepted, neither can send the other
      a new request: the mirror contacts stand in the way in both directions. */
  lemma FriendsCannotRequestAgain(users: seq<UserRecord>, contacts: seq<Contact>, requests: seq<FriendRequest>,
                                  a: int, b: int, firstId: int, username: Option<string>)
    ensures FriendRequestCheck(users, contacts + MutualContacts(a, b, firstId), requests, a, username) != Ok(b)
    ensures FriendRequestCheck(users, contacts + MutualContacts(a, b, firstId), requests, b, username) != Ok(a)
  {
    var cs := contacts + MutualContacts(a, b, firstId);
    assert ActiveContact(a, b)(cs[|contacts|]);
    assert ActiveContact(b, a)(cs[|contacts| + 1]);
  }

  /** A request is decided once: after it is accepted or rejected, handling it
      again, with either decision, fails with "already handled". */
  lemma DecidedOnce(requests: seq<FriendRequest>, userId: int, requestId: Option<int>, accepted: Option<bool>,
                    status: int, again: Option<bool>)
    requires KeysDistinct(requests, RequestKey)
    requires HandleCheck(requests, userId, requestId, accepted).Ok?
    requires status == Accepted || status == Rejected
    ensures var i := HandleCheck(requests, userId, requestId, accepted).value;
      HandleCheck(requests[i := requests[i].(status := status)], userId, requestId, again) == Err(AlreadyHandled)
  {
    var i := HandleCheck(requests, userId, requestId, accepted).value;
    var after := requests[i := requests[i].(status := status)];
    assert forall k | 0 <= k < |after| :: after[k].id == requests[k].id;
    assert KeysDistinct(after, RequestKey);
  }

  /** Deciding a pending request takes exactly one off the addressee's
      pending count. */
  lemma DecisionLowersPending(requests: seq<FriendRequest>, userId: int, requestId: Option<int>, accepted: Option<bool>, status: int)
    requires HandleCheck(requests, userId, requestId, accepted).Ok?
    requires status == Accepted || status == Rejected
    ensures var i := HandleCheck(requests, userId, requestId, accepted).value;
      Count(requests[i := requests[i].(status := status)], PendingFor(userId)) == Count(requests, PendingFor(userId)) - 1
  {
    var i := HandleCheck(requests, userId, requestId, accepted).value;
    CountUpdate(requests, i, requests[i].(status := status), PendingFor(userId));
  }

  /** Accepting creates one normal contact in each direction, in the default
      group. */
  lemma MutualContactsMirror(a: int, b: int, firstId: int)
    ensures var m := MutualContacts(a, b, firstId);
      |m| == 2 && ActiveContact(a, b)(m[0]) && ActiveContact(b, a)(m[1]) &&
      m[0].contactGroup == Some(DefaultGroup) == m[1].contactGroup
  {
  }

  /** A soft-deleted or blocked contact keeps its row but drops out of its
      owner's contact list. */
  lemma StatusChangeHidesContact(contacts: seq<Contact>, i: int, status: int, userId: int)
    requires 0 <= i < |contacts|
    requires status == Blocked || status == Deleted
    ensures var after := contacts[i := contacts[i].(status := status)];
      |after| == |contacts| && after[i].id == contacts[i].id &&
      after[i] !in Filter(after, (c: Contact) => c.userId == userId && c.status == Normal)
  {
  }
}
