/** Group membership (`ChatGroupService` over `ChatGroupRepository` and
    `GroupMemberRepository`): groups keyed by id, a table of (group, user,
    role) rows, and each group's cached member count. */
module Groups {
  import opened Wrappers
  import opened Tables

  /** `GroupMember.GroupRole`. */
  datatype GroupRole = Owner | Admin | Member

  /** A row of `group_members`; its own id and join time are not read by any
      core operation and are left out. */
  datatype GroupMember = GroupMember(groupId: int, userId: int, role: GroupRole)

  /** A row of `chat_groups`. */
  datatype ChatGroup = ChatGroup(
    id: int,
    groupName: string,
    avatar: Option<string>,
    creatorId: int,
    maxMembers: int,
    memberCount: int,
    description: Option<string>)

  datatype GroupError = AlreadyMember | NoPermission | NotCreator | NotUnique

  function ErrorText(e: GroupError): string
  {
    match e
    case AlreadyMember => "用户已是群成员"
    case NoPermission => "没有权限移除该成员"
    case NotCreator => "只有群主可以解散群组"
    case NotUnique => "query did not return a unique result"
  }

  const DefaultMaxMembers: int := 500

  /** `new ChatGroup()` with the name, description and creator the handler
      sets; the entity's defaults give 500 seats and a member count of 1. */
  function NewGroup(groupName: string, description: Option<string>, creatorId: int): (g: ChatGroup)
    ensures g.memberCount == 1 && g.maxMembers == DefaultMaxMembers && g.avatar.None?
    ensures g.groupName == groupName && g.description == description && g.creatorId == creatorId
  {
    ChatGroup(0, groupName, None, creatorId, DefaultMaxMembers, 1, description)
  }

  /** `findByGroupIdAndUserId` / `existsByGroupIdAndUserId` / `removeMember`. */
  function MemberRow(groupId: int, userId: int): GroupMember -> bool
  {
    (m: GroupMember) => m.groupId == groupId && m.userId == userId
  }

  /** `findByGroupId` / `countMembersByGroupId` / `deleteByGroupId`. */
  function InGroup(groupId: int): GroupMember -> bool
  {
    (m: GroupMember) => m.groupId == groupId
  }

  /** The `canRemove` rule and the self-removal guard of `removeGroupMember`
      (`target` is the row found for the user being removed). An owner may
      remove anyone, themself included; an admin may remove a plain member
      other than themself; nobody else may remove anyone. */
  function RemovalPermitted(operator: GroupMember, target: GroupMember): (ok: bool)
    ensures ok <==> operator.role == Owner ||
                    (operator.role == Admin && target.role == Member && operator.userId != target.userId)
    ensures operator.userId == target.userId ==> (ok <==> operator.role == Owner)
  {
    var canRemove := operator.role == Owner || (operator.role == Admin && target.role == Member);
    canRemove && (operator.userId != target.userId || operator.role == Owner)
  }

  /** `updateMemberCount(groupId)`: the group, if any, takes the number of its
      membership rows. */
  function WithCount(groups: map<int, ChatGroup>, members: seq<GroupMember>, groupId: int): (r: map<int, ChatGroup>)
    ensures r.Keys == groups.Keys
    ensures groupId in groups ==> r[groupId] == groups[groupId].(memberCount := Count(members, InGroup(groupId)))
    ensures forall g | g in groups && g != groupId :: r[g] == groups[g]
  {
    if groupId in groups then groups[groupId := groups[groupId].(memberCount := Count(members, InGroup(groupId)))]
    else groups
  }

  /** Every group's cached count equals its number of membership rows. */
  ghost predicate CountsAgree(groups: map<int, ChatGroup>, members: seq<GroupMember>)
  {
    forall g | g in groups :: groups[g].memberCount == Count(members, InGroup(g))
  }

  class GroupStore {
    var groups: map<int, ChatGroup>
    var members: seq<GroupMember>
    var nextGroupId: int

    ghost predicate Valid()
      reads this
    {
      forall g | g in groups :: groups[g].id == g && g < nextGroupId
    }

    constructor ()
      ensures groups == map[] && members == [] && nextGroupId == 1 && Valid()
    {
      groups := map[];
      members := [];
      nextGroupId := 1;
    }

    /** `createGroup(group, creatorId)`: saves the group under a fresh id and
        its creator as sole OWNER row. The cached count keeps the value the
        group arrived with (1 for a new group) and is not recomputed. */
    method CreateGroup(group: ChatGroup, creatorId: int) returns (saved: ChatGroup)
      requires Valid()
      modifies this
      ensures Valid()
      ensures saved == group.(id := old(nextGroupId)) && old(nextGroupId) !in old(groups)
      ensures groups == old(groups)[saved.id := saved] && nextGroupId == old(nextGroupId) + 1
      ensures members == old(members) + [GroupMember(saved.id, creatorId, Owner)]
      ensures (CountsAgree(old(groups), old(members)) && group.memberCount == 1 &&
               Count(old(members), InGroup(saved.id)) == 0) ==> CountsAgree(groups, members)
    {
      saved := group.(id := nextGroupId);
      groups := groups[saved.id := saved];
      nextGroupId := nextGroupId + 1;
      var owner := GroupMember(saved.id, creatorId, Owner);
      CountAppendOne(members, owner);
      members := members + [owner];
    }

    /** `updateMemberCount(groupId)`. */
    method UpdateMemberCount(groupId: int)
      requires Valid()
      modifies this`groups
      ensures Valid()
      ensures groups == WithCount(old(groups), members, groupId)
    {
      var count := Count(members, InGroup(groupId));
      if groupId in groups {
        groups := groups[groupId := groups[groupId].(memberCount := count)];
      }
    }

    /** `addGroupMember(groupId, userId, role)`: refuses an existing
        (group, user) row; otherwise adds the row and recounts. The group's
        existence is not checked. */
    method AddGroupMember(groupId: int, userId: int, role: GroupRole) returns (r: Result<Unit, GroupError>)
      requires Valid()
      modifies this`groups, this`members
      ensures Valid()
      ensures IsMember(old(members), groupId, userId) ==>
        r == Err(AlreadyMember) && members == old(members) && groups == old(groups)
      ensures !IsMember(old(members), groupId, userId) ==>
        r.Ok? && members == old(members) + [GroupMember(groupId, userId, role)] &&
        groups == WithCount(old(groups), members, groupId)
      ensures CountsAgree(old(groups), old(members)) ==> CountsAgree(groups, members)
    {
      if IsMember(members, groupId, userId) {
        return Err(AlreadyMember);
      }
      var row := GroupMember(groupId, userId, role);
      CountAppendOne(members, row);
      members := members + [row];
      UpdateMemberCount(groupId);
      r := Ok(Unit);
    }

    /** `removeGroupMember(groupId, userId, operatorId)`: looks the operator
        up, then the target; does nothing when either is missing; otherwise
        deletes the target's rows and recounts, or refuses. */
    method RemoveGroupMember(groupId: int, userId: int, operatorId: int) returns (r: Result<Unit, GroupError>)
      requires Valid()
      modifies this`groups, this`members
      ensures Valid()
      ensures var op := FindUnique(old(members), MemberRow(groupId, operatorId));
              var tg := FindUnique(old(members), MemberRow(groupId, userId));
        if op.Duplicate? || tg.Duplicate? then
          r == Err(NotUnique) && members == old(members) && groups == old(groups)
        else if op.Absent? || tg.Absent? then
          r.Ok? && members == old(members) && groups == old(groups)
        else if RemovalPermitted(old(members)[op.index], old(members)[tg.index]) then
          r.Ok? && members == Delete(old(members), MemberRow(groupId, userId)) &&
          groups == WithCount(old(groups), members, groupId)
        else
          r == Err(NoPermission) && members == old(members) && groups == old(groups)
      ensures CountsAgree(old(groups), old(members)) ==> CountsAgree(groups, members)
    {
      var op := FindUnique(members, MemberRow(groupId, operatorId));
      if op.Duplicate? {
        return Err(NotUnique);
      }
      var tg := FindUnique(members, MemberRow(groupId, userId));
      if tg.Duplicate? {
        return Err(NotUnique);
      }
      if tg.Absent? || op.Absent? {
        return Ok(Unit);
      }
      if !RemovalPermitted(members[op.index], members[tg.index]) {
        return Err(NoPermission);
      }
      CountDeleteMember(members, groupId, userId);
      members := Delete(members, MemberRow(groupId, userId));
      UpdateMemberCount(groupId);
      r := Ok(Unit);
    }

    /** `deleteGroup(groupId, operatorId)`: nothing for an unknown group;
        only the creator may delete; membership rows go first, then the
        group. */
    method DeleteGroup(groupId: int, operatorId: int) returns (r: Result<Unit, GroupError>)
      requires Valid()
      modifies this`groups, this`members
      ensures Valid()
      ensures groupId !in old(groups) ==> r.Ok? && members == old(members) && groups == old(groups)
      ensures groupId in old(groups) && old(groups)[groupId].creatorId != operatorId ==>
        r == Err(NotCreator) && members == old(members) && groups == old(groups)
      ensures groupId in old(groups) && old(groups)[groupId].creatorId == operatorId ==>
        r.Ok? && members == Delete(old(members), InGroup(groupId)) && groups == old(groups) - {groupId}
      ensures CountsAgree(old(groups), old(members)) ==> CountsAgree(groups, members)
    {
      if groupId !in groups {
        return Ok(Unit);
      }
      if groups[groupId].creatorId != operatorId {
        return Err(NotCreator);
      }
      forall g | g != groupId
        ensures Count(Delete(members, InGroup(groupId)), InGroup(g)) == Count(members, InGroup(g))
      {
        CountDeleteDisjoint(members, InGroup(groupId), InGroup(g));
      }
      members := Delete(members, InGroup(groupId));
      groups := groups - {groupId};
      r := Ok(Unit);
    }

    /** `getGroupMembers(groupId)`. */
    function GetGroupMembers(groupId: int): (r: seq<GroupMember>)
      reads this
      ensures |r| == Count(members, InGroup(groupId))
      ensures forall m | m in r :: m in members && m.groupId == groupId
      ensures forall m | m in members && m.groupId == groupId :: m in r
    {
      CountIsFilterLength(members, InGroup(groupId));
      Filter(members, InGroup(groupId))
    }

    /** `isGroupMember(groupId, userId)`. */
    function IsGroupMember(groupId: int, userId: int): (b: bool)
      reads this
      ensures b <==> exists i | 0 <= i < |members| :: members[i].groupId == groupId && members[i].userId == userId
    {
      IsMember(members, groupId, userId)
    }
  }

  /** `existsByGroupIdAndUserId` on a table. */
  predicate IsMember(members: seq<GroupMember>, groupId: int, userId: int)
    ensures IsMember(members, groupId, userId) <==>
      exists k | 0 <= k < |members| :: members[k].groupId == groupId && members[k].userId == userId
  {
    Count(members, MemberRow(groupId, userId)) > 0
  }

  /** Recounting the one group whose rows changed restores the agreement of
      every cached count with the membership table. */
  lemma RecountRestoresAgreement(groups: map<int, ChatGroup>, before: seq<GroupMember>, after: seq<GroupMember>, groupId: int)
    requires CountsAgree(groups, before)
    requires forall g | g != groupId :: Count(after, InGroup(g)) == Count(before, InGroup(g))
    ensures CountsAgree(WithCount(groups, after, groupId), after)
  {
  }

  /** Appending one row changes only its own group's count, by one. */
  lemma CountAppendOne(members: seq<GroupMember>, row: GroupMember)
    ensures forall g :: Count(members + [row], InGroup(g)) == Count(members, InGroup(g)) + (if row.groupId == g then 1 else 0)
  {
    forall g
      ensures Count(members + [row], InGroup(g)) == Count(members, InGroup(g)) + (if row.groupId == g then 1 else 0)
    {
      CountAppend(members, [row], InGroup(g));
    }
  }

  /** Removing a user's rows from one group leaves every other group's count. */
  lemma CountDeleteMember(members: seq<GroupMember>, groupId: int, userId: int)
    ensures forall g | g != groupId :: Count(Delete(members, MemberRow(groupId, userId)), InGroup(g)) == Count(members, InGroup(g))
  {
    forall g | g != groupId
      ensures Count(Delete(members, MemberRow(groupId, userId)), InGroup(g)) == Count(members, InGroup(g))
    {
      CountDeleteDisjoint(members, MemberRow(groupId, userId), InGroup(g));
    }
  }

  /** A successful removal takes exactly the (group, user) rows away: every
      other membership stays, and the user is no longer a member. */
  lemma RemovalKeepsOthers(members: seq<GroupMember>, groupId: int, userId: int)
    ensures !IsMember(Delete(members, MemberRow(groupId, userId)), groupId, userId)
    ensures forall m | m in members && !(m.groupId == groupId && m.userId == userId) ::
      m in Delete(members, MemberRow(groupId, userId))
  {
    var rest := Delete(members, MemberRow(groupId, userId));
    assert forall i | 0 <= i < |rest| :: rest[i] in rest;
  }

  /** A join to a group id that does not exist yet leaves a row behind that
      the `createGroup` receiving that id does not count: the new group then
      reports one member while two rows name it. */
  method EarlyJoinMiscounts(s: GroupStore, joinerId: int, group: ChatGroup, creatorId: int)
    requires s.Valid() && CountsAgree(s.groups, s.members)
    requires Count(s.members, InGroup(s.nextGroupId)) == 0 && group.memberCount == 1
    modifies s
    ensures s.nextGroupId - 1 in s.groups && s.groups[s.nextGroupId - 1].memberCount == 1
    ensures Count(s.members, InGroup(s.nextGroupId - 1)) == 2
    ensures !CountsAgree(s.groups, s.members)
  {
    var g := s.nextGroupId;
    ghost var before := s.members;
    var _ := s.AddGroupMember(g, joinerId, Member);
    CountAppendOne(before, GroupMember(g, joinerId, Member));
    ghost var joined := s.members;
    var saved := s.CreateGroup(group, creatorId);
    CountAppendOne(joined, GroupMember(g, creatorId, Owner));
    assert s.groups[g].memberCount == 1 && Count(s.members, InGroup(g)) == 2;
  }
}
