/** The chat handlers over the stored chats: find-or-create of a direct chat,
    sending, marking a direct conversation read, and the group operations
    (create, add, remove, promote, leave, update). Direct and group chats
    share one id space, and message ids are drawn from the same counter. */
module ChatStore {
  import opened Common
  import opened Strings
  import opened Seqs
  import opened Roles
  import opened Users
  import opened ChatModel
  import Permissions

  const DefaultGroupImage: string := "https://res.cloudinary.com/demo/image/upload/v1580125392/samples/people/default-group.jpg"

  /** `DirectChat.findOne({ participants: { $all: [a, b] } })` matches this chat. */
  predicate PairChat(c: Chat, a: UserId, b: UserId)
  {
    c.Direct? && a in c.members && b in c.members
  }

  /** A stored chat's own invariant: a direct chat is between two different
      users, and no message holds two receipts of one reader. */
  ghost predicate ChatOk(c: Chat)
  {
    (c.Direct? ==> |c.members| == 2 && c.members[0] != c.members[1])
    && forall i :: 0 <= i < |c.messages| ==> MessageOk(c.messages[i])
  }

  /** The chat with its messages replaced and its other fields kept. */
  function WithMessages(c: Chat, ms: seq<Message>, last: Time): (d: Chat)
    ensures d.messages == ms && d.lastMessage == last && d.Direct? == c.Direct?
    ensures c.Direct? ==> d.members == c.members
    ensures c.Group? ==> d.participants == c.participants && d.name == c.name && d.cls == c.cls
  {
    match c
    case Direct(members, _, _) => Direct(members, ms, last)
    case Group(name, description, ps, _, image, cls, creator, _) => Group(name, description, ps, ms, image, cls, creator, last)
  }

  /** The group `createGroupChat` stores: trimmed name and description, the
      roster of the listed ids, no messages, the given image or the default. */
  function NewGroup(caller: UserId, name: string, description: Option<string>, ids: seq<UserId>,
                    classId: Option<ClassId>, image: Option<string>, now: Time): (g: Chat)
    ensures g.Group? && g.messages == [] && g.createdBy == caller && g.cls == classId
    ensures g.participants == Roster(caller, ids, now) && GroupIsAdmin(g.participants, caller)
  {
    Group(Trim(name), if description.Some? then Some(Trim(description.value)) else None,
          Roster(caller, ids, now), [], if Truthy(image) then image.value else DefaultGroupImage,
          classId, caller, now)
  }

  /** `createGroupChat`'s loop: the creator first as admin, then each listed
      id other than the creator as a member; the first unknown id ends the
      loop with nothing. */
  method BuildRoster(caller: UserId, ids: seq<UserId>, knownUser: UserId -> bool, now: Time) returns (r: Option<seq<Participant>>)
    ensures r.None? <==> FirstUnknown(caller, ids, knownUser).Some?
    ensures r.Some? ==> r.value == Roster(caller, ids, now)
  {
    var parts := [Participant(caller, GroupAdmin, caller, now)];
    var i := 0;
    while i < |ids|
      invariant 0 <= i <= |ids|
      invariant parts == Roster(caller, ids[..i], now)
      invariant FirstUnknown(caller, ids[..i], knownUser).None?
    {
      assert ids[..i + 1][..i] == ids[..i];
      var id := ids[i];
      if id != caller {
        if !knownUser(id) {
          FirstUnknownOfPrefix(caller, ids, i + 1, knownUser);
          return None;
        }
        parts := parts + [Participant(id, Member, caller, now)];
      }
      assert FirstUnknown(caller, ids[..i + 1], knownUser).None? by {
        assert forall x :: x in ids[..i + 1] ==> x in ids[..i] || x == id;
      }
      i := i + 1;
    }
    assert ids[..i] == ids;
    r := Some(parts);
  }

  /** A group with its participant list replaced and its other fields kept. */
  function WithParticipants(c: Chat, ps: seq<Participant>): (d: Chat)
    requires c.Group?
    ensures d.Group? && d.participants == ps && d.messages == c.messages && d.name == c.name && d.cls == c.cls
  {
    Group(c.name, c.description, ps, c.messages, c.groupImage, c.cls, c.createdBy, c.lastMessage)
  }

  /** The chat after a message is appended and `lastMessage` stamped. */
  function Appended(c: Chat, m: Message, now: Time): (d: Chat)
    ensures d.messages == c.messages + [m] && d.lastMessage == now
    ensures IsParticipant(d, m.sender) == IsParticipant(c, m.sender)
    ensures WithMessages(d, c.messages, c.lastMessage) == c
  {
    WithMessages(c, c.messages + [m], now)
  }

  /** The sort key of `leaveGroupChat`: the time a record was added. */
  function AddedAt(p: Participant): int
  {
    p.addedAt
  }

  /** The participants left after `u` leaves: `u`'s records removed and, when
      no admin remains, the list re-ordered by `addedAt` and its head made
      admin. */
  function AfterLeave(ps: seq<Participant>, u: UserId): (r: seq<Participant>)
    requires WithoutUser(ps, u) != []
    ensures HasAdmin(r) && !GroupHasMember(r, u)
    ensures |r| == |WithoutUser(ps, u)|
    ensures HasAdmin(WithoutUser(ps, u)) ==> r == WithoutUser(ps, u)
    ensures !HasAdmin(WithoutUser(ps, u)) ==> r == Promote(SortBy(WithoutUser(ps, u), AddedAt), 0)
  {
    var rest := WithoutUser(ps, u);
    if HasAdmin(rest) then rest
    else
      var sorted := SortBy(rest, AddedAt);
      assert forall p :: p in sorted <==> p in rest by {
        assert forall p :: p in sorted <==> p in multiset(sorted);
        assert forall p :: p in rest <==> p in multiset(rest);
      }
      assert !GroupHasMember(sorted, u) by {
        forall i | 0 <= i < |sorted| ensures sorted[i].user != u {
          assert sorted[i] in sorted;
        }
      }
      var r := Promote(sorted, 0);
      assert !GroupHasMember(r, u) by {
        assert r[0].user == sorted[0].user;
      }
      r
  }

  /** When a promotion happens, the promoted record is one of the earliest
      added among those who remain, and apart from its role the list is a
      re-ordering of those who remain. */
  lemma AfterLeavePromotesEarliest(ps: seq<Participant>, u: UserId)
    requires WithoutUser(ps, u) != [] && !HasAdmin(WithoutUser(ps, u))
    ensures forall p :: p in WithoutUser(ps, u) ==> AfterLeave(ps, u)[0].addedAt <= p.addedAt
    ensures multiset(AfterLeave(ps, u)[0 := AfterLeave(ps, u)[0].(role := Member)]) == multiset(WithoutUser(ps, u))
  {
    var rest := WithoutUser(ps, u);
    var key := AddedAt;
    var sorted := SortBy(rest, key);
    forall p | p in rest ensures sorted[0].addedAt <= p.addedAt {
      assert p in multiset(sorted);
      SortedHeadIsLeast(sorted, key, p);
    }
    assert sorted[0].role == Member by {
      assert sorted[0] in multiset(rest);
    }
    assert AfterLeave(ps, u)[0 := AfterLeave(ps, u)[0].(role := Member)] == sorted;
  }

  /** The sort is stable, so among records added at the same earliest time
      the one listed first is promoted: the promoted record is the first
      remaining record with its time, and every record before it was added
      later. */
  lemma AfterLeavePromotesFirstOfTies(ps: seq<Participant>, u: UserId)
    requires WithoutUser(ps, u) != [] && !HasAdmin(WithoutUser(ps, u))
    ensures exists j ::
      (0 <= j < |WithoutUser(ps, u)| && AfterLeave(ps, u)[0] == WithoutUser(ps, u)[j].(role := GroupAdmin)
       && forall i :: 0 <= i < j ==> WithoutUser(ps, u)[i].addedAt > WithoutUser(ps, u)[j].addedAt)
  {
    var rest := WithoutUser(ps, u);
    var j := SortByHead(rest, AddedAt);
    assert AfterLeave(ps, u)[0] == rest[j].(role := GroupAdmin);
  }

  /** `updateGroupChat`'s field updates: a truthy name (trimmed), any given
      description (trimmed), a truthy image. */
  function UpdatedGroup(c: Chat, name: Option<string>, description: Option<string>, image: Option<string>): (d: Chat)
    requires c.Group?
    ensures d.Group? && d.participants == c.participants && d.messages == c.messages && d.cls == c.cls
    ensures d.name == (if Truthy(name) then Trim(name.value) else c.name)
    ensures d.description == (if description.Some? then Some(Trim(description.value)) else c.description)
    ensures d.groupImage == (if Truthy(image) then image.value else c.groupImage)
  {
    Group(
      if Truthy(name) then Trim(name.value) else c.name,
      if description.Some? then Some(Trim(description.value)) else c.description,
      c.participants, c.messages,
      if Truthy(image) then image.value else c.groupImage,
      c.cls, c.createdBy, c.lastMessage)
  }


  /** The permission of `addGroupParticipants`: a group admin, or any class
      president or vice president. */
  predicate MayAddParticipants(ps: seq<Participant>, caller: Actor)
  {
    GroupIsAdmin(ps, caller.id) || caller.role == ClassPresident || caller.role == VicePresident
  }

  /** Every stored chat is below the id counter and well formed, and no two
      direct chats are between the same pair of users. */
  ghost predicate StoreOk(chats: map<ChatId, Chat>, nextId: nat)
  {
    (forall id :: id in chats ==> id < nextId && ChatOk(chats[id]))
    && forall x, y :: x in chats && y in chats && x != y && chats[x].Direct? && chats[y].Direct? ==>
         !PairChat(chats[y], chats[x].members[0], chats[x].members[1])
  }

  /** Deleting a chat keeps the store well formed. */
  lemma ChatRemoved(chats: map<ChatId, Chat>, nextId: nat, id: ChatId)
    requires StoreOk(chats, nextId)
    ensures StoreOk(map x | x in chats && x != id :: chats[x], nextId)
  {
  }

  /** Replacing a group by a group with the same messages keeps the store
      well formed. */
  lemma GroupReplaced(chats: map<ChatId, Chat>, nextId: nat, id: ChatId, d: Chat)
    requires StoreOk(chats, nextId) && id in chats && chats[id].Group?
    requires d.Group? && forall i :: 0 <= i < |d.messages| ==> MessageOk(d.messages[i])
    ensures StoreOk(chats[id := d], nextId)
  {
  }

  /** Adding a group under a fresh id keeps the store well formed. */
  lemma GroupAdded(chats: map<ChatId, Chat>, nextId: nat, d: Chat)
    requires StoreOk(chats, nextId)
    requires d.Group? && forall i :: 0 <= i < |d.messages| ==> MessageOk(d.messages[i])
    ensures StoreOk(chats[nextId := d], nextId + 1)
  {
  }

  class ChatStore {
    var chats: map<ChatId, Chat>
    var nextId: nat

    ghost predicate Valid()
      reads this
    {
      StoreOk(chats, nextId)
    }

    constructor()
      ensures Valid() && chats == map[]
    {
      chats := map[];
      nextId := 0;
    }

    /** `getOrCreateDirectChat`: 400 for a chat with oneself, 404 for an unknown
        recipient; an existing chat of the pair is returned unchanged, and only
        when there is none is one created. */
    method GetOrCreateDirectChat(caller: UserId, recipient: UserId, knownUser: UserId -> bool, now: Time) returns (r: Result<ChatId>)
      requires Valid()
      modifies this
      ensures Valid()
      ensures caller == recipient ==> r == Err(BadRequest)
      ensures caller != recipient && !knownUser(recipient) ==> r == Err(NotFound)
      ensures r.Ok? <==> caller != recipient && knownUser(recipient)
      ensures r.Err? ==> chats == old(chats)
      ensures r.Ok? ==> r.value in chats && PairChat(chats[r.value], caller, recipient)
      ensures r.Ok? ==> forall id :: id in chats && PairChat(chats[id], caller, recipient) ==> id == r.value
      ensures (exists id :: id in old(chats) && PairChat(old(chats)[id], caller, recipient)) ==> chats == old(chats)
      ensures r.Ok? && chats != old(chats) ==>
        r.value == old(nextId) && chats == old(chats)[r.value := Direct([caller, recipient], [], now)]
    {
      if caller == recipient {
        return Err(BadRequest);
      }
      if !knownUser(recipient) {
        return Err(NotFound);
      }
      if id :| id in chats && PairChat(chats[id], caller, recipient) {
        return Ok(id);
      }
      r := Ok(nextId);
      chats := chats[nextId := Direct([caller, recipient], [], now)];
      nextId := nextId + 1;
    }

    /** `sendDirectMessage` / `sendGroupMessage`: 404 unless a chat of that kind
        exists, 403 for a non-participant, and blank content fails validation
        (500); otherwise exactly one message is appended, carrying the
        sender's receipt, and `lastMessage` is stamped. */
    method SendMessage(chatId: ChatId, toGroup: bool, sender: UserId, content: string, attachments: seq<string>, now: Time)
      returns (r: Result<MessageId>)
      requires Valid()
      modifies this
      ensures Valid()
      ensures chatId !in old(chats) || old(chats)[chatId].Group? != toGroup ==> r == Err(NotFound)
      ensures chatId in old(chats) && old(chats)[chatId].Group? == toGroup && !IsParticipant(old(chats)[chatId], sender) ==> r == Err(Forbidden)
      ensures r.Ok? <==> chatId in old(chats) && old(chats)[chatId].Group? == toGroup && IsParticipant(old(chats)[chatId], sender) && ValidContent(content)
      ensures r.Err? ==> chats == old(chats)
      ensures r.Ok? ==> (r.value == old(nextId) &&
        chats == old(chats)[chatId := Appended(old(chats)[chatId], NewMessage(r.value, sender, content, attachments, now), now)])
    {
      if chatId !in chats || chats[chatId].Group? != toGroup {
        return Err(NotFound);
      }
      if !IsParticipant(chats[chatId], sender) {
        return Err(Forbidden);
      }
      if !ValidContent(content) {
        return Err(ServerError);
      }
      var m := NewMessage(nextId, sender, content, attachments, now);
      r := Ok(nextId);
      chats := chats[chatId := Appended(chats[chatId], m, now)];
      nextId := nextId + 1;
    }

    /** `markDirectMessagesAsRead`: 404 for a missing direct chat, 403 for a
        non-participant; otherwise every message becomes `MarkRead` of itself,
        and the chat is saved only when some message was unread. */
    method MarkDirectMessagesAsRead(chatId: ChatId, caller: UserId, now: Time) returns (s: Status, saved: bool)
      requires Valid()
      modifies this
      ensures Valid()
      ensures chatId !in old(chats) || !old(chats)[chatId].Direct? ==> s == Failed(NotFound)
      ensures s == Done <==> chatId in old(chats) && old(chats)[chatId].Direct? && IsParticipant(old(chats)[chatId], caller)
      ensures (chatId in old(chats) && old(chats)[chatId].Direct? && !IsParticipant(old(chats)[chatId], caller)) ==> s == Failed(Forbidden)
      ensures saved <==> s == Done && CountUnread(old(chats)[chatId].messages, caller) > 0
      ensures !saved ==> chats == old(chats)
      ensures saved ==> chats == old(chats)[chatId := WithMessages(old(chats)[chatId], MarkAllRead(old(chats)[chatId].messages, caller, now), old(chats)[chatId].lastMessage)]
    {
      saved := false;
      if chatId !in chats || !chats[chatId].Direct? {
        return Failed(NotFound), false;
      }
      var c := chats[chatId];
      if !IsParticipant(c, caller) {
        return Failed(Forbidden), false;
      }
      var ms, updated := MarkEveryMessage(c.messages, caller, now);
      if updated {
        chats := chats[chatId := WithMessages(c, ms, c.lastMessage)];
        MarkAllReadKeepsMessagesOk(c.messages, caller, now);
      }
      s, saved := Done, updated;
    }

    /** `createGroupChat`: 400 for an empty list, 404 for a named class that
        does not exist or for any listed id (other than the caller) that is not
        a user, 500 for a blank name; otherwise a new group whose participants
        are `Roster(caller, ids, now)`. */
    method CreateGroupChat(caller: UserId, name: string, description: Option<string>, ids: seq<UserId>,
                           classId: Option<ClassId>, groupImage: Option<string>,
                           knownUser: UserId -> bool, knownClass: ClassId -> bool, now: Time)
      returns (r: Result<ChatId>)
      requires Valid()
      modifies this
      ensures Valid()
      ensures ids == [] ==> r == Err(BadRequest)
      ensures ids != [] && classId.Some? && !knownClass(classId.value) ==> r == Err(NotFound)
      ensures ids != [] && (classId.None? || knownClass(classId.value)) && FirstUnknown(caller, ids, knownUser).Some? ==> r == Err(NotFound)
      ensures r.Ok? <==> ids != [] && (classId.None? || knownClass(classId.value))
                         && FirstUnknown(caller, ids, knownUser).None? && Trim(name) != ""
      ensures r.Err? ==> chats == old(chats)
      ensures r.Ok? ==> (r.value == old(nextId)
        && chats == old(chats)[r.value := NewGroup(caller, name, description, ids, classId, groupImage, now)])
    {
      if ids == [] {
        return Err(BadRequest);
      }
      if classId.Some? && !knownClass(classId.value) {
        return Err(NotFound);
      }
      var roster := BuildRoster(caller, ids, knownUser, now);
      if roster.None? {
        return Err(NotFound);
      }
      if Trim(name) == "" {
        return Err(ServerError);
      }
      var g := NewGroup(caller, name, description, ids, classId, groupImage, now);
      GroupAdded(chats, nextId, g);
      r := Ok(nextId);
      chats := chats[nextId := g];
      nextId := nextId + 1;
    }

    /** `addGroupParticipants`: 400 for an empty list, 404 for a missing group,
        403 unless `MayAddParticipants`; then the list becomes `AddAll` of it, or
        the call ends with 404 and no change when a new id is not a user. */
    method AddGroupParticipants(chatId: ChatId, caller: Actor, ids: seq<UserId>, knownUser: UserId -> bool, now: Time)
      returns (s: Status)
      requires Valid()
      modifies this
      ensures Valid()
      ensures ids == [] ==> s == Failed(BadRequest)
      ensures ids != [] && (chatId !in old(chats) || !old(chats)[chatId].Group?) ==> s == Failed(NotFound)
      ensures s == Done <==> (ids != [] && chatId in old(chats) && old(chats)[chatId].Group?
        && MayAddParticipants(old(chats)[chatId].participants, caller)
        && AddAll(old(chats)[chatId].participants, ids, caller.id, now, knownUser).Some?)
      ensures (ids != [] && chatId in old(chats) && old(chats)[chatId].Group?
        && !MayAddParticipants(old(chats)[chatId].participants, caller)) ==> s == Failed(Forbidden)
      ensures (ids != [] && chatId in old(chats) && old(chats)[chatId].Group?
        && MayAddParticipants(old(chats)[chatId].participants, caller)
        && AddAll(old(chats)[chatId].participants, ids, caller.id, now, knownUser).None?) ==> s == Failed(NotFound)
      ensures s.Failed? ==> chats == old(chats)
      ensures s == Done ==> chats == old(chats)[chatId := WithParticipants(old(chats)[chatId],
        AddAll(old(chats)[chatId].participants, ids, caller.id, now, knownUser).value)]
    {
      if ids == [] {
        return Failed(BadRequest);
      }
      if chatId !in chats || !chats[chatId].Group? {
        return Failed(NotFound);
      }
      var c := chats[chatId];
      if !MayAddParticipants(c.participants, caller) {
        return Failed(Forbidden);
      }
      var ps := c.participants;
      var i := 0;
      while i < |ids|
        invariant 0 <= i <= |ids|
        invariant chats == old(chats)
        invariant AddAll(c.participants, ids[..i], caller.id, now, knownUser) == Some(ps)
      {
        assert ids[..i + 1][..i] == ids[..i];
        var id := ids[i];
        if !GroupHasMember(ps, id) {
          if !knownUser(id) {
            AddAllNoneExtends(c.participants, ids, i + 1, caller.id, now, knownUser);
            return Failed(NotFound);
          }
          ps := ps + [Participant(id, Member, caller.id, now)];
        }
        i := i + 1;
      }
      assert ids[..i] == ids;
      chats := chats[chatId := WithParticipants(c, ps)];
      s := Done;
    }

    /** `removeGroupParticipant`: 404 for a missing group, 403 unless the caller
        is a group admin, 400 when the target has no record; otherwise exactly
        the target's records are removed. No admin is promoted and an emptied
        group is kept. */
    method RemoveGroupParticipant(chatId: ChatId, caller: UserId, target: UserId) returns (s: Status)
      requires Valid()
      modifies this
      ensures Valid()
      ensures chatId !in old(chats) || !old(chats)[chatId].Group? ==> s == Failed(NotFound)
      ensures s == Done <==> (chatId in old(chats) && old(chats)[chatId].Group?
        && GroupIsAdmin(old(chats)[chatId].participants, caller) && GroupHasMember(old(chats)[chatId].participants, target))
      ensures s.Failed? ==> chats == old(chats)
      ensures s == Done ==> chats == old(chats)[chatId := WithParticipants(old(chats)[chatId], WithoutUser(old(chats)[chatId].participants, target))]
    {
      if chatId !in chats || !chats[chatId].Group? {
        return Failed(NotFound);
      }
      var c := chats[chatId];
      if !GroupIsAdmin(c.participants, caller) {
        return Failed(Forbidden);
      }
      if !GroupHasMember(c.participants, target) {
        return Failed(BadRequest);
      }
      chats := chats[chatId := WithParticipants(c, WithoutUser(c.participants, target))];
      s := Done;
    }

    /** `makeGroupAdmin`: 404, 403 unless the caller is a group admin, 400 when
        the target has no record; otherwise the target's first record, and
        nothing else, becomes admin. */
    method MakeGroupAdmin(chatId: ChatId, caller: UserId, target: UserId) returns (s: Status)
      requires Valid()
      modifies this
      ensures Valid()
      ensures chatId !in old(chats) || !old(chats)[chatId].Group? ==> s == Failed(NotFound)
      ensures s == Done <==> (chatId in old(chats) && old(chats)[chatId].Group?
        && GroupIsAdmin(old(chats)[chatId].participants, caller) && GroupHasMember(old(chats)[chatId].participants, target))
      ensures s.Failed? ==> chats == old(chats)
      ensures s == Done ==> chats == old(chats)[chatId := WithParticipants(old(chats)[chatId],
        Promote(old(chats)[chatId].participants, FirstRecord(old(chats)[chatId].participants, target).value))]
    {
      if chatId !in chats || !chats[chatId].Group? {
        return Failed(NotFound);
      }
      var c := chats[chatId];
      if !GroupIsAdmin(c.participants, caller) {
        return Failed(Forbidden);
      }
      var k := FirstRecord(c.participants, target);
      if k.None? {
        return Failed(BadRequest);
      }
      chats := chats[chatId := WithParticipants(c, Promote(c.participants, k.value))];
      s := Done;
    }

    /** `leaveGroupChat`: 404, 400 for a non-participant; otherwise the caller's
        records go, the group is deleted if nobody remains, and otherwise the
        participants become `AfterLeave`, which always has an admin. */
    method LeaveGroupChat(chatId: ChatId, caller: UserId) returns (s: Status, deleted: bool)
      requires Valid()
      modifies this
      ensures Valid()
      ensures chatId !in old(chats) || !old(chats)[chatId].Group? ==> s == Failed(NotFound)
      ensures s == Done <==> chatId in old(chats) && old(chats)[chatId].Group? && GroupHasMember(old(chats)[chatId].participants, caller)
      ensures s.Failed? ==> chats == old(chats) && !deleted
      ensures deleted <==> s == Done && WithoutUser(old(chats)[chatId].participants, caller) == []
      ensures deleted ==> chats == map id | id in old(chats) && id != chatId :: old(chats)[id]
      ensures s == Done && !deleted ==>
        chats == old(chats)[chatId := WithParticipants(old(chats)[chatId], AfterLeave(old(chats)[chatId].participants, caller))]
        && HasAdmin(chats[chatId].participants)
    {
      deleted := false;
      if chatId !in chats || !chats[chatId].Group? {
        return Failed(NotFound), false;
      }
      var c := chats[chatId];
      if !GroupHasMember(c.participants, caller) {
        return Failed(BadRequest), false;
      }
      var rest := WithoutUser(c.participants, caller);
      if rest == [] {
        ChatRemoved(chats, nextId, chatId);
        chats := map id | id in chats && id != chatId :: chats[id];
        return Done, true;
      }
      GroupReplaced(chats, nextId, chatId, WithParticipants(c, AfterLeave(c.participants, caller)));
      chats := chats[chatId := WithParticipants(c, AfterLeave(c.participants, caller))];
      s := Done;
    }

    /** `updateGroupChat`: 404, 403 unless the caller is a group admin; a name
        that trims to nothing fails validation (500); otherwise the chat becomes
        `UpdatedGroup` of itself. */
    method UpdateGroupChat(chatId: ChatId, caller: UserId, name: Option<string>, description: Option<string>, image: Option<string>)
      returns (s: Status)
      requires Valid()
      modifies this
      ensures Valid()
      ensures chatId !in old(chats) || !old(chats)[chatId].Group? ==> s == Failed(NotFound)
      ensures s == Done <==> (chatId in old(chats) && old(chats)[chatId].Group?
        && GroupIsAdmin(old(chats)[chatId].participants, caller) && (!Truthy(name) || Trim(name.value) != ""))
      ensures s.Failed? ==> chats == old(chats)
      ensures s == Done ==> chats == old(chats)[chatId := UpdatedGroup(old(chats)[chatId], name, description, image)]
    {
      if chatId !in chats || !chats[chatId].Group? {
        return Failed(NotFound);
      }
      var c := chats[chatId];
      if !GroupIsAdmin(c.participants, caller) {
        return Failed(Forbidden);
      }
      if Truthy(name) && Trim(name.value) == "" {
        return Failed(ServerError);
      }
      GroupReplaced(chats, nextId, chatId, UpdatedGroup(c, name, description, image));
      chats := chats[chatId := UpdatedGroup(c, name, description, image)];
      s := Done;
    }
  }

  lemma MarkAllReadKeepsMessagesOk(ms: seq<Message>, u: UserId, now: Time)
    requires forall i :: 0 <= i < |ms| ==> MessageOk(ms[i])
    ensures forall i :: 0 <= i < |MarkAllRead(ms, u, now)| ==> MessageOk(MarkAllRead(ms, u, now)[i])
  {
  }

  /** An unknown id found in a prefix is reported for the whole list. */
  lemma {:induction false} FirstUnknownOfPrefix(creator: UserId, ids: seq<UserId>, k: nat, known: UserId -> bool)
    requires 0 < k <= |ids| && ids[k - 1] != creator && !known(ids[k - 1])
    ensures FirstUnknown(creator, ids, known).Some?
  {
    assert ids[k - 1] in ids;
  }

  /** Once `AddAll` fails on a prefix, it fails on the whole list. */
  lemma {:induction false} AddAllNoneExtends(ps: seq<Participant>, ids: seq<UserId>, k: nat, adder: UserId, now: Time, known: UserId -> bool)
    requires k <= |ids| && AddAll(ps, ids[..k], adder, now, known).None?
    ensures AddAll(ps, ids, adder, now, known).None?
  {
    if k < |ids| {
      assert ids[..|ids| - 1][..k] == ids[..k];
      AddAllNoneExtends(ps, ids[..|ids| - 1], k, adder, now, known);
    } else {
      assert ids[..k] == ids;
    }
  }

  /** The step of the add loop: a new unknown id makes `AddAll` fail on the
      prefix that ends with it. */
  lemma AddAllStepNone(ps: seq<Participant>, ids: seq<UserId>, i: nat, adder: UserId, now: Time, known: UserId -> bool, qs: seq<Participant>)
    requires i < |ids| && AddAll(ps, ids[..i], adder, now, known) == Some(qs)
    requires !GroupHasMember(qs, ids[i]) && !known(ids[i])
    ensures AddAll(ps, ids[..i + 1], adder, now, known).None?
  {
    assert ids[..i + 1][..i] == ids[..i];
  }

  /** Unlike leaving, removal promotes nobody: an admin who removes
      themselves from a two-person group leaves it without an admin. */
  lemma RemovalCanLeaveNoAdmin(a: UserId, b: UserId, t: Time)
    requires a != b
    ensures var ps := [Participant(a, GroupAdmin, a, t), Participant(b, Member, a, t)];
      GroupIsAdmin(ps, a) && GroupHasMember(ps, a) && WithoutUser(ps, a) != [] && !HasAdmin(WithoutUser(ps, a))
  {
    var ps := [Participant(a, GroupAdmin, a, t), Participant(b, Member, a, t)];
    var rest := WithoutUser(ps, a);
    assert ps[1] in rest;
    forall p | p in rest ensures p.role == Member {
    }
  }

  /** The handler's add rule and the `canAddGroupMembers` helper disagree both
      ways: a president of another class passes the handler but not the
      helper, and a school administrator who is not a group admin passes the
      helper but not the handler. */
  lemma AddRuleDiffersFromHelper(ps: seq<Participant>, groupClass: ClassId, other: ClassId, u: UserId)
    requires groupClass != other && !GroupHasMember(ps, u)
    ensures MayAddParticipants(ps, Actor(u, ClassPresident, Some(other)))
    ensures !Permissions.CanAddGroupMembers(ClassPresident, Some(other), groupClass, GroupIsAdmin(ps, u))
    ensures !MayAddParticipants(ps, Actor(u, Admin, None))
    ensures Permissions.CanAddGroupMembers(Admin, None, groupClass, GroupIsAdmin(ps, u))
  {
  }

  /** The `forEach` of `markMessagesAsRead` and of the socket's `mark-read`
      without a message id: every message the reader neither sent nor read
      gets a receipt, and `updated` records whether any did. */
  method MarkEveryMessage(msgs: seq<Message>, u: UserId, now: Time) returns (ms: seq<Message>, updated: bool)
    ensures ms == MarkAllRead(msgs, u, now)
    ensures updated <==> ms != msgs
    ensures updated <==> CountUnread(msgs, u) > 0
  {
    ms := msgs;
    updated := false;
    var i := 0;
    while i < |ms|
      invariant 0 <= i <= |ms| && |ms| == |msgs|
      invariant forall j :: 0 <= j < i ==> ms[j] == MarkRead(msgs[j], u, now)
      invariant forall j :: i <= j < |ms| ==> ms[j] == msgs[j]
      invariant updated <==> exists j :: 0 <= j < i && UnreadBy(msgs[j], u)
    {
      var m := ms[i];
      if m.sender != u && !HasReceipt(m, u) {
        ms := ms[i := MarkRead(m, u, now)];
        updated := true;
      }
      i := i + 1;
    }
    MarkAllReadChangesIffUnread(msgs, u, now);
  }
}
