/** The chat documents: messages with read receipts, direct chats between two
    users, and group chats whose participants carry an admin or member role;
    with the membership queries of the chat models and the pure meaning of the
    handlers that read, create and extend chats. */
module ChatModel {
  import opened Common
  import opened Strings
  import opened Seqs

  datatype Receipt = Receipt(user: UserId, readAt: Time)

  datatype Message = Message(
    id: MessageId,
    sender: UserId,
    content: string,
    attachments: seq<string>,
    readBy: seq<Receipt>,
    createdAt: Time)

  /** The `role` of a participant record; `member` is the schema default. */
  datatype ParticipantRole = GroupAdmin | Member

  datatype Participant = Participant(user: UserId, role: ParticipantRole, addedBy: UserId, addedAt: Time)

  datatype Chat =
    | Direct(members: seq<UserId>, messages: seq<Message>, lastMessage: Time)
    | Group(
        name: string,
        description: Option<string>,
        participants: seq<Participant>,
        messages: seq<Message>,
        groupImage: string,
        cls: Option<ClassId>,
        createdBy: UserId,
        lastMessage: Time)

  /** Direct `isParticipant`: the user is one of the listed ids. */
  predicate DirectHasMember(members: seq<UserId>, u: UserId)
  {
    u in members
  }

  /** Group `isParticipant`: some participant record is for the user. */
  predicate GroupHasMember(ps: seq<Participant>, u: UserId)
  {
    exists i :: 0 <= i < |ps| && ps[i].user == u
  }

  predicate IsParticipant(c: Chat, u: UserId)
  {
    match c
    case Direct(members, _, _) => DirectHasMember(members, u)
    case Group(_, _, ps, _, _, _, _, _) => GroupHasMember(ps, u)
  }

  /** `participants.findIndex(p => p.user == u)`: the first record for `u`. */
  function FirstRecord(ps: seq<Participant>, u: UserId): (r: Option<nat>)
    ensures r.Some? ==> r.value < |ps| && ps[r.value].user == u
    ensures r.Some? ==> forall j :: 0 <= j < r.value ==> ps[j].user != u
    ensures r.None? <==> !GroupHasMember(ps, u)
  {
    if ps == [] then None
    else if ps[0].user == u then Some(0)
    else match FirstRecord(ps[1..], u)
      case None =>
        assert forall j :: 1 <= j < |ps| ==> ps[j] == ps[1..][j - 1];
        None
      case Some(i) => Some(i + 1)
  }

  /** Group `isAdmin`: the FIRST record for the user (`find`) has role admin. */
  predicate GroupIsAdmin(ps: seq<Participant>, u: UserId)
  {
    var r := FirstRecord(ps, u);
    r.Some? && ps[r.value].role == GroupAdmin
  }

  /** An admin is a participant. */
  lemma AdminIsParticipant(ps: seq<Participant>, u: UserId)
    requires GroupIsAdmin(ps, u)
    ensures GroupHasMember(ps, u)
  {
  }

  /** Only the first record counts: a member record followed by an admin
      record for the same user does not make the user an admin. */
  lemma LaterAdminRecordIgnored(u: UserId, t: Time)
    ensures !GroupIsAdmin([Participant(u, Member, u, t), Participant(u, GroupAdmin, u, t)], u)
  {
  }

  /** `participants.some(p => p.role === 'admin')`. */
  predicate HasAdmin(ps: seq<Participant>)
  {
    exists i :: 0 <= i < |ps| && ps[i].role == GroupAdmin
  }

  /** No user has two participant records. */
  ghost predicate UsersDistinct(ps: seq<Participant>)
  {
    forall i, j :: 0 <= i < j < |ps| ==> ps[i].user != ps[j].user
  }

  predicate HasReceipt(m: Message, u: UserId)
  {
    exists i :: 0 <= i < |m.readBy| && m.readBy[i].user == u
  }

  /** A message is unread by `u` when someone else sent it and it carries no
      receipt of `u`. */
  predicate UnreadBy(m: Message, u: UserId)
  {
    m.sender != u && !HasReceipt(m, u)
  }

  /** No reader has two receipts on one message. */
  ghost predicate ReadersDistinct(m: Message)
  {
    forall i, j :: 0 <= i < j < |m.readBy| ==> m.readBy[i].user != m.readBy[j].user
  }

  /** A stored message: its readers are distinct and its sender is among
      them. */
  ghost predicate MessageOk(m: Message)
  {
    ReadersDistinct(m) && HasReceipt(m, m.sender)
  }

  /** The message a handler appends: content and attachments trimmed by the
      schema, and the sender's own receipt already in place. */
  function NewMessage(id: MessageId, sender: UserId, content: string, attachments: seq<string>, now: Time): (m: Message)
    ensures m.sender == sender && m.readBy == [Receipt(sender, now)]
    ensures MessageOk(m)
    ensures m.id == id && m.createdAt == now
    ensures m.content == Trim(content) && |m.content| <= |content|
    ensures |m.attachments| == |attachments|
    ensures forall i :: 0 <= i < |attachments| ==> m.attachments[i] == Trim(attachments[i])
  {
    var m := Message(id, sender, Trim(content), seq(|attachments|, i requires 0 <= i < |attachments| => Trim(attachments[i])), [Receipt(sender, now)], now);
    assert m.readBy[0].user == sender;
    m
  }

  /** `content` is `required` after trimming: a blank message fails validation. */
  predicate ValidContent(content: string)
  {
    Trim(content) != ""
  }

  /** The read step applied to one message: a receipt for `u` is added exactly
      when the message is unread by `u`. */
  function MarkRead(m: Message, u: UserId, now: Time): (r: Message)
    ensures !UnreadBy(r, u)
    ensures r.(readBy := m.readBy) == m
    ensures UnreadBy(m, u) ==> r.readBy == m.readBy + [Receipt(u, now)]
    ensures !UnreadBy(m, u) ==> r == m
    ensures MessageOk(m) ==> MessageOk(r)
  {
    if UnreadBy(m, u) then
      var r := m.(readBy := m.readBy + [Receipt(u, now)]);
      assert r.readBy[|m.readBy|].user == u;
      assert forall i :: 0 <= i < |m.readBy| ==> r.readBy[i] == m.readBy[i];
      r
    else m
  }

  /** Marking every message of a conversation as read by `u`. */
  function MarkAllRead(ms: seq<Message>, u: UserId, now: Time): (r: seq<Message>)
    ensures |r| == |ms|
    ensures forall i :: 0 <= i < |ms| ==> r[i] == MarkRead(ms[i], u, now)
  {
    seq(|ms|, i requires 0 <= i < |ms| => MarkRead(ms[i], u, now))
  }

  /** After marking, nothing is unread by `u`; the messages `u` sent are
      untouched; a message from someone else carries exactly one receipt of `u`
      when its readers were distinct; and marking again changes nothing. */
  lemma MarkAllReadProperties(ms: seq<Message>, u: UserId, now: Time, later: Time)
    ensures forall i :: 0 <= i < |ms| ==> !UnreadBy(MarkAllRead(ms, u, now)[i], u)
    ensures forall i :: 0 <= i < |ms| && ms[i].sender == u ==> MarkAllRead(ms, u, now)[i] == ms[i]
    ensures forall i :: 0 <= i < |ms| && ms[i].sender != u && MessageOk(ms[i]) ==>
      HasReceipt(MarkAllRead(ms, u, now)[i], u) && MessageOk(MarkAllRead(ms, u, now)[i])
    ensures MarkAllRead(MarkAllRead(ms, u, now), u, later) == MarkAllRead(ms, u, now)
  {
  }

  /** The number of messages unread by `u` (`countUnreadMessages`). */
  function CountUnread(ms: seq<Message>, u: UserId): (n: nat)
    ensures n <= |ms|
    ensures n == 0 <==> forall i :: 0 <= i < |ms| ==> !UnreadBy(ms[i], u)
  {
    if ms == [] then 0
    else
      var rest := CountUnread(ms[1..], u);
      assert forall i :: 1 <= i < |ms| ==> ms[i] == ms[1..][i - 1];
      (if UnreadBy(ms[0], u) then 1 else 0) + rest
  }

  /** Marking everything read leaves no unread message. */
  lemma MarkAllReadClearsUnread(ms: seq<Message>, u: UserId, now: Time)
    ensures CountUnread(MarkAllRead(ms, u, now), u) == 0
  {
  }

  /** Marking changes the conversation exactly when something was unread. */
  lemma MarkAllReadChangesIffUnread(ms: seq<Message>, u: UserId, now: Time)
    ensures MarkAllRead(ms, u, now) == ms <==> CountUnread(ms, u) == 0
  {
    if CountUnread(ms, u) != 0 {
      var i :| 0 <= i < |ms| && UnreadBy(ms[i], u);
      assert |MarkAllRead(ms, u, now)[i].readBy| == |ms[i].readBy| + 1;
    }
  }

  /** The participant list `createGroupChat` builds: the creator first as
      admin, then every listed id other than the creator as a member, in list
      order and without removing repeats. */
  function Roster(creator: UserId, ids: seq<UserId>, now: Time): (ps: seq<Participant>)
    ensures |ps| >= 1 && ps[0] == Participant(creator, GroupAdmin, creator, now)
    ensures forall i :: 1 <= i < |ps| ==> ps[i].role == Member && ps[i].user != creator && ps[i].user in ids
    ensures forall x :: x in ids && x != creator ==> GroupHasMember(ps, x)
  {
    if ids == [] then [Participant(creator, GroupAdmin, creator, now)]
    else
      var init := Roster(creator, ids[..|ids| - 1], now);
      var last := ids[|ids| - 1];
      assert forall x :: x in ids && x != last ==> x in ids[..|ids| - 1];
      if last == creator then init
      else
        var ps := init + [Participant(last, Member, creator, now)];
        assert ps[|init|].user == last;
        assert forall i :: 1 <= i < |init| ==> ps[i] == init[i];
        assert forall x :: x in ids && x != creator && x != last ==> GroupHasMember(init, x);
        ps
  }

  /** The roster has one record per listed id other than the creator, so an id
      listed twice gets two records. */
  lemma {:induction false} RosterSize(creator: UserId, ids: seq<UserId>, now: Time)
    ensures |Roster(creator, ids, now)| == 1 + |Filter(ids, x => x != creator)|
  {
    if ids != [] {
      var init := ids[..|ids| - 1];
      RosterSize(creator, init, now);
      assert ids == init + [ids[|ids| - 1]];
      FilterAppend(init, [ids[|ids| - 1]], x => x != creator);
    }
  }

  /** A repeated id yields two member records. */
  lemma RosterKeepsRepeats(creator: UserId, x: UserId, now: Time)
    requires x != creator
    ensures Roster(creator, [x, x], now) ==
      [Participant(creator, GroupAdmin, creator, now), Participant(x, Member, creator, now), Participant(x, Member, creator, now)]
  {
    var admin := Participant(creator, GroupAdmin, creator, now);
    var member := Participant(x, Member, creator, now);
    assert [x][..0] == [];
    assert Roster(creator, [], now) == [admin];
    assert Roster(creator, [x], now) == [admin, member];
    assert [x, x][..1] == [x];
  }

  /** The first id of a list that is not the creator and is not a known user:
      the one `createGroupChat` reports as not found. */
  function FirstUnknown(creator: UserId, ids: seq<UserId>, known: UserId -> bool): (r: Option<UserId>)
    ensures r.Some? ==> r.value in ids && r.value != creator && !known(r.value)
    ensures r.None? <==> forall x :: x in ids && x != creator ==> known(x)
  {
    if ids == [] then None
    else if ids[0] != creator && !known(ids[0]) then Some(ids[0])
    else
      assert forall x :: x in ids && x != ids[0] ==> x in ids[1..];
      FirstUnknown(creator, ids[1..], known)
  }

  /** `addGroupParticipants`'s loop: each id not already present (including
      ids added earlier in the same call) is appended as a member; an unknown
      new id aborts the whole call (`None`). */
  function AddAll(ps: seq<Participant>, ids: seq<UserId>, adder: UserId, now: Time, known: UserId -> bool): (r: Option<seq<Participant>>)
    ensures r.Some? ==> |r.value| >= |ps| && r.value[..|ps|] == ps
    ensures r.Some? ==> forall x :: x in ids ==> GroupHasMember(r.value, x)
    ensures r.Some? ==> forall i :: |ps| <= i < |r.value| ==> r.value[i] == Participant(r.value[i].user, Member, adder, now) && known(r.value[i].user)
    ensures r.Some? && UsersDistinct(ps) ==> UsersDistinct(r.value)
  {
    if ids == [] then Some(ps)
    else
      var init := ids[..|ids| - 1];
      var last := ids[|ids| - 1];
      assert forall x :: x in ids && x != last ==> x in init;
      match AddAll(ps, init, adder, now, known)
      case None => None
      case Some(qs) =>
        if GroupHasMember(qs, last) then Some(qs)
        else if !known(last) then None
        else
          var rs := qs + [Participant(last, Member, adder, now)];
          assert rs[..|qs|] == qs;
          assert rs[..|ps|] == qs[..|ps|];
          assert rs[|qs|].user == last;
          assert forall x :: x in init ==> GroupHasMember(rs, x) by {
            forall x | x in init ensures GroupHasMember(rs, x) {
              var i :| 0 <= i < |qs| && qs[i].user == x;
              assert rs[i] == qs[i];
            }
          }
          Some(rs)
  }

  /** Adding is idempotent: adding the same ids again changes nothing. */
  lemma {:induction false} AddAllTwice(ps: seq<Participant>, ids: seq<UserId>, adder: UserId, now: Time, later: Time, known: UserId -> bool)
    requires AddAll(ps, ids, adder, now, known).Some?
    ensures AddAll(AddAll(ps, ids, adder, now, known).value, ids, adder, later, known) == AddAll(ps, ids, adder, now, known)
  {
    var qs := AddAll(ps, ids, adder, now, known).value;
    AddAllPresent(qs, ids, adder, later, known);
  }

  /** Ids that are all present already add nothing. */
  lemma {:induction false} AddAllPresent(qs: seq<Participant>, ids: seq<UserId>, adder: UserId, now: Time, known: UserId -> bool)
    requires forall x :: x in ids ==> GroupHasMember(qs, x)
    ensures AddAll(qs, ids, adder, now, known) == Some(qs)
  {
    if ids != [] {
      var init := ids[..|ids| - 1];
      assert forall x :: x in init ==> x in ids;
      AddAllPresent(qs, init, adder, now, known);
      assert ids[|ids| - 1] in ids;
    }
  }

  /** A user of an extension of `ps` is a user of `ps` or of an appended
      record, and the users of `ps` stay. */
  lemma ExtensionMembers(ps: seq<Participant>, qs: seq<Participant>, u: UserId)
    requires |qs| >= |ps| && qs[..|ps|] == ps
    ensures GroupHasMember(qs, u) <==> GroupHasMember(ps, u) || exists i :: |ps| <= i < |qs| && qs[i].user == u
  {
    if GroupHasMember(ps, u) {
      var i :| 0 <= i < |ps| && ps[i].user == u;
      assert qs[i] == qs[..|ps|][i];
    }
    if GroupHasMember(qs, u) {
      var i :| 0 <= i < |qs| && qs[i].user == u;
      if i < |ps| {
        assert ps[i] == qs[..|ps|][i];
      }
    }
  }

  /** `addGroupParticipants` succeeds exactly when every id that is not
      already a participant names a known user. */
  lemma {:induction false} AddAllSucceeds(ps: seq<Participant>, ids: seq<UserId>, adder: UserId, now: Time, known: UserId -> bool)
    ensures AddAll(ps, ids, adder, now, known).Some? <==> forall x :: x in ids && !GroupHasMember(ps, x) ==> known(x)
  {
    if ids != [] {
      var init, last := ids[..|ids| - 1], ids[|ids| - 1];
      InitLastMembers(ids);
      AddAllSucceeds(ps, init, adder, now, known);
      var r0 := AddAll(ps, init, adder, now, known);
      if r0.Some? {
        ExtensionMembers(ps, r0.value, last);
      }
    }
  }

  /** The records `addGroupParticipants` appends are for ids of the request
      that were not participants before. */
  lemma {:induction false} AddAllNewIds(ps: seq<Participant>, ids: seq<UserId>, adder: UserId, now: Time, known: UserId -> bool)
    requires AddAll(ps, ids, adder, now, known).Some?
    ensures var r := AddAll(ps, ids, adder, now, known).value;
      forall i :: |ps| <= i < |r| ==> r[i].user in ids && !GroupHasMember(ps, r[i].user)
  {
    if ids != [] {
      var init, last := ids[..|ids| - 1], ids[|ids| - 1];
      InitLastMembers(ids);
      AddAllNewIds(ps, init, adder, now, known);
      var qs := AddAll(ps, init, adder, now, known).value;
      if AddAll(ps, ids, adder, now, known).value != qs {
        ExtensionMembers(ps, qs, last);
      }
    }
  }

  /** The appended records follow the order of their ids' first occurrence
      in the request, so each new id is added once. */
  lemma {:induction false} AddAllOrder(ps: seq<Participant>, ids: seq<UserId>, adder: UserId, now: Time, known: UserId -> bool)
    requires AddAll(ps, ids, adder, now, known).Some?
    ensures var r := AddAll(ps, ids, adder, now, known).value;
      forall i, j :: |ps| <= i < j < |r| ==>
        r[i].user in ids && r[j].user in ids && Position(ids, r[i].user) < Position(ids, r[j].user)
  {
    if ids != [] {
      var init, last := ids[..|ids| - 1], ids[|ids| - 1];
      AddAllOrder(ps, init, adder, now, known);
      AddAllNewIds(ps, ids, adder, now, known);
      AddAllNewIds(ps, init, adder, now, known);
      var qs := AddAll(ps, init, adder, now, known).value;
      forall u | u in init
        ensures Position(ids, u) == Position(init, u) < |init|
      {
        assert ids == init + [last];
        PositionAppend(init, [last], u);
      }
      if AddAll(ps, ids, adder, now, known).value != qs {
        assert last !in init;
        assert Position(ids, last) == |init|;
      }
    }
  }

  /** Records other than `u`'s, in their order (`filter` by user). */
  function WithoutUser(ps: seq<Participant>, u: UserId): (r: seq<Participant>)
    ensures !GroupHasMember(r, u)
    ensures forall p :: p in r <==> p in ps && p.user != u
    ensures UsersDistinct(ps) ==> UsersDistinct(r)
  {
    var r := Filter(ps, (p: Participant) => p.user != u);
    assert forall i :: 0 <= i < |r| ==> r[i] in r;
    assert UsersDistinct(ps) ==> UsersDistinct(r) by {
      if UsersDistinct(ps) {
        FilterKeepsDistinct(ps, u);
      }
    }
    r
  }

  lemma {:induction false} FilterKeepsDistinct(ps: seq<Participant>, u: UserId)
    requires UsersDistinct(ps)
    ensures UsersDistinct(Filter(ps, (p: Participant) => p.user != u))
  {
    if ps != [] {
      FilterKeepsDistinct(ps[1..], u);
      var rest := Filter(ps[1..], (p: Participant) => p.user != u);
      forall j | 0 <= j < |rest|
        ensures rest[j].user != ps[0].user
      {
        assert rest[j] in ps[1..];
      }
    }
  }

  /** Gives the record at index `k` the admin role (`makeGroupAdmin`, and the
      promotion in `leaveGroupChat`). */
  function Promote(ps: seq<Participant>, k: nat): (r: seq<Participant>)
    requires k < |ps|
    ensures |r| == |ps| && r[k].role == GroupAdmin && HasAdmin(r)
    ensures forall i :: 0 <= i < |ps| && i != k ==> r[i] == ps[i]
    ensures r[k].(role := ps[k].role) == ps[k]
  {
    ps[k := ps[k].(role := GroupAdmin)]
  }

  /** Promotion through the first record makes the user an admin, and doing
      it again changes nothing. */
  lemma PromoteFirstRecord(ps: seq<Participant>, u: UserId)
    requires GroupHasMember(ps, u)
    ensures GroupIsAdmin(Promote(ps, FirstRecord(ps, u).value), u)
    ensures Promote(Promote(ps, FirstRecord(ps, u).value), FirstRecord(ps, u).value) == Promote(ps, FirstRecord(ps, u).value)
  {
    var k := FirstRecord(ps, u).value;
    var r := Promote(ps, k);
    assert FirstRecord(r, u) == Some(k) by {
      FirstRecordUnderSameUsers(ps, r, u);
    }
  }

  /** `FirstRecord` looks only at users, so a role change does not move it. */
  lemma {:induction false} FirstRecordUnderSameUsers(ps: seq<Participant>, qs: seq<Participant>, u: UserId)
    requires |ps| == |qs| && forall i :: 0 <= i < |ps| ==> ps[i].user == qs[i].user
    ensures FirstRecord(ps, u) == FirstRecord(qs, u)
  {
    if ps != [] && ps[0].user != u {
      FirstRecordUnderSameUsers(ps[1..], qs[1..], u);
    }
  }
}
