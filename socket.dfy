/** The real-time layer: a connection is admitted by the same chain as an HTTP
    request (with the token taken from the handshake), joins its user room and
    class room, may join the rooms of the chats it takes part in, and relays
    messages, typing notices and read receipts. Rooms are a set of
    (connection, room) pairs and everything emitted is appended to a log. */
module Socket {
  import opened Common
  import opened Users
  import opened Auth
  import opened Accounts
  import opened ChatModel
  import opened ChatStore

  type ConnId = nat

  datatype Room = UserRoom(user: UserId) | ClassRoom(cls: ClassId) | ChatRoom(chat: ChatId) | GroupRoom(group: ChatId)

  datatype Event =
    | DirectMessageEvent(chatId: ChatId, message: MessageId)
    | GroupMessageEvent(chatId: ChatId, message: MessageId)
    | UserTyping(chatId: ChatId, typist: UserId, isTyping: bool)
    | MessageRead(chatId: ChatId, which: Option<MessageId>, reader: UserId)
    | UserStatus(subject: UserId, status: string)
    | ErrorEvent

  /** `io.to(room)`, `socket.to(room)` (the room without the sending
      connection), and `socket.emit` (the sending connection only). */
  datatype Target = ToRoom(room: Room) | ToRoomExcept(room: Room, except: ConnId) | ToSocket(conn: ConnId) | ToEveryone

  datatype Emission = Emission(target: Target, event: Event)

  /** The connections an emission reaches, given the room memberships and the
      live connections. */
  function Recipients(rooms: set<(ConnId, Room)>, live: set<ConnId>, t: Target): (cs: set<ConnId>)
    ensures t.ToRoom? ==> forall c :: c in cs <==> (c, t.room) in rooms
    ensures t.ToRoomExcept? ==> forall c :: c in cs <==> (c, t.room) in rooms && c != t.except
    ensures t.ToSocket? ==> cs == {t.conn}
    ensures t.ToEveryone? ==> cs == live
  {
    match t
    case ToRoom(r) => set p | p in rooms && p.1 == r :: p.0
    case ToRoomExcept(r, x) => (set p | p in rooms && p.1 == r :: p.0) - {x}
    case ToSocket(c) => {c}
    case ToEveryone => live
  }

  /** Typing notices and read receipts never come back to the connection that
      caused them, and reach every other connection in the chat's room. */
  lemma RelayExcludesSender(rooms: set<(ConnId, Room)>, live: set<ConnId>, conn: ConnId, user: UserId, chatId: ChatId, isTyping: bool, isGroup: bool)
    ensures conn !in Recipients(rooms, live, TypingEmission(conn, user, chatId, isTyping, isGroup).target)
    ensures forall c :: c != conn && (c, ChatRoomOf(chatId, isGroup)) in rooms ==>
      c in Recipients(rooms, live, TypingEmission(conn, user, chatId, isTyping, isGroup).target)
  {
  }

  /** The rooms a freshly admitted connection joins: its user room, and its
      class room when the user has a class. */
  function InitialRooms(conn: ConnId, a: Actor): (rs: set<(ConnId, Room)>)
    ensures (conn, UserRoom(a.id)) in rs
    ensures forall cls: ClassId :: (conn, ClassRoom(cls)) in rs <==> a.cls == Some(cls)
    ensures forall p :: p in rs ==> p.0 == conn
  {
    if a.cls.Some? then {(conn, UserRoom(a.id)), (conn, ClassRoom(a.cls.value))} else {(conn, UserRoom(a.id))}
  }

  /** The room of a chat: `group:<id>` for a group chat, else `chat:<id>`. */
  function ChatRoomOf(chatId: ChatId, isGroup: bool): (r: Room)
    ensures r.GroupRoom? <==> isGroup
    ensures r == GroupRoom(chatId) || r == ChatRoom(chatId)
  {
    if isGroup then GroupRoom(chatId) else ChatRoom(chatId)
  }

  /** `typing`: relayed to the chat's room except the sender; nothing is
      stored. */
  function TypingEmission(conn: ConnId, user: UserId, chatId: ChatId, isTyping: bool, isGroup: bool): (e: Emission)
    ensures e.target == ToRoomExcept(ChatRoomOf(chatId, isGroup), conn)
    ensures e.event == UserTyping(chatId, user, isTyping)
  {
    Emission(ToRoomExcept(ChatRoomOf(chatId, isGroup), conn), UserTyping(chatId, user, isTyping))
  }

  /** One emission of a direct message to each listed participant's user room. */
  function FanOut(members: seq<UserId>, chatId: ChatId, msg: MessageId): (es: seq<Emission>)
    ensures |es| == |members|
    ensures forall i :: 0 <= i < |members| ==> es[i] == Emission(ToRoom(UserRoom(members[i])), DirectMessageEvent(chatId, msg))
  {
    seq(|members|, i requires 0 <= i < |members| => Emission(ToRoom(UserRoom(members[i])), DirectMessageEvent(chatId, msg)))
  }

  /** The `forEach` over a direct chat's participants, collecting what it
      emits. */
  method DirectEmissions(members: seq<UserId>, chatId: ChatId, msg: MessageId) returns (es: seq<Emission>)
    ensures es == FanOut(members, chatId, msg)
  {
    es := [];
    var i := 0;
    while i < |members|
      invariant 0 <= i <= |members|
      invariant es == FanOut(members[..i], chatId, msg)
    {
      es := es + [Emission(ToRoom(UserRoom(members[i])), DirectMessageEvent(chatId, msg))];
      i := i + 1;
    }
    assert members[..i] == members;
  }

  /** `chat.messages.id(messageId)`: the position of the first message with
      that id. */
  function MessageIndex(ms: seq<Message>, id: MessageId): (r: Option<nat>)
    ensures r.Some? ==> r.value < |ms| && ms[r.value].id == id
    ensures r.Some? ==> forall j :: 0 <= j < r.value ==> ms[j].id != id
    ensures r.None? <==> forall j :: 0 <= j < |ms| ==> ms[j].id != id
  {
    if ms == [] then None
    else if ms[0].id == id then Some(0)
    else match MessageIndex(ms[1..], id)
      case None =>
        assert forall j :: 1 <= j < |ms| ==> ms[j] == ms[1..][j - 1];
        None
      case Some(i) => Some(i + 1)
  }

  /** The single-message path of `mark-read`: a receipt is added when the
      reader has none, whoever sent the message. */
  function MarkOne(m: Message, u: UserId, now: Time): (r: Message)
    ensures HasReceipt(r, u)
    ensures HasReceipt(m, u) ==> r == m
    ensures !HasReceipt(m, u) ==> r.readBy == m.readBy + [Receipt(u, now)] && r.(readBy := m.readBy) == m
    ensures MessageOk(m) ==> MessageOk(r)
  {
    if HasReceipt(m, u) then m
    else
      var r := m.(readBy := m.readBy + [Receipt(u, now)]);
      assert r.readBy[|m.readBy|].user == u;
      assert forall i :: 0 <= i < |m.readBy| ==> r.readBy[i] == m.readBy[i];
      r
  }

  /** Because every stored message already carries its sender's receipt, the
      single-message path, which does not check the sender, agrees with the
      all-messages path on each message. */
  lemma MarkOneAgreesWithMarkRead(m: Message, u: UserId, now: Time)
    requires MessageOk(m)
    ensures MarkOne(m, u, now) == MarkRead(m, u, now)
  {
  }

  class Server {
    var conns: map<ConnId, UserId>
    var rooms: set<(ConnId, Room)>
    var outbox: seq<Emission>

    /** Every room member is a live connection, and every live connection is in
        its own user room. */
    ghost predicate Valid()
      reads this
    {
      (forall p :: p in rooms ==> p.0 in conns)
      && forall c :: c in conns ==> (c, UserRoom(conns[c])) in rooms
    }

    constructor()
      ensures Valid() && conns == map[] && rooms == {} && outbox == []
    {
      conns := map[];
      rooms := {};
      outbox := [];
    }

    /** The connection middleware and `connection` handler: the handshake token
        goes through `Directory.Authenticate`; an admitted connection records
        its user and joins `InitialRooms`. */
    method Connect(conn: ConnId, token: Option<string>, verify: string -> Option<UserId>, dir: Directory, now: Time)
      returns (r: Result<Actor>)
      requires Valid() && dir.Valid() && conn !in conns
      modifies this, dir
      ensures Valid() && dir.Valid()
      ensures r.Ok? <==> Gate(old(dir.users), token, verify).Admitted?
      ensures r.Err? ==> conns == old(conns) && rooms == old(rooms) && dir.users == old(dir.users)
      ensures r.Ok? ==> conns == old(conns)[conn := r.value.id] && rooms == old(rooms) + InitialRooms(conn, r.value)
      ensures outbox == old(outbox)
    {
      r := dir.Authenticate(token, verify, now);
      if r.Ok? {
        conns := conns[conn := r.value.id];
        rooms := rooms + InitialRooms(conn, r.value);
      }
    }

    /** `join-direct-chat` / `join-group-chat`: the connection joins the chat's
        room when a chat of that kind exists and its user takes part in it;
        otherwise an error goes back to the connection. */
    method JoinChat(conn: ConnId, chatId: ChatId, isGroup: bool, store: ChatStore)
      requires Valid() && conn in conns
      modifies this
      ensures Valid() && conns == old(conns)
      ensures var ok := chatId in store.chats && store.chats[chatId].Group? == isGroup && IsParticipant(store.chats[chatId], conns[conn]);
        (ok ==> rooms == old(rooms) + {(conn, ChatRoomOf(chatId, isGroup))} && outbox == old(outbox))
        && (!ok ==> rooms == old(rooms) && outbox == old(outbox) + [Emission(ToSocket(conn), ErrorEvent)])
    {
      if chatId !in store.chats || store.chats[chatId].Group? != isGroup || !IsParticipant(store.chats[chatId], conns[conn]) {
        outbox := outbox + [Emission(ToSocket(conn), ErrorEvent)];
        return;
      }
      rooms := rooms + {(conn, ChatRoomOf(chatId, isGroup))};
    }

    /** `send-direct-message`: the message is appended as by the HTTP handler,
        then emitted to the user room of each participant, in participant
        order; any failure sends an error back instead. */
    method SendDirect(conn: ConnId, chatId: ChatId, content: string, attachments: seq<string>, store: ChatStore, now: Time)
      returns (r: Result<MessageId>)
      requires Valid() && conn in conns && store.Valid()
      modifies this, store
      ensures Valid() && store.Valid() && conns == old(conns) && rooms == old(rooms)
      ensures r.Ok? <==> (chatId in old(store.chats) && old(store.chats)[chatId].Direct?
                          && IsParticipant(old(store.chats)[chatId], conns[conn]) && ValidContent(content))
      ensures r.Err? ==> store.chats == old(store.chats) && outbox == old(outbox) + [Emission(ToSocket(conn), ErrorEvent)]
      ensures r.Ok? ==> store.chats == old(store.chats)[chatId := Appended(old(store.chats)[chatId],
                          NewMessage(r.value, conns[conn], content, attachments, now), now)]
      ensures r.Ok? ==> outbox == old(outbox) + FanOut(old(store.chats)[chatId].members, chatId, r.value)
    {
      r := store.SendMessage(chatId, false, conns[conn], content, attachments, now);
      if r.Err? {
        outbox := outbox + [Emission(ToSocket(conn), ErrorEvent)];
        return;
      }
      var es := DirectEmissions(store.chats[chatId].members, chatId, r.value);
      outbox := outbox + es;
    }

    /** `send-group-message`: appended as by the HTTP handler, then emitted once
        to the group's room. */
    method SendGroup(conn: ConnId, chatId: ChatId, content: string, attachments: seq<string>, store: ChatStore, now: Time)
      returns (r: Result<MessageId>)
      requires Valid() && conn in conns && store.Valid()
      modifies this, store
      ensures Valid() && store.Valid() && conns == old(conns) && rooms == old(rooms)
      ensures r.Ok? <==> (chatId in old(store.chats) && old(store.chats)[chatId].Group?
                          && IsParticipant(old(store.chats)[chatId], conns[conn]) && ValidContent(content))
      ensures r.Err? ==> store.chats == old(store.chats) && outbox == old(outbox) + [Emission(ToSocket(conn), ErrorEvent)]
      ensures r.Ok? ==> store.chats == old(store.chats)[chatId := Appended(old(store.chats)[chatId],
                          NewMessage(r.value, conns[conn], content, attachments, now), now)]
      ensures r.Ok? ==> outbox == old(outbox) + [Emission(ToRoom(GroupRoom(chatId)), GroupMessageEvent(chatId, r.value))]
    {
      r := store.SendMessage(chatId, true, conns[conn], content, attachments, now);
      var e := if r.Ok? then Emission(ToRoom(GroupRoom(chatId)), GroupMessageEvent(chatId, r.value))
               else Emission(ToSocket(conn), ErrorEvent);
      outbox := outbox + [e];
    }

    /** `set-status`: the status is broadcast to every connection. */
    method SetStatus(conn: ConnId, status: string)
      requires Valid() && conn in conns
      modifies this
      ensures Valid() && conns == old(conns) && rooms == old(rooms)
      ensures outbox == old(outbox) + [Emission(ToEveryone, UserStatus(conns[conn], status))]
    {
      outbox := outbox + [Emission(ToEveryone, UserStatus(conns[conn], status))];
    }

    /** `disconnect`: the connection leaves every room and `offline` is
        broadcast for its user. */
    method Disconnect(conn: ConnId)
      requires Valid() && conn in conns
      modifies this
      ensures Valid()
      ensures conns == old(conns) - {conn}
      ensures rooms == set p | p in old(rooms) && p.0 != conn
      ensures outbox == old(outbox) + [Emission(ToEveryone, UserStatus(old(conns)[conn], "offline"))]
    {
      outbox := outbox + [Emission(ToEveryone, UserStatus(conns[conn], "offline"))];
      conns := conns - {conn};
      rooms := set p | p in rooms && p.0 != conn;
    }

    /** `typing`: one relayed notice; no chat is read or changed. */
    method Typing(conn: ConnId, chatId: ChatId, isTyping: bool, isGroup: bool)
      requires Valid() && conn in conns
      modifies this
      ensures Valid() && conns == old(conns) && rooms == old(rooms)
      ensures outbox == old(outbox) + [TypingEmission(conn, conns[conn], chatId, isTyping, isGroup)]
    {
      outbox := outbox + [TypingEmission(conn, conns[conn], chatId, isTyping, isGroup)];
    }

    /** `mark-read`: with a message id, that message gets the reader's receipt
        if it exists and lacks one; without, every message becomes `MarkRead` of
        itself. The chat is saved and `message-read` relayed to the chat's room
        (except the reader) only when a receipt was added. */
    method MarkRead(conn: ConnId, chatId: ChatId, messageId: Option<MessageId>, isGroup: bool, store: ChatStore, now: Time)
      returns (updated: bool)
      requires Valid() && conn in conns && store.Valid()
      modifies this, store
      ensures Valid() && store.Valid() && conns == old(conns) && rooms == old(rooms)
      ensures var u := conns[conn];
        var ok := chatId in old(store.chats) && old(store.chats)[chatId].Group? == isGroup && IsParticipant(old(store.chats)[chatId], u);
        (!ok ==> !updated && store.chats == old(store.chats) && outbox == old(outbox) + [Emission(ToSocket(conn), ErrorEvent)])
        && (ok ==> updated == (NewReceipts(old(store.chats)[chatId].messages, u, messageId, now) != old(store.chats)[chatId].messages))
        && (!updated ==> store.chats == old(store.chats))
        && (ok && updated ==>
              store.chats == old(store.chats)[chatId := WithMessages(old(store.chats)[chatId],
                NewReceipts(old(store.chats)[chatId].messages, u, messageId, now), old(store.chats)[chatId].lastMessage)]
              && outbox == old(outbox) + [Emission(ToRoomExcept(ChatRoomOf(chatId, isGroup), conn), MessageRead(chatId, messageId, u))])
        && (ok && !updated ==> outbox == old(outbox))
    {
      var u := conns[conn];
      if chatId !in store.chats || store.chats[chatId].Group? != isGroup || !IsParticipant(store.chats[chatId], u) {
        outbox := outbox + [Emission(ToSocket(conn), ErrorEvent)];
        return false;
      }
      var c := store.chats[chatId];
      var ms := c.messages;
      updated := false;
      if messageId.Some? {
        var k := MessageIndex(ms, messageId.value);
        if k.Some? && !HasReceipt(ms[k.value], u) {
          ms := ms[k.value := MarkOne(ms[k.value], u, now)];
          updated := true;
          assert ms[k.value] != c.messages[k.value] by {
            assert |ms[k.value].readBy| == |c.messages[k.value].readBy| + 1;
          }
        }
      } else {
        ms, updated := MarkEveryMessage(c.messages, u, now);
      }
      if updated {
        NewReceiptsKeepMessagesOk(c.messages, u, messageId, now);
        GroupOrDirectReplaced(store.chats, store.nextId, chatId, WithMessages(c, ms, c.lastMessage));
        store.chats := store.chats[chatId := WithMessages(c, ms, c.lastMessage)];
        outbox := outbox + [Emission(ToRoomExcept(ChatRoomOf(chatId, isGroup), conn), MessageRead(chatId, messageId, u))];
      }
    }
  }

  /** The messages after `mark-read`: the single message's receipt, or every
      unread message's. */
  function NewReceipts(ms: seq<Message>, u: UserId, messageId: Option<MessageId>, now: Time): (r: seq<Message>)
    ensures |r| == |ms|
  {
    if messageId.Some? then
      match MessageIndex(ms, messageId.value)
      case None => ms
      case Some(k) => ms[k := MarkOne(ms[k], u, now)]
    else MarkAllRead(ms, u, now)
  }

  /** Each path adds at most one receipt per message, only for the reader,
      and leaves the reader with a receipt on every message it touches. */
  lemma NewReceiptsAtMostOnce(ms: seq<Message>, u: UserId, messageId: Option<MessageId>, now: Time)
    ensures forall i :: 0 <= i < |ms| ==>
      NewReceipts(ms, u, messageId, now)[i] == ms[i]
      || NewReceipts(ms, u, messageId, now)[i] == ms[i].(readBy := ms[i].readBy + [Receipt(u, now)])
    ensures messageId.None? ==> forall i :: 0 <= i < |ms| ==> !UnreadBy(NewReceipts(ms, u, messageId, now)[i], u)
    ensures messageId.Some? && MessageIndex(ms, messageId.value).Some? ==>
      HasReceipt(NewReceipts(ms, u, messageId, now)[MessageIndex(ms, messageId.value).value], u)
  {
  }

  lemma NewReceiptsKeepMessagesOk(ms: seq<Message>, u: UserId, messageId: Option<MessageId>, now: Time)
    requires forall i :: 0 <= i < |ms| ==> MessageOk(ms[i])
    ensures forall i :: 0 <= i < |ms| ==> MessageOk(NewReceipts(ms, u, messageId, now)[i])
  {
  }

  /** Replacing a chat's messages by well-formed ones keeps the store well
      formed. */
  lemma GroupOrDirectReplaced(chats: map<ChatId, Chat>, nextId: nat, id: ChatId, d: Chat)
    requires StoreOk(chats, nextId) && id in chats
    requires d.Direct? == chats[id].Direct? && (d.Direct? ==> d.members == chats[id].members)
    requires forall i :: 0 <= i < |d.messages| ==> MessageOk(d.messages[i])
    ensures StoreOk(chats[id := d], nextId)
  {
  }
}
