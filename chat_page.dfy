/** The chat page: the lists of direct and group chats held by the browser,
    the open chat, the users picked for a new group, and the socket events the
    page emits. Requests to the HTTP endpoints are replaced by their
    responses, given as parameters. */
module ChatPage {
  import opened Common
  import opened Strings
  import opened Seqs
  import opened ChatModel
  import opened ChatView
  import opened ContactList

  /** The socket events the page emits. */
  datatype ClientEvent =
    | JoinDirectChat(chatId: ChatId)
    | JoinGroupChat(chatId: ChatId)
    | MarkReadRequest(chatId: ChatId, messageId: Option<MessageId>, isGroupChat: bool)
    | SendDirectMessage(chatId: ChatId, content: string)
    | SendGroupMessage(chatId: ChatId, content: string)

  // ---- Telling the two kinds of chat apart ----

  /** `!!chat.participants`: both kinds of chat carry a `participants` array
      (users in a direct chat, member records in a group), and an array is
      truthy even when empty. */
  predicate HasParticipants(c: ChatView)
  {
    match c
    case DirectView(_, _, _, _) => true
    case GroupView(_, _, _, _, _) => true
  }

  /** The page's test for a group chat, as written: `!chat.participants`. */
  predicate IsGroupAsWritten(c: ChatView)
  {
    !HasParticipants(c)
  }

  /** The test the page needs: the chat is a group. */
  predicate IsGroup(c: ChatView)
  {
    c.GroupView?
  }

  /** As written, no chat is ever taken for a group: an open group is
      joined, read and written to as if it were a direct chat. */
  lemma NoChatIsGroupAsWritten(c: ChatView)
    ensures !IsGroupAsWritten(c)
    ensures IsGroupAsWritten(c) != IsGroup(c) <==> c.GroupView?
  {
  }

  // ---- Sending ----

  /** `handleSendMessage` as written: nothing without a socket, an open chat
      or non-blank content; otherwise a direct message when the chat has
      `participants`, a group message when it has not. */
  function SendEventAsWritten(connected: bool, active: Option<ChatView>, content: string): (e: Option<ClientEvent>)
    ensures e.Some? <==> connected && active.Some? && !AllSpace(content)
  {
    TrimEmptyIffAllSpace(content);
    if !connected || active.None? || Trim(content) == "" then None
    else
      var c := active.value;
      Some(if HasParticipants(c) then SendDirectMessage(c.id, content) else SendGroupMessage(c.id, content))
  }

  /** An open group with something to say emits `send-direct-message`, which
      the server answers with an error because no direct chat has that id. */
  lemma GroupMessageSentAsDirect(id: ChatId, name: string, members: seq<Person>, ms: seq<Message>, t: Time)
    ensures SendEventAsWritten(true, Some(GroupView(id, name, members, ms, t)), "hello")
      == Some(SendDirectMessage(id, "hello"))
  {
    assert !AllSpace("hello") by {
      assert !IsSpace("hello"[0]);
    }
  }

  /** `handleSendMessage` with the kind of the open chat deciding the event:
      nothing without a socket, an open chat or non-blank content; the
      content as typed, to the direct or the group event of the open chat. */
  function SendEvent(connected: bool, active: Option<ChatView>, content: string): (e: Option<ClientEvent>)
    ensures e.Some? <==> connected && active.Some? && !AllSpace(content)
    ensures e.Some? && active.value.DirectView? ==> e.value == SendDirectMessage(active.value.id, content)
    ensures e.Some? && active.value.GroupView? ==> e.value == SendGroupMessage(active.value.id, content)
  {
    TrimEmptyIffAllSpace(content);
    if !connected || active.None? || Trim(content) == "" then None
    else if IsGroup(active.value) then Some(SendGroupMessage(active.value.id, content))
    else Some(SendDirectMessage(active.value.id, content))
  }

  /** The two agree on direct chats and disagree on every group. */
  lemma SendRoutingDiffersOnGroupsOnly(connected: bool, c: ChatView, content: string)
    requires connected && !AllSpace(content)
    ensures SendEventAsWritten(connected, Some(c), content) == SendEvent(connected, Some(c), content) <==> c.DirectView?
  {
  }

  /** Everything the page sends passes the server's content check. */
  lemma SentContentValid(connected: bool, active: Option<ChatView>, content: string)
    requires SendEvent(connected, active, content).Some?
    ensures ValidContent(content)
  {
    TrimEmptyIffAllSpace(content);
  }

  // ---- Incoming messages ----

  /** One chat after `message` arrived for it: the message at the tail and
      the time of arrival as its last activity. */
  function Received(c: ChatView, m: Message, now: Time): (d: ChatView)
    ensures d.id == c.id && d.messages == c.messages + [m] && d.lastMessage == now
    ensures d.DirectView? <==> c.DirectView?
  {
    c.(messages := c.messages + [m], lastMessage := now)
  }

  /** `handleNewMessage` on one list: every chat with the message's chat id
      receives it, every other chat is left as it was. */
  function WithIncoming(chats: seq<ChatView>, chatId: ChatId, m: Message, now: Time): (r: seq<ChatView>)
    ensures |r| == |chats|
    ensures forall i :: 0 <= i < |chats| ==> r[i].id == chats[i].id && (r[i].GroupView? <==> chats[i].GroupView?)
    ensures forall i :: 0 <= i < |chats| && chats[i].id != chatId ==> r[i] == chats[i]
    ensures forall i :: 0 <= i < |chats| && chats[i].id == chatId ==> r[i] == Received(chats[i], m, now)
  {
    seq(|chats|, i requires 0 <= i < |chats| => if chats[i].id == chatId then Received(chats[i], m, now) else chats[i])
  }

  /** A received message is what the contact list previews next. */
  lemma ReceivedIsPreviewed(c: ChatView, m: Message, now: Time)
    ensures LastMessagePreview(Received(c, m, now)) ==
      if m.attachments != [] then AttachmentLabel
      else if |m.content| > PreviewLength then m.content[..PreviewLength] + "..."
      else m.content
  {
  }

  /** A received message raises the unread count by one exactly when it is
      unread for the user, and leaves it otherwise. */
  lemma ReceivedUnreadCount(c: ChatView, m: Message, now: Time, viewer: Option<UserId>)
    ensures CountUnreadMessages(Received(c, m, now), viewer) ==
      CountUnreadMessages(c, viewer) + (if Unread(m, viewer) then 1 else 0)
  {
    FilterAppend(c.messages, [m], (x: Message) => Unread(x, viewer));
    assert [m][1..] == [];
  }

  // ---- Adding a chat ----

  predicate Listed(chats: seq<ChatView>, id: ChatId)
  {
    exists i :: 0 <= i < |chats| && chats[i].id == id
  }

  predicate IdsDistinct(chats: seq<ChatView>)
  {
    forall i, j :: 0 <= i < j < |chats| ==> chats[i].id != chats[j].id
  }

  /** `handleCreateDirectChat`'s list update: the chat is appended only when
      no listed chat has its id. */
  function WithChat(chats: seq<ChatView>, c: ChatView): (r: seq<ChatView>)
    ensures Listed(chats, c.id) ==> r == chats
    ensures !Listed(chats, c.id) ==> r == chats + [c]
    ensures Listed(r, c.id)
  {
    if Listed(chats, c.id) then chats
    else
      assert (chats + [c])[|chats|] == c;
      chats + [c]
  }

  /** Adding keeps the listed ids distinct, and adding the same chat again
      changes nothing. */
  lemma WithChatProperties(chats: seq<ChatView>, c: ChatView)
    ensures IdsDistinct(chats) ==> IdsDistinct(WithChat(chats, c))
    ensures WithChat(WithChat(chats, c), c) == WithChat(chats, c)
  {
  }

  // ---- Picking the members of a new group ----

  predicate Selected(sel: seq<Person>, id: UserId)
  {
    exists i :: 0 <= i < |sel| && sel[i].id == id
  }

  function Unselected(sel: seq<Person>, id: UserId): seq<Person>
  {
    Filter(sel, (p: Person) => p.id != id)
  }

  /** `toggleUserSelection`: a selected user is removed (every entry with that
      id), an unselected one is appended. */
  function Toggled(sel: seq<Person>, u: Person): (r: seq<Person>)
    ensures Selected(sel, u.id) ==> !Selected(r, u.id) && forall p :: p in r <==> p in sel && p.id != u.id
    ensures !Selected(sel, u.id) ==> r == sel + [u]
  {
    if Selected(sel, u.id) then
      var r := Unselected(sel, u.id);
      assert forall i :: 0 <= i < |r| ==> r[i] in r;
      r
    else sel + [u]
  }

  /** Picking a user and dropping them again restores the selection. */
  lemma ToggleTwiceRestores(sel: seq<Person>, u: Person)
    requires !Selected(sel, u.id)
    ensures Toggled(Toggled(sel, u), u) == sel
  {
    assert (sel + [u])[|sel|] == u;
    FilterAppend(sel, [u], (p: Person) => p.id != u.id);
    FilterAll(sel, (p: Person) => p.id != u.id);
    assert [u][1..] == [];
  }

  /** Dropping a picked user and picking them again leaves the same people
      picked (the user moves to the end, and duplicates of them collapse). */
  lemma ToggleTwiceFromSelected(sel: seq<Person>, u: Person)
    requires Selected(sel, u.id)
    ensures Selected(Toggled(Toggled(sel, u), u), u.id)
    ensures forall p :: p in Toggled(Toggled(sel, u), u) <==> (p in sel && p.id != u.id) || p == u
  {
    var r := Toggled(sel, u);
    assert (r + [u])[|r|] == u;
  }

  /** The request `handleCreateGroupChat` posts: the name as typed and the
      ids of the picked users. */
  datatype GroupRequest = GroupRequest(name: string, participantIds: seq<UserId>)

  function Ids(sel: seq<Person>): (r: seq<UserId>)
    ensures |r| == |sel| && forall i :: 0 <= i < |sel| ==> r[i] == sel[i].id
  {
    seq(|sel|, i requires 0 <= i < |sel| => sel[i].id)
  }

  /** `handleCreateGroupChat`'s guard: a non-blank name and at least one
      picked user, else nothing is posted. */
  function NewGroupRequest(name: string, sel: seq<Person>): (r: Option<GroupRequest>)
    ensures r.Some? <==> !AllSpace(name) && sel != []
    ensures r.Some? ==> r.value.name == name && r.value.participantIds == Ids(sel)
  {
    TrimEmptyIffAllSpace(name);
    if Trim(name) == "" || sel == [] then None else Some(GroupRequest(name, Ids(sel)))
  }

  /** A posted request never meets the server's refusals of an empty list
      (400) or a blank name (500). */
  lemma GroupRequestPassesServerChecks(name: string, sel: seq<Person>)
    requires NewGroupRequest(name, sel).Some?
    ensures NewGroupRequest(name, sel).value.participantIds != []
    ensures Trim(NewGroupRequest(name, sel).value.name) != ""
  {
    TrimEmptyIffAllSpace(name);
  }

  // ---- Opening a chat ----

  /** What the page's `activeChat` effect emits, as written, for a newly
      opened chat: a join of the chat's room, then a request to mark all of
      it read, both chosen by `activeChat.participants`. Every chat has them,
      so every chat is joined and read as a direct one. */
  function OpenEventsAsWritten(c: ChatView): (es: seq<ClientEvent>)
    ensures es == [JoinDirectChat(c.id), MarkReadRequest(c.id, None, false)]
  {
    [if HasParticipants(c) then JoinDirectChat(c.id) else JoinGroupChat(c.id), MarkReadRequest(c.id, None, IsGroupAsWritten(c))]
  }

  /** Opening a group with a socket emits `join-direct-chat` and a
      `mark-read` with `isGroupChat: false`; the server finds no direct chat
      with that id, so the group's room is never joined from this page. */
  lemma GroupOpenedAsDirect(id: ChatId, name: string, members: seq<Person>, ms: seq<Message>, t: Time)
    ensures OpenEventsAsWritten(GroupView(id, name, members, ms, t))
      == [JoinDirectChat(id), MarkReadRequest(id, None, false)]
    ensures OpenEventsAsWritten(GroupView(id, name, members, ms, t))
      != OpenEvents(GroupView(id, name, members, ms, t))
  {
  }

  /** The effect with the kind of the chat deciding: a direct chat is joined
      and read as direct, a group as a group. */
  function OpenEvents(c: ChatView): (es: seq<ClientEvent>)
    ensures c.DirectView? ==> es == [JoinDirectChat(c.id), MarkReadRequest(c.id, None, false)]
    ensures c.GroupView? ==> es == [JoinGroupChat(c.id), MarkReadRequest(c.id, None, true)]
  {
    [if IsGroup(c) then JoinGroupChat(c.id) else JoinDirectChat(c.id), MarkReadRequest(c.id, None, IsGroup(c))]
  }

  /** The effect as written and the corrected one agree on direct chats and
      disagree on every group. */
  lemma OpenEventsDifferOnGroupsOnly(c: ChatView)
    ensures OpenEventsAsWritten(c) == OpenEvents(c) <==> c.DirectView?
  {
  }

  /** The message listeners are registered once, on mount, so they keep the
      first render's state: no open chat (and no socket). As registered, a
      message for the open chat therefore never reaches it: the open chat
      stays without the message that the lists received. */
  lemma StaleListenerMissesOpenChat(c: ChatView, m: Message, now: Time)
    ensures Received(c, m, now) != c
    ensures |Received(c, m, now).messages| == |c.messages| + 1
  {
  }

  // ---- The page ----

  class ChatPage {
    var user: Option<UserId>
    var connected: bool
    var directChats: seq<ChatView>
    var groupChats: seq<ChatView>
    var activeChat: Option<ChatView>
    var selectedUsers: seq<Person>
    var groupName: string

    /** The lists hold chats of their own kind, and no direct chat twice. */
    ghost predicate Valid()
      reads this
    {
      (forall c :: c in directChats ==> c.DirectView?)
      && (forall c :: c in groupChats ==> c.GroupView?)
      && IdsDistinct(directChats)
    }

    /** The page before anything has loaded. */
    constructor ()
      ensures Valid()
      ensures user.None? && !connected && directChats == [] && groupChats == []
      ensures activeChat.None? && selectedUsers == [] && groupName == ""
    {
      user := None;
      connected := false;
      directChats := [];
      groupChats := [];
      activeChat := None;
      selectedUsers := [];
      groupName := "";
    }

    /** `fetchData`: the user and both lists from the endpoints, then the
        socket. The new socket makes the `activeChat` effect run, which emits
        its events when a chat is already open. */
    method Load(me: UserId, directs: seq<ChatView>, groups: seq<ChatView>) returns (events: seq<ClientEvent>)
      requires Valid()
      requires (forall c :: c in directs ==> c.DirectView?) && IdsDistinct(directs)
      requires forall c :: c in groups ==> c.GroupView?
      modifies this
      ensures Valid()
      ensures user == Some(me) && connected && directChats == directs && groupChats == groups
      ensures activeChat == old(activeChat) && selectedUsers == old(selectedUsers) && groupName == old(groupName)
      ensures activeChat.None? ==> events == []
      ensures activeChat.Some? ==> events == OpenEventsAsWritten(activeChat.value)
    {
      user := Some(me);
      directChats := directs;
      groupChats := groups;
      connected := true;
      events := if activeChat.Some? then OpenEventsAsWritten(activeChat.value) else [];
    }

    /** `handleSelectChat`: the chat opens. With a socket, the `activeChat`
        effect then joins the chat's room and asks for its messages to be
        marked read, as `OpenEventsAsWritten` does; React skips an update to
        the chat already open, and the effect with it. */
    method SelectChat(c: ChatView) returns (events: seq<ClientEvent>)
      requires Valid()
      modifies this
      ensures Valid() && activeChat == Some(c)
      ensures unchanged(this`directChats) && unchanged(this`groupChats) && unchanged(this`selectedUsers)
      ensures !connected || old(activeChat) == Some(c) ==> events == []
      ensures connected && old(activeChat) != Some(c) ==> events == [JoinDirectChat(c.id), MarkReadRequest(c.id, None, false)]
    {
      var reopened := activeChat == Some(c);
      activeChat := Some(c);
      if !connected || reopened {
        return [];
      }
      events := OpenEventsAsWritten(c);
    }

    /** `handleNewMessage` as registered: the listener was created on mount,
        when no chat was open and there was no socket, so only the two lists,
        updated through their functional setters, receive the message; the
        open chat is left as it was and nothing is emitted. */
    method HandleNewMessage(chatId: ChatId, m: Message, now: Time)
      requires Valid()
      modifies this
      ensures Valid()
      ensures directChats == WithIncoming(old(directChats), chatId, m, now)
      ensures groupChats == WithIncoming(old(groupChats), chatId, m, now)
      ensures activeChat == old(activeChat)
      ensures selectedUsers == old(selectedUsers) && groupName == old(groupName)
    {
      ReceiveIntoLists(chatId, m, now);
    }

    /** `handleNewMessage` as intended: both lists and the open chat receive
        the message when their id matches; a message for the open chat is
        marked read at once. */
    method HandleNewMessageIntended(chatId: ChatId, m: Message, now: Time) returns (events: seq<ClientEvent>)
      requires Valid()
      modifies this
      ensures Valid()
      ensures directChats == WithIncoming(old(directChats), chatId, m, now)
      ensures groupChats == WithIncoming(old(groupChats), chatId, m, now)
      ensures old(activeChat).Some? && old(activeChat).value.id == chatId ==>
        activeChat == Some(Received(old(activeChat).value, m, now))
        && events == [MarkReadRequest(chatId, Some(m.id), IsGroup(old(activeChat).value))]
      ensures !(old(activeChat).Some? && old(activeChat).value.id == chatId) ==>
        activeChat == old(activeChat) && events == []
      ensures selectedUsers == old(selectedUsers) && groupName == old(groupName)
    {
      ReceiveIntoLists(chatId, m, now);
      events := [];
      if activeChat.Some? && activeChat.value.id == chatId {
        var prev := activeChat.value;
        activeChat := Some(Received(prev, m, now));
        events := [MarkReadRequest(chatId, Some(m.id), IsGroup(prev))];
      }
    }

    /** The two list updates of `handleNewMessage`. */
    method ReceiveIntoLists(chatId: ChatId, m: Message, now: Time)
      requires Valid()
      modifies this
      ensures Valid()
      ensures directChats == WithIncoming(old(directChats), chatId, m, now)
      ensures groupChats == WithIncoming(old(groupChats), chatId, m, now)
      ensures activeChat == old(activeChat)
      ensures connected == old(connected) && user == old(user)
      ensures selectedUsers == old(selectedUsers) && groupName == old(groupName)
    {
      var ds := WithIncoming(directChats, chatId, m, now);
      assert forall i :: 0 <= i < |ds| ==> ds[i].id == directChats[i].id;
      directChats := ds;
      var gs := WithIncoming(groupChats, chatId, m, now);
      assert forall c :: c in gs ==> c.GroupView? by {
        forall c | c in gs
          ensures c.GroupView?
        {
          var i :| 0 <= i < |gs| && gs[i] == c;
          assert groupChats[i] in groupChats;
        }
      }
      groupChats := gs;
    }

    /** `handleSendMessage`: emits the event of `SendEventAsWritten`, so an
        open group is written to with `send-direct-message`; the page's own
        state does not change. */
    method HandleSendMessage(content: string) returns (e: Option<ClientEvent>)
      ensures e.Some? <==> connected && activeChat.Some? && !AllSpace(content)
      ensures e.Some? ==> e.value == SendDirectMessage(activeChat.value.id, content)
      ensures e == SendEventAsWritten(connected, activeChat, content)
    {
      e := SendEventAsWritten(connected, activeChat, content);
    }

    /** `handleCreateDirectChat` once the endpoint answered: the chat joins
        the list unless listed, and is opened; the answer is a new object, so
        with a socket the `activeChat` effect joins it and asks for it to be
        read. A failed
        request changes nothing. */
    method CreateDirectChat(response: Option<ChatView>) returns (events: seq<ClientEvent>)
      requires Valid()
      requires response.Some? ==> response.value.DirectView?
      modifies this
      ensures Valid()
      ensures response.None? ==> unchanged(this) && events == []
      ensures response.Some? ==>
        directChats == WithChat(old(directChats), response.value) && activeChat == response
      ensures response.Some? && connected ==> events == OpenEventsAsWritten(response.value)
      ensures !connected ==> events == []
      ensures groupChats == old(groupChats) && selectedUsers == old(selectedUsers) && groupName == old(groupName)
    {
      events := [];
      if response.Some? {
        WithChatProperties(directChats, response.value);
        directChats := WithChat(directChats, response.value);
        activeChat := response;
        if connected {
          events := OpenEventsAsWritten(response.value);
        }
      }
    }

    /** `toggleUserSelection`. */
    method ToggleUserSelection(u: Person)
      requires Valid()
      modifies this
      ensures Valid()
      ensures selectedUsers == Toggled(old(selectedUsers), u)
      ensures directChats == old(directChats) && groupChats == old(groupChats) && activeChat == old(activeChat)
    {
      selectedUsers := Toggled(selectedUsers, u);
    }

    /** `handleCreateGroupChat`: the request the guard lets through, if any;
        the new group, once the endpoint answered, is appended and opened,
        while the picked users and the typed name are kept. With a socket
        the `activeChat` effect then joins and reads the group as a direct
        chat, as `OpenEventsAsWritten` does. */
    method CreateGroupChat(response: Option<ChatView>) returns (request: Option<GroupRequest>, events: seq<ClientEvent>)
      requires Valid()
      requires response.Some? ==> response.value.GroupView?
      modifies this
      ensures Valid()
      ensures request == NewGroupRequest(old(groupName), old(selectedUsers))
      ensures request.Some? && response.Some? ==>
        groupChats == old(groupChats) + [response.value] && activeChat == response
      ensures request.Some? && response.Some? && connected ==> events == OpenEventsAsWritten(response.value)
      ensures !(request.Some? && response.Some? && connected) ==> events == []
      ensures !(request.Some? && response.Some?) ==> unchanged(this)
      ensures directChats == old(directChats) && selectedUsers == old(selectedUsers) && groupName == old(groupName)
    {
      request := NewGroupRequest(groupName, selectedUsers);
      events := [];
      if request.Some? && response.Some? {
        groupChats := groupChats + [response.value];
        activeChat := response;
        if connected {
          events := OpenEventsAsWritten(response.value);
        }
      }
    }
  }
}
