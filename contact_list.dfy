/** The contact list of the chat page: the search filters over direct and
    group chats, the unread badge and the last-message preview. */
module ContactList {
  import opened Common
  import opened Strings
  import opened Seqs
  import opened ChatModel
  import opened ChatView

  // ---- Unread messages ----

  /** `msg.sender._id !== user?._id && !msg.readBy.some(read => read.user ===
      user?._id)`: someone else sent it and the user left no receipt. With
      nobody signed in both tests compare against `undefined`. */
  predicate Unread(m: Message, viewer: Option<UserId>)
  {
    Some(m.sender) != viewer && !(exists i :: 0 <= i < |m.readBy| && Some(m.readBy[i].user) == viewer)
  }

  function UnreadMessages(ms: seq<Message>, viewer: Option<UserId>): seq<Message>
  {
    Filter(ms, (m: Message) => Unread(m, viewer))
  }

  /** `countUnreadMessages`: the length of the unread filter. */
  function CountUnreadMessages(c: ChatView, viewer: Option<UserId>): (n: nat)
    ensures n <= |c.messages|
    ensures n == 0 <==> forall i :: 0 <= i < |c.messages| ==> !Unread(c.messages[i], viewer)
  {
    var r := UnreadMessages(c.messages, viewer);
    assert r != [] ==> r[0] in r;
    assert forall i :: 0 <= i < |c.messages| && Unread(c.messages[i], viewer) ==> c.messages[i] in r;
    |r|
  }

  /** `hasUnreadMessages`: false for a chat without messages, otherwise
      whether `some` message is unread. */
  predicate HasUnreadMessages(c: ChatView, viewer: Option<UserId>)
  {
    c.messages != [] && exists i :: 0 <= i < |c.messages| && Unread(c.messages[i], viewer)
  }

  /** The badge and the count agree: a chat has unread messages exactly when
      the count is positive. */
  lemma HasUnreadIffCount(c: ChatView, viewer: Option<UserId>)
    ensures HasUnreadMessages(c, viewer) <==> CountUnreadMessages(c, viewer) > 0
  {
  }

  /** For a signed-in user the client's count is the server's notion of
      unread (`UnreadBy`) counted over the chat's messages. */
  lemma {:induction false} CountAgreesWithServer(ms: seq<Message>, u: UserId)
    ensures |UnreadMessages(ms, Some(u))| == ChatModel.CountUnread(ms, u)
  {
    if ms != [] {
      CountAgreesWithServer(ms[1..], u);
      assert Unread(ms[0], Some(u)) <==> UnreadBy(ms[0], u);
    }
  }

  /** Before the user is known every message counts as unread. */
  lemma SignedOutCountsAll(c: ChatView)
    ensures CountUnreadMessages(c, None) == |c.messages|
  {
    FilterAll(c.messages, (m: Message) => Unread(m, None));
  }

  /** Messages stored by the server carry their sender's receipt, so for them
      the sender test adds nothing: unread means "no receipt of mine". */
  lemma SenderTestRedundant(m: Message, u: UserId)
    requires HasReceipt(m, m.sender)
    ensures Unread(m, Some(u)) <==> !HasReceipt(m, u)
  {
  }

  // ---- Preview ----

  const NoMessagesYet := "No messages yet"
  const AttachmentLabel := "\U{1F4CE} Attachment"
  const PreviewLength := 30

  /** `getLastMessagePreview`: a placeholder for an empty chat, a label when
      the last message has attachments, otherwise its content cut to 30
      characters followed by "..." when longer. */
  function LastMessagePreview(c: ChatView): (r: string)
    ensures c.messages == [] ==> r == NoMessagesYet
    ensures c.messages != [] && c.messages[|c.messages| - 1].attachments != [] ==> r == AttachmentLabel
  {
    if c.messages == [] then NoMessagesYet
    else
      var last := c.messages[|c.messages| - 1];
      if last.attachments != [] then AttachmentLabel
      else if |last.content| > PreviewLength then last.content[..PreviewLength] + "..."
      else last.content
  }

  /** A text preview is the whole content when it fits, and otherwise its
      first 30 characters and an ellipsis: never more than 33 characters, and
      always starting with the start of the content. */
  lemma TextPreview(c: ChatView)
    requires c.messages != [] && c.messages[|c.messages| - 1].attachments == []
    ensures var t := c.messages[|c.messages| - 1].content;
      var r := LastMessagePreview(c);
      |r| <= PreviewLength + 3
      && (|t| <= PreviewLength ==> r == t)
      && (|t| > PreviewLength ==> |r| == PreviewLength + 3 && r[..PreviewLength] == t[..PreviewLength] && r[PreviewLength..] == "...")
  {
  }

  // ---- Names and search ----

  /** `getDirectChatName`: the contact's name, or "Unknown User" when it is
      missing or empty. */
  function DirectChatName(c: ChatView, viewer: Option<UserId>): (r: string)
    requires c.DirectView?
    ensures r != ""
    ensures var k := FirstOther(c.participants, viewer);
      k.Some? && c.participants[k.value].name != "" ==> r == c.participants[k.value].name
  {
    var k := FirstOther(c.participants, viewer);
    if k.Some? && c.participants[k.value].name != "" then c.participants[k.value].name else "Unknown User"
  }

  /** The direct-chat search: the contact's name contains the term, ignoring
      case. A chat without a contact has no name to match and is dropped. */
  predicate DirectMatches(c: ChatView, viewer: Option<UserId>, term: string)
  {
    c.DirectView? &&
    var k := FirstOther(c.participants, viewer);
    k.Some? && Contains(ToLower(c.participants[k.value].name), ToLower(term))
  }

  /** The group-chat search: the group's name contains the term, ignoring case. */
  predicate GroupMatches(c: ChatView, term: string)
  {
    c.GroupView? && Contains(ToLower(c.name), ToLower(term))
  }

  /** `filteredDirectChats`. */
  function FilterDirectChats(chats: seq<ChatView>, viewer: Option<UserId>, term: string): (r: seq<ChatView>)
    requires forall c :: c in chats ==> c.DirectView?
    ensures forall c :: c in r <==> c in chats && DirectMatches(c, viewer, term)
    ensures |r| <= |chats|
  {
    Filter(chats, (c: ChatView) => DirectMatches(c, viewer, term))
  }

  /** `filteredGroupChats`. */
  function FilterGroupChats(chats: seq<ChatView>, term: string): (r: seq<ChatView>)
    requires forall c :: c in chats ==> c.GroupView?
    ensures forall c :: c in r <==> c in chats && GroupMatches(c, term)
    ensures |r| <= |chats|
  {
    Filter(chats, (c: ChatView) => GroupMatches(c, term))
  }

  /** An empty search keeps every group chat, in order. */
  lemma EmptySearchKeepsGroups(chats: seq<ChatView>)
    requires forall c :: c in chats ==> c.GroupView?
    ensures FilterGroupChats(chats, "") == chats
  {
    forall c | c in chats
      ensures GroupMatches(c, "")
    {
      ContainsEmpty(ToLower(c.name));
    }
    FilterAll(chats, (c: ChatView) => GroupMatches(c, ""));
  }

  /** An empty search keeps exactly the direct chats that have a contact. */
  lemma EmptySearchKeepsContacts(chats: seq<ChatView>, viewer: Option<UserId>)
    requires forall c :: c in chats ==> c.DirectView?
    ensures forall c :: c in FilterDirectChats(chats, viewer, "") <==>
      c in chats && FirstOther(c.participants, viewer).Some?
  {
    forall c | c in chats && FirstOther(c.participants, viewer).Some?
      ensures DirectMatches(c, viewer, "")
    {
      ContainsEmpty(ToLower(c.participants[FirstOther(c.participants, viewer).value].name));
    }
  }

  /** The search ignores the case of the term: searching for its lower-case
      form gives the same list. */
  lemma GroupSearchIgnoresCase(chats: seq<ChatView>, term: string)
    requires forall c :: c in chats ==> c.GroupView?
    ensures FilterGroupChats(chats, ToLower(term)) == FilterGroupChats(chats, term)
  {
    ToLowerIdempotent(term);
    FilterSame(chats, (c: ChatView) => GroupMatches(c, ToLower(term)), (c: ChatView) => GroupMatches(c, term));
  }

  /** A group is found by its own name, typed in any case. */
  lemma GroupFoundByName(c: ChatView)
    requires c.GroupView?
    ensures GroupMatches(c, c.name)
  {
    ContainsSelf(ToLower(c.name));
  }
}
