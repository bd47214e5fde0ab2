/** The chat window: messages shown in runs of one calendar day, the send
    box, and the title of the open chat. The day a timestamp falls on comes
    from the browser's locale (`toLocaleDateString`) and is a parameter. */
module ChatWindow {
  import opened Common
  import opened Strings
  import opened ChatModel
  import opened ChatView
  import opened ContactList

  // ---- Grouping by date ----

  datatype DateGroup = DateGroup(date: string, messages: seq<Message>)

  /** The messages of the groups, one group after the other. */
  function Flatten(gs: seq<DateGroup>): seq<Message>
  {
    if gs == [] then [] else Flatten(gs[..|gs| - 1]) + gs[|gs| - 1].messages
  }

  /** Every group holds at least one message, all of its messages fall on the
      group's date, and neighbouring groups have different dates. */
  predicate WellGrouped(gs: seq<DateGroup>, dayOf: Time -> string)
  {
    (forall i :: 0 <= i < |gs| ==> gs[i].messages != [])
    && (forall i, m :: 0 <= i < |gs| && m in gs[i].messages ==> dayOf(m.createdAt) == gs[i].date)
    && (forall i :: 0 < i < |gs| ==> gs[i - 1].date != gs[i].date)
  }

  lemma FlattenSnoc(gs: seq<DateGroup>, g: DateGroup)
    ensures Flatten(gs + [g]) == Flatten(gs) + g.messages
  {
    assert (gs + [g])[..|gs|] == gs;
  }

  /** Closing a run of one date after groups of other dates keeps the
      grouping well formed. */
  lemma CloseRun(gs: seq<DateGroup>, date: string, run: seq<Message>, dayOf: Time -> string)
    requires WellGrouped(gs, dayOf) && run != []
    requires forall m :: m in run ==> dayOf(m.createdAt) == date
    requires gs != [] ==> gs[|gs| - 1].date != date
    ensures WellGrouped(gs + [DateGroup(date, run)], dayOf)
    ensures Flatten(gs + [DateGroup(date, run)]) == Flatten(gs) + run
  {
    FlattenSnoc(gs, DateGroup(date, run));
    var g := gs + [DateGroup(date, run)];
    forall i | 0 <= i < |g|
      ensures g[i].messages != []
    {
      if i < |gs| {
        assert g[i] == gs[i];
      }
    }
    forall i, m | 0 <= i < |g| && m in g[i].messages
      ensures dayOf(m.createdAt) == g[i].date
    {
      if i < |gs| {
        assert g[i] == gs[i];
      }
    }
    forall i | 0 < i < |g|
      ensures g[i - 1].date != g[i].date
    {
      assert g[i - 1] == gs[i - 1];
      if i < |gs| {
        assert g[i] == gs[i];
      }
    }
  }

  /** `groupMessagesByDate`: walks the messages keeping the date and the
      messages of the run in progress, and closes the run when the date
      changes and at the end. */
  method GroupMessagesByDate(ms: seq<Message>, dayOf: Time -> string) returns (groups: seq<DateGroup>)
    ensures Flatten(groups) == ms
    ensures WellGrouped(groups, dayOf)
    ensures groups == [] <==> ms == []
    ensures |groups| <= |ms|
  {
    if ms == [] {
      return [];
    }
    groups := [];
    var currentDate: Option<string> := None;
    var currentGroup: seq<Message> := [];
    var i := 0;
    while i < |ms|
      invariant 0 <= i <= |ms|
      invariant Flatten(groups) + currentGroup == ms[..i]
      invariant WellGrouped(groups, dayOf)
      invariant |groups| + (if currentGroup == [] then 0 else 1) <= i
      invariant i == 0 ==> groups == [] && currentGroup == [] && currentDate.None?
      invariant i > 0 ==> currentGroup != [] && currentDate.Some?
      invariant currentDate.Some? ==> forall m :: m in currentGroup ==> dayOf(m.createdAt) == currentDate.value
      invariant currentDate.Some? && groups != [] ==> groups[|groups| - 1].date != currentDate.value
    {
      var message := ms[i];
      var dateString := dayOf(message.createdAt);
      PrefixExtend(ms, i);
      if Some(dateString) != currentDate {
        if |currentGroup| > 0 {
          CloseRun(groups, currentDate.value, currentGroup, dayOf);
          groups := groups + [DateGroup(currentDate.value, currentGroup)];
        }
        currentDate := Some(dateString);
        currentGroup := [message];
      } else {
        currentGroup := currentGroup + [message];
      }
      i := i + 1;
    }
    assert ms[..i] == ms;
    if |currentGroup| > 0 {
      CloseRun(groups, currentDate.value, currentGroup, dayOf);
      groups := groups + [DateGroup(currentDate.value, currentGroup)];
    }
  }

  lemma PrefixExtend(ms: seq<Message>, i: nat)
    requires i < |ms|
    ensures ms[..i + 1] == ms[..i] + [ms[i]]
  {
  }

  lemma WellGroupedPrefix(gs: seq<DateGroup>, dayOf: Time -> string)
    requires WellGrouped(gs, dayOf) && gs != []
    ensures WellGrouped(gs[..|gs| - 1], dayOf)
  {
    var p := gs[..|gs| - 1];
    assert forall i :: 0 <= i < |p| ==> p[i] == gs[i];
  }

  /** The last message of a grouping falls on the date of its last group. */
  lemma LastMessageDate(gs: seq<DateGroup>, dayOf: Time -> string)
    requires WellGrouped(gs, dayOf) && gs != []
    ensures Flatten(gs) != []
    ensures dayOf(Flatten(gs)[|Flatten(gs)| - 1].createdAt) == gs[|gs| - 1].date
  {
    var last := gs[|gs| - 1].messages;
    assert Flatten(gs)[|Flatten(gs)| - 1] == last[|last| - 1];
    assert last[|last| - 1] in last;
  }

  /** The grouping is determined by the messages: two well-formed groupings
      of the same messages are the same, so the properties of
      `GroupMessagesByDate` fix its result. */
  lemma {:induction false} GroupingUnique(a: seq<DateGroup>, b: seq<DateGroup>, dayOf: Time -> string)
    requires WellGrouped(a, dayOf) && WellGrouped(b, dayOf) && Flatten(a) == Flatten(b)
    ensures a == b
    decreases |a|
  {
    if a == [] || b == [] {
      if a != [] {
        LastMessageDate(a, dayOf);
      }
      if b != [] {
        LastMessageDate(b, dayOf);
      }
      return;
    }
    var a', x := a[..|a| - 1], a[|a| - 1];
    var b', y := b[..|b| - 1], b[|b| - 1];
    var ms := Flatten(a);
    InitAndLast(a);
    InitAndLast(b);
    LastMessageDate(a, dayOf);
    LastMessageDate(b, dayOf);
    WellGroupedPrefix(a, dayOf);
    WellGroupedPrefix(b, dayOf);
    SplitAtLongerRun(a', x, y, Flatten(b'), ms, dayOf);
    SplitAtLongerRun(b', y, x, Flatten(a'), ms, dayOf);
    SameSplit(Flatten(a'), x.messages, Flatten(b'), y.messages);
    GroupingUnique(a', b', dayOf);
  }

  lemma InitAndLast(gs: seq<DateGroup>)
    requires gs != []
    ensures gs == gs[..|gs| - 1] + [gs[|gs| - 1]]
  {
  }

  /** Two splits of one sequence with tails of one length are the same split. */
  lemma SameSplit(p: seq<Message>, t: seq<Message>, p': seq<Message>, t': seq<Message>)
    requires p + t == p' + t' && |t| == |t'|
    ensures p == p' && t == t'
  {
    assert p == (p + t)[..|p|] && p' == (p' + t')[..|p'|];
    assert t == (p + t)[|p|..] && t' == (p' + t')[|p'|..];
  }

  /** A run cannot end inside a longer run of the other grouping, for the message
      then the message before the shorter run would close a group of another
      date and yet lie in the longer run, which has the shorter run's date. */
  lemma SplitAtLongerRun(a': seq<DateGroup>, x: DateGroup, y: DateGroup, rest: seq<Message>,
                         ms: seq<Message>, dayOf: Time -> string)
    requires WellGrouped(a' + [x], dayOf) && WellGrouped(a', dayOf)
    requires y.messages != [] && forall m :: m in y.messages ==> dayOf(m.createdAt) == y.date
    requires ms == Flatten(a') + x.messages && ms == rest + y.messages
    requires x.messages != [] && x.date == y.date
    ensures |y.messages| <= |x.messages|
  {
    if a' != [] {
      var k := |ms| - |x.messages| - 1;
      LastMessageDate(a', dayOf);
      assert ms[k] == Flatten(a')[|Flatten(a')| - 1];
      var g := a' + [x];
      assert g[|a'| - 1] == a'[|a'| - 1] && g[|a'|] == x;
      assert dayOf(ms[k].createdAt) != y.date;
      forall j | |rest| <= j < |ms|
        ensures dayOf(ms[j].createdAt) == y.date
      {
        assert ms[j] == y.messages[j - |rest|];
        assert ms[j] in y.messages;
      }
    }
  }

  // ---- Sending ----

  /** What pressing send does: the message handed to the page, if any, and
      what is left in the input box. */
  datatype Submission = Submission(sent: Option<string>, input: string)

  /** `handleSendMessage` of the window: a blank input is not sent and stays;
      anything else is handed over exactly as typed and the box is cleared. */
  function Submit(input: string): (r: Submission)
    ensures r.sent.Some? <==> !AllSpace(input)
    ensures r.sent.Some? ==> r.sent.value == input && r.input == ""
    ensures r.sent.None? ==> r.input == input
  {
    TrimEmptyIffAllSpace(input);
    if Trim(input) == "" then Submission(None, input) else Submission(Some(input), "")
  }

  /** Whatever the window hands over passes the server's content check. */
  lemma SubmittedContentValid(input: string)
    requires Submit(input).sent.Some?
    ensures ValidContent(Submit(input).sent.value)
  {
    TrimEmptyIffAllSpace(input);
  }

  // ---- Title ----

  /** `getChatTitle`: nothing without a chat; a group's name; for a direct
      chat the contact's name, or nothing when there is no contact. (A group
      without a name would fall through to its member records, which carry no
      `name`, and also give "".) */
  function ChatTitle(chat: Option<ChatView>, viewer: Option<UserId>): (r: string)
    ensures chat.None? ==> r == ""
    ensures chat.Some? && chat.value.GroupView? ==> r == chat.value.name
  {
    match chat
    case None => ""
    case Some(GroupView(_, name, _, _, _)) => name
    case Some(DirectView(_, ps, _, _)) =>
      var k := FirstOther(ps, viewer);
      if k.Some? then ps[k.value].name else ""
  }

  /** The window's title for a direct chat is the name the contact list shows
      for it, except that where the list falls back to "Unknown User" the
      title is empty. */
  lemma TitleMatchesContactList(c: ChatView, viewer: Option<UserId>)
    requires c.DirectView?
    ensures ChatTitle(Some(c), viewer) != "" ==> ChatTitle(Some(c), viewer) == DirectChatName(c, viewer)
    ensures ChatTitle(Some(c), viewer) == "" ==> DirectChatName(c, viewer) == "Unknown User"
  {
  }
}
