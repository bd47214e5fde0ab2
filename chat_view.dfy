/** Chats as the browser holds them: the JSON of the chat endpoints, with the
    participants of a direct chat populated to users (`_id`, `name`) and the
    members of a group listed by their populated user. */
module ChatView {
  import opened Common
  import opened ChatModel

  /** A populated user: its `_id` and `name`. */
  datatype Person = Person(id: UserId, name: string)

  datatype ChatView =
    | DirectView(id: ChatId, participants: seq<Person>, messages: seq<Message>, lastMessage: Time)
    | GroupView(id: ChatId, name: string, members: seq<Person>, messages: seq<Message>, lastMessage: Time)

  /** `participants.find(p => p._id !== user?._id)`, as a position: the first
      participant whose id is not the signed-in user's. With nobody signed in
      (`user` still `null`) every id differs, so the first participant is
      found. */
  function FirstOther(ps: seq<Person>, viewer: Option<UserId>): (r: Option<nat>)
    ensures r.Some? ==> r.value < |ps| && Some(ps[r.value].id) != viewer
    ensures r.Some? ==> forall j :: 0 <= j < r.value ==> Some(ps[j].id) == viewer
    ensures r.None? <==> forall j :: 0 <= j < |ps| ==> Some(ps[j].id) == viewer
  {
    if ps == [] then None
    else if Some(ps[0].id) != viewer then Some(0)
    else match FirstOther(ps[1..], viewer)
      case None =>
        assert forall j :: 1 <= j < |ps| ==> ps[j] == ps[1..][j - 1];
        None
      case Some(i) => Some(i + 1)
  }

  /** In the two-person list of a direct chat, the signed-in user's contact
      is the participant who is not the user, whichever order they are in. */
  lemma {:induction false} OtherOfPair(me: Person, them: Person)
    requires me.id != them.id
    ensures FirstOther([me, them], Some(me.id)) == Some(1)
    ensures FirstOther([them, me], Some(me.id)) == Some(0)
  {
    assert [me, them][1..] == [them];
  }
}
