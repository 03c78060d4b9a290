/** The chat history panel (src/pages/chat/chat-history.jsx): the chat sessions
    the server lists for one PDF, with a delete per session and a count in the
    header. */
module ChatHistory {
  import opened Base
  import opened Text

  /** A listed chat session: the fields the panel shows. */
  datatype Chat = Chat(id: string, title: string, lastMessage: string, createdAt: string, messageCount: nat)

  datatype State = State(chats: seq<Chat>, isLoading: bool)

  const Init := State([], true)

  /** `fetchChatHistory` settling: an ok response replaces the list; whatever
      happens, loading ends. A later fetch (for another PDF) does not set
      `isLoading` again. */
  function Fetched(s: State, reply: Reply<seq<Chat>>): (r: State)
    ensures !r.isLoading
    ensures reply.Ok? ==> r.chats == reply.body
    ensures !reply.Ok? ==> r.chats == s.chats
  {
    match reply
    case Ok(chats) => State(chats, false)
    case _ => s.(isLoading := false)
  }

  function OtherThan(id: string): Chat -> bool
  {
    (c: Chat) => c.id != id
  }

  function WithId(id: string): Chat -> bool
  {
    (c: Chat) => c.id == id
  }

  /** `handleDeleteChat` as written: a confirmed delete whose request comes back
      ok sets the list to the sessions `captured` when the delete began (the
      closure's `chatSessions`) minus every session with that id. Whatever
      changed the list in between is overwritten. */
  function DeleteCaptured(s: State, captured: seq<Chat>, id: string, confirmed: bool, reply: Reply<()>): (r: State)
    ensures !(confirmed && reply.Ok?) ==> r == s
    ensures confirmed && reply.Ok? ==>
              && (forall c :: c in r.chats <==> c in captured && c.id != id)
              && r.chats == Keep(captured, OtherThan(id))
    ensures r.isLoading == s.isLoading
  {
    if confirmed && reply.Ok? then s.(chats := Keep(captured, OtherThan(id))) else s
  }

  /** The lost update: two deletes started on the same list, both confirmed and
      both answered ok. The second one's captured list still holds the session the
      first removed, so that session comes back. */
  lemma {:induction false} OverlappingDeletesResurrect(a: Chat, b: Chat)
    requires a.id != b.id
    ensures var s := State([a, b], false);
            var first := DeleteCaptured(s, s.chats, a.id, true, Ok(()));
            first.chats == [b] && DeleteCaptured(first, s.chats, b.id, true, Ok(())).chats == [a]
  {
    assert Keep([a, b], OtherThan(a.id)) == Keep([b], OtherThan(a.id));
    assert Keep([a, b], OtherThan(b.id)) == [a] + Keep([b], OtherThan(b.id));
  }

  /** The delete the rest of the model uses: the filter applies to the list as it
      stands when the response arrives (`setChatSessions((prev) => prev.filter(...))`).
      Only a confirmed delete whose request comes back ok removes the session
      (every session with that id); the rest keep their order. */
  function Delete(s: State, id: string, confirmed: bool, reply: Reply<()>): (r: State)
    ensures !(confirmed && reply.Ok?) ==> r == s
    ensures confirmed && reply.Ok? ==>
              && (forall c :: c in r.chats <==> c in s.chats && c.id != id)
              && multiset(r.chats) <= multiset(s.chats)
              && r.chats == Keep(s.chats, OtherThan(id))
    ensures r.isLoading == s.isLoading
  {
    if confirmed && reply.Ok? then s.(chats := Keep(s.chats, OtherThan(id))) else s
  }

  /** With nothing else in flight, the delete as written and the corrected one
      agree. */
  lemma DeleteCapturedAlone(s: State, id: string, confirmed: bool, reply: Reply<()>)
    ensures DeleteCaptured(s, s.chats, id, confirmed, reply) == Delete(s, id, confirmed, reply)
  {
  }

  /** Overlapping deletes both take effect: neither session is left, and the
      others keep their order. */
  lemma {:induction false} OverlappingDeletesRemoveBoth(s: State, x: string, y: string)
    ensures var r := Delete(Delete(s, x, true, Ok(())), y, true, Ok(()));
            && (forall c :: c in r.chats <==> c in s.chats && c.id != x && c.id != y)
            && r.chats == Keep(Keep(s.chats, OtherThan(x)), OtherThan(y))
  {
  }

  /** A delete shortens the list by exactly the number of sessions with that id. */
  lemma {:induction false} DeleteCount(s: State, id: string)
    ensures |Delete(s, id, true, Ok(())).chats| + |Keep(s.chats, WithId(id))| == |s.chats|
  {
    KeepLengthSplit(s.chats, OtherThan(id), WithId(id));
  }

  const CountSuffix := " sessions"

  /** The header's "<n> sessions": a number that reads back as the list's length. */
  function CountLabel(chats: seq<Chat>): (text: string)
    ensures |text| > |CountSuffix| && text[|text| - |CountSuffix|..] == CountSuffix
    ensures AllDigits(text[..|text| - |CountSuffix|])
    ensures ParseDecimal(text[..|text| - |CountSuffix|]) == |chats|
    ensures text[..|text| - |CountSuffix|] == NatToDecimal(|chats|)
  {
    var digits := NatToDecimal(|chats|);
    DecimalRoundTrip(|chats|);
    assert (digits + CountSuffix)[..|digits|] == digits;
    digits + CountSuffix
  }

  /** The label tells lists of different lengths apart. */
  lemma CountLabelFaithful(a: seq<Chat>, b: seq<Chat>)
    ensures CountLabel(a) == CountLabel(b) <==> |a| == |b|
  {
    DecimalInjective(|a|, |b|);
    if CountLabel(a) == CountLabel(b) {
      var da, db := NatToDecimal(|a|), NatToDecimal(|b|);
      assert da == CountLabel(a)[..|da|];
      assert |da| == |db|;
      assert db == CountLabel(b)[..|db|];
    }
  }

  /** Before the first fetch settles the panel is loading and would count no
      sessions. */
  lemma InitCountsNothing()
    ensures Init.isLoading && Init.chats == []
    ensures CountLabel(Init.chats) == "0 sessions"
  {
  }

  /** After an ok fetch the header counts the fetched sessions; after any other
      outcome it keeps counting the sessions already shown. */
  lemma {:induction false} FetchedLabel(s: State, reply: Reply<seq<Chat>>)
    ensures var t := CountLabel(Fetched(s, reply).chats);
            ParseDecimal(t[..|t| - |CountSuffix|]) == if reply.Ok? then |reply.body| else |s.chats|
    ensures !Fetched(s, reply).isLoading
  {
  }
}
