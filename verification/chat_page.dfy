/** The chat page (src/pages/chat/chat.jsx): a list of chat sessions, the
    selected one, the messages on screen and a simulated assistant. The page
    keeps ONE message list: selecting or creating a chat replaces it, and a
    simulated reply (a `setTimeout` of one second) is appended to whatever list
    is on screen when it fires. Pending replies are the `timers` queue, each
    holding the question its closure captured; all have the same delay, so they
    fire in the order they were queued. Ids and times from the clock are
    parameters. */
module ChatPage {
  import opened Base
  import opened Text
  import Upload

  datatype Session = Session(id: string, name: string, pdfName: string, lastMessage: string, timestamp: string)

  datatype Message = Message(id: string, text: string, isUser: bool, timestamp: string)

  datatype State = State(
    sessions: seq<Session>,
    selected: Option<string>,
    messages: seq<Message>,
    input: string,
    pdfUrl: Option<string>,
    pdfName: string,
    timers: seq<string>)

  const SeedSessions := [
    Session("1", "Research Paper Discussion", "research-paper.pdf", "What are the main findings?", "2 hours ago"),
    Session("2", "Contract Review", "contract.pdf", "Explain clause 5.2", "1 day ago")
  ]

  const Init := State(SeedSessions, None, [], "", None, "", [])

  const NewChatPrefix := "New Chat "
  const EchoPrefix := "I understand you're asking about \""
  const EchoSuffix := "\". Based on the PDF content, here's what I found..."
  const NewChatGreeting := "Hello! How can I help you with this document?"

  function UploadGreeting(pdfName: string): string
  {
    "Hello! I've loaded your PDF \"" + pdfName + "\". What would you like to know about it?"
  }

  function RestoredNote(pdfName: string): string
  {
    "Loaded chat for " + pdfName + ". Previous conversation restored."
  }

  /** The simulated answer to `question`. */
  function Echo(question: string): (a: string)
    ensures |a| == |EchoPrefix| + |question| + |EchoSuffix|
  {
    EchoPrefix + question + EchoSuffix
  }

  /** Different questions get different answers: the answer quotes the question
      whole. */
  lemma EchoInjective(a: string, b: string)
    ensures Echo(a) == Echo(b) <==> a == b
  {
    if Echo(a) == Echo(b) {
      assert a == Echo(a)[|EchoPrefix|..|EchoPrefix| + |a|];
      assert b == Echo(b)[|EchoPrefix|..|EchoPrefix| + |b|];
    }
  }

  predicate IsNewChatName(name: string)
  {
    |NewChatPrefix| <= |name| && name[..|NewChatPrefix|] == NewChatPrefix
  }

  /** Every "New Chat n" session carries the number of sessions there were up to
      and including it when it was created; since sessions are only ever
      prepended, that is its distance from the end of the list. */
  ghost predicate NumberedNames(sessions: seq<Session>)
  {
    forall i :: 0 <= i < |sessions| && IsNewChatName(sessions[i].name) ==>
      sessions[i].name == NewChatPrefix + NatToDecimal(|sessions| - i)
  }

  lemma SeedSessionsNumbered()
    ensures NumberedNames(SeedSessions)
  {
    assert SeedSessions[0].name[0] == 'R';
    assert SeedSessions[1].name[0] == 'C';
  }

  /** Prepending a session keeps the numbering when the new session carries the
      number the longer list gives it, or is not a "New Chat" at all. */
  lemma {:induction false} PrependKeepsNumbering(sessions: seq<Session>, c: Session)
    requires IsNewChatName(c.name) ==> c.name == NewChatPrefix + NatToDecimal(|sessions| + 1)
    ensures NumberedNames(sessions) ==> NumberedNames([c] + sessions)
  {
    if NumberedNames(sessions) {
      var t := [c] + sessions;
      forall i | 0 <= i < |t| && IsNewChatName(t[i].name)
        ensures t[i].name == NewChatPrefix + NatToDecimal(|t| - i)
      {
        if i > 0 {
          assert t[i] == sessions[i - 1];
        }
      }
    }
  }

  /** No two "New Chat" sessions share a name. */
  lemma {:induction false} NewChatNamesDistinct(sessions: seq<Session>, i: nat, j: nat)
    requires NumberedNames(sessions)
    requires i < j < |sessions|
    requires IsNewChatName(sessions[i].name) && IsNewChatName(sessions[j].name)
    ensures sessions[i].name != sessions[j].name
  {
    DecimalInjective(|sessions| - i, |sessions| - j);
  }

  /** The page starts on the two seeded sessions, numbered as the invariant
      demands, with nothing selected, no messages and no reply pending. */
  lemma InitNumbered()
    ensures NumberedNames(Init.sessions)
    ensures Init.selected.None? && Init.messages == [] && Init.timers == [] && Init.pdfUrl.None?
  {
    SeedSessionsNumbered();
  }

  /** The mount effect: when the upload page stored both a file record and a
      truthy URL, a "Chat with <name>" session is created, selected and greeted
      with the file's name; otherwise nothing changes. */
  function Bootstrap(s: State, storage: Upload.Storage, newId: string, time: string): (r: State)
    ensures !(storage.uploadedFile.Some? && Truthy(storage.pdfUrl)) ==> r == s
    ensures (storage.uploadedFile.Some? && Truthy(storage.pdfUrl)) ==>
              var name := storage.uploadedFile.value.name;
              && |r.sessions| == |s.sessions| + 1 && r.sessions[1..] == s.sessions
              && r.sessions[0] == Session(newId, "Chat with " + name, name, "New conversation", "Just now")
              && !IsNewChatName(r.sessions[0].name)
              && r.selected == Some(newId)
              && r.pdfName == name && r.pdfUrl == storage.pdfUrl
              && r.messages == [Message("1", UploadGreeting(name), false, time)]
    ensures r.input == s.input && r.timers == s.timers
    ensures NumberedNames(s.sessions) ==> NumberedNames(r.sessions)
  {
    if storage.uploadedFile.Some? && Truthy(storage.pdfUrl) then
      var name := storage.uploadedFile.value.name;
      var c := Session(newId, "Chat with " + name, name, "New conversation", "Just now");
      assert c.name[0] == 'C';
      PrependKeepsNumbering(s.sessions, c);
      s.(sessions := [c] + s.sessions,
         selected := Some(newId),
         messages := [Message("1", UploadGreeting(name), false, time)],
         pdfUrl := storage.pdfUrl,
         pdfName := name)
    else s
  }

  /** `k` is where `chatSessions.find((c) => c.id === chatId)` stops. */
  ghost predicate FirstWithId(sessions: seq<Session>, id: string, k: int)
  {
    && 0 <= k < |sessions|
    && sessions[k].id == id
    && forall j :: 0 <= j < k ==> sessions[j].id != id
  }

  /** `handleChatSelect`: the id becomes selected even when no session has it;
      for a known id the PDF name is taken from the first session with it and the
      messages are replaced by a one-line note. */
  function SelectChat(s: State, chatId: string, time: string): (r: State)
    ensures r.selected == Some(chatId)
    ensures r.sessions == s.sessions && r.input == s.input && r.timers == s.timers && r.pdfUrl == s.pdfUrl
    ensures (forall j :: 0 <= j < |s.sessions| ==> s.sessions[j].id != chatId) ==>
              r.messages == s.messages && r.pdfName == s.pdfName
    ensures (exists j :: 0 <= j < |s.sessions| && s.sessions[j].id == chatId) ==>
              exists k :: FirstWithId(s.sessions, chatId, k)
                          && r.pdfName == s.sessions[k].pdfName
                          && r.messages == [Message("1", RestoredNote(s.sessions[k].pdfName), false, time)]
  {
    match FindFirst(s.sessions, (c: Session) => c.id == chatId)
    case None => s.(selected := Some(chatId))
    case Some(k) =>
      assert FirstWithId(s.sessions, chatId, k);
      var pdfName := s.sessions[k].pdfName;
      s.(selected := Some(chatId),
         pdfName := pdfName,
         messages := [Message("1", RestoredNote(pdfName), false, time)])
  }

  /** The synchronous part of `handleSendMessage`: a blank input changes
      nothing; otherwise the input becomes a user message, is cleared and a
      reply to it is queued. The session list (and its `lastMessage`) is never
      touched. */
  function Send(s: State, id: string, time: string): (r: State)
    ensures IsBlank(s.input) ==> r == s
    ensures !IsBlank(s.input) ==>
              && r.messages == s.messages + [Message(id, s.input, true, time)]
              && r.input == "" && r.timers == s.timers + [s.input]
    ensures r.sessions == s.sessions && r.selected == s.selected
    ensures r.pdfName == s.pdfName && r.pdfUrl == s.pdfUrl
  {
    TrimEmptyIffBlank(s.input);
    if Trim(s.input) == "" then s
    else s.(messages := s.messages + [Message(id, s.input, true, time)],
            input := "",
            timers := s.timers + [s.input])
  }

  /** The oldest queued timeout fires and appends its answer to the messages on
      screen, whichever chat they belong to now. */
  function Fire(s: State, id: string, time: string): (r: State)
    requires |s.timers| > 0
    ensures r.messages == s.messages + [Message(id, Echo(s.timers[0]), false, time)]
    ensures r.timers == s.timers[1..]
    ensures r.sessions == s.sessions && r.selected == s.selected && r.input == s.input
    ensures r.pdfName == s.pdfName && r.pdfUrl == s.pdfUrl
  {
    s.(messages := s.messages + [Message(id, Echo(s.timers[0]), false, time)],
       timers := s.timers[1..])
  }

  /** `createNewChat`: a session named "New Chat <count + 1>" for the current
      PDF is prepended, selected and greeted. */
  function CreateNewChat(s: State, newId: string, time: string): (r: State)
    ensures |r.sessions| == |s.sessions| + 1 && r.sessions[1..] == s.sessions
    ensures r.sessions[0] == Session(newId, NewChatPrefix + NatToDecimal(|r.sessions|), s.pdfName, "New conversation", "Just now")
    ensures r.selected == Some(newId)
    ensures r.messages == [Message("1", NewChatGreeting, false, time)]
    ensures r.input == s.input && r.timers == s.timers
    ensures r.pdfName == s.pdfName && r.pdfUrl == s.pdfUrl
    ensures NumberedNames(s.sessions) ==> NumberedNames(r.sessions)
  {
    var c := Session(newId, NewChatPrefix + NatToDecimal(|s.sessions| + 1), s.pdfName, "New conversation", "Just now");
    PrependKeepsNumbering(s.sessions, c);
    s.(sessions := [c] + s.sessions,
       selected := Some(newId),
       messages := [Message("1", NewChatGreeting, false, time)])
  }

  /** With no reply pending, a send and its reply add the question and the
      answer quoting it, and leave nothing queued. */
  lemma {:induction false} TurnAddsTwoMessages(s: State, uid: string, t1: string, rid: string, t2: string)
    requires s.timers == [] && !IsBlank(s.input)
    ensures |Send(s, uid, t1).timers| > 0
    ensures var r := Fire(Send(s, uid, t1), rid, t2);
            && r.messages == s.messages + [Message(uid, s.input, true, t1), Message(rid, Echo(s.input), false, t2)]
            && r.timers == []
  {
    var mid := Send(s, uid, t1);
    assert mid.timers == [s.input];
    assert mid.messages + [Message(rid, Echo(s.input), false, t2)]
        == s.messages + [Message(uid, s.input, true, t1), Message(rid, Echo(s.input), false, t2)];
  }

  /** Starting a new chat while a reply is pending: the reply to the question
      asked in the old chat appears under the new chat's greeting. */
  lemma ReplyFollowsNewChat(s: State, uid: string, t1: string, newId: string, t2: string, rid: string, t3: string)
    requires s.timers == [] && !IsBlank(s.input)
    ensures |CreateNewChat(Send(s, uid, t1), newId, t2).timers| > 0
    ensures Fire(CreateNewChat(Send(s, uid, t1), newId, t2), rid, t3).messages
              == [Message("1", NewChatGreeting, false, t2), Message(rid, Echo(s.input), false, t3)]
    ensures Fire(CreateNewChat(Send(s, uid, t1), newId, t2), rid, t3).selected == Some(newId)
  {
  }

  /** The hand-over from the upload page: after `startChatting` stored a PDF, the
      chat page opens on a new session for that file's name and URL. */
  lemma UploadOpensChat(u: Upload.State, url: string, newId: string, time: string)
    requires u.uploaded.Some? && url != ""
    ensures var r := Bootstrap(Init, Upload.StartChatting(u, url).storage, newId, time);
            var name := u.uploaded.value.name;
            && |r.sessions| == |SeedSessions| + 1
            && r.sessions[0].pdfName == name && r.pdfName == name
            && r.pdfUrl == Some(url) && r.selected == Some(newId)
            && r.messages == [Message("1", UploadGreeting(name), false, time)]
  {
  }
}
