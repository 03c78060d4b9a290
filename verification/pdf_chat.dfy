/** The chat panel beside the PDF viewer (src/pages/chat/chat-interface.jsx).
    A send is two steps: the synchronous part of `handleSendMessage` (guard,
    append the user message, clear the input, set `isLoading`) and, once the
    awaited `fetch` settles, the reply step (append exactly one reply, clear
    `isLoading`). Between the two, other events (a clear, a prop change, a history
    load) may run; the reply then lands on whatever `messages` holds, because the
    source uses functional `setMessages` updates. */
module PdfChat {
  import opened Base
  import opened Text

  /** `{ id, text, isUser, timestamp }`; ids and times come from `Date.now()`
      and are parameters here. */
  datatype Message = Message(id: string, text: string, isUser: bool, timestamp: int)

  /** What the awaiting send remembers from when it started: the text it sent
      and the chat id its closure saw. */
  datatype Turn = Turn(text: string, chatIdAtSend: Option<string>)

  /** The component's state; `inFlight` is the send awaiting its reply, if any. */
  datatype State = State(
    messages: seq<Message>,
    input: string,
    isLoading: bool,
    currentChatId: Option<string>,
    inFlight: Option<Turn>)

  /** The parsed body of an ok `/api/chat` response. */
  datatype ChatData = ChatData(response: string, chatId: Option<string>)

  const ErrorText := "Sorry, I encountered an error processing your message. Please try again."

  /** `isLoading` is set exactly while a send awaits its reply, and a stored chat
      id is never the empty string. */
  predicate Valid(s: State)
  {
    && (s.isLoading <==> s.inFlight.Some?)
    && (s.currentChatId.Some? ==> s.currentChatId.value != "")
  }

  /** The initial state for the `chatId` prop (`chatId || null`). */
  function Init(chatId: Option<string>): (s: State)
    ensures s.messages == [] && s.input == "" && !s.isLoading && Valid(s)
    ensures s.currentChatId.Some? <==> Truthy(chatId)
    ensures s.currentChatId.Some? ==> s.currentChatId == chatId
  {
    State([], "", false, if Truthy(chatId) then chatId else None, None)
  }

  /** The synchronous part of `handleSendMessage`. A blank input (only
      whitespace) or a send while loading changes nothing; otherwise the input,
      untrimmed, becomes a user message and the input is cleared. */
  function Send(s: State, id: string, now: int): (r: State)
    ensures (IsBlank(s.input) || s.isLoading) ==> r == s
    ensures !(IsBlank(s.input) || s.isLoading) ==>
              && r.messages == s.messages + [Message(id, s.input, true, now)]
              && r.input == "" && r.isLoading
              && r.currentChatId == s.currentChatId
              && r.inFlight == Some(Turn(s.input, s.currentChatId))
    ensures Valid(s) ==> Valid(r)
  {
    TrimEmptyIffBlank(s.input);
    if Trim(s.input) == "" || s.isLoading then s
    else
      s.(messages := s.messages + [Message(id, s.input, true, now)],
         input := "",
         isLoading := true,
         inFlight := Some(Turn(s.input, s.currentChatId)))
  }

  /** The one message a settled send appends: the answer on an ok response, the
      fixed error text on a non-ok response or a thrown error. */
  function ReplyMessage(reply: Reply<ChatData>, id: string, now: int): (m: Message)
    ensures !m.isUser && m.id == id && m.timestamp == now
    ensures reply.Ok? ==> m.text == reply.body.response
    ensures !reply.Ok? ==> m.text == ErrorText
  {
    match reply
    case Ok(data) => Message(id, data.response, false, now)
    case _ => Message(id, ErrorText, false, now)
  }

  /** The settled send. The chat id from the response is adopted only when it is
      truthy and the send's closure saw no chat id. */
  function Resolve(s: State, reply: Reply<ChatData>, id: string, now: int): (r: State)
    requires s.inFlight.Some?
    ensures r.messages == s.messages + [ReplyMessage(reply, id, now)]
    ensures !r.isLoading && r.inFlight.None? && r.input == s.input
    ensures r.currentChatId != s.currentChatId <==>
              && reply.Ok? && Truthy(reply.body.chatId)
              && !Truthy(s.inFlight.value.chatIdAtSend)
              && s.currentChatId != reply.body.chatId
    ensures r.currentChatId != s.currentChatId ==> r.currentChatId == reply.body.chatId
    ensures Valid(s) ==> Valid(r)
  {
    var adopt := reply.Ok? && Truthy(reply.body.chatId) && !Truthy(s.inFlight.value.chatIdAtSend);
    s.(messages := s.messages + [ReplyMessage(reply, id, now)],
       isLoading := false,
       inFlight := None,
       currentChatId := if adopt then reply.body.chatId else s.currentChatId)
  }

  /** `handleClearChat`: a confirmed clear empties the messages and forgets the
      chat id; a declined one changes nothing. */
  function Clear(s: State, confirmed: bool): (r: State)
    ensures !confirmed ==> r == s
    ensures confirmed ==> r.messages == [] && r.currentChatId.None?
    ensures r.input == s.input && r.isLoading == s.isLoading && r.inFlight == s.inFlight
    ensures Valid(s) ==> Valid(r)
  {
    if confirmed then s.(messages := [], currentChatId := None) else s
  }

  /** Whether the `[chatId, pdfId]` effect starts a history load. */
  predicate LoadsHistory(chatId: Option<string>, pdfId: Option<string>)
  {
    Truthy(chatId) && Truthy(pdfId)
  }

  /** The `[chatId, pdfId]` effect: with both props set it starts a history load
      (see `HistoryLoaded`) and changes nothing yet; otherwise it empties the
      messages and forgets the chat id. */
  function PropsChanged(s: State, chatId: Option<string>, pdfId: Option<string>): (r: State)
    ensures LoadsHistory(chatId, pdfId) ==> r == s
    ensures !LoadsHistory(chatId, pdfId) ==> r.messages == [] && r.currentChatId.None?
    ensures r.input == s.input && r.isLoading == s.isLoading && r.inFlight == s.inFlight
    ensures Valid(s) ==> Valid(r)
  {
    if LoadsHistory(chatId, pdfId) then s else s.(messages := [], currentChatId := None)
  }

  /** `loadChatHistory(chatId)` settling: an ok response replaces the messages
      and adopts the chat id; a non-ok response or a thrown error changes
      nothing. The effect only loads for a truthy chat id. */
  function HistoryLoaded(s: State, chatId: string, reply: Reply<seq<Message>>): (r: State)
    requires chatId != ""
    ensures !reply.Ok? ==> r == s
    ensures reply.Ok? ==> r.messages == reply.body && r.currentChatId == Some(chatId)
    ensures r.input == s.input && r.isLoading == s.isLoading && r.inFlight == s.inFlight
    ensures Valid(s) ==> Valid(r)
  {
    match reply
    case Ok(history) => s.(messages := history, currentChatId := Some(chatId))
    case _ => s
  }

  /** An accepted send followed by its reply adds exactly two messages, the
      user's first, and ends with `isLoading` false. */
  lemma {:induction false} TurnAddsTwoMessages(s: State, uid: string, t1: int, reply: Reply<ChatData>, rid: string, t2: int)
    requires Valid(s) && !IsBlank(s.input) && !s.isLoading
    ensures Send(s, uid, t1).inFlight.Some?
    ensures var r := Resolve(Send(s, uid, t1), reply, rid, t2);
            && |r.messages| == |s.messages| + 2
            && r.messages == s.messages + [Message(uid, s.input, true, t1), ReplyMessage(reply, rid, t2)]
            && !r.isLoading && Valid(r)
  {
    var mid := Send(s, uid, t1);
    assert mid.messages == s.messages + [Message(uid, s.input, true, t1)];
    assert mid.messages + [ReplyMessage(reply, rid, t2)]
        == s.messages + [Message(uid, s.input, true, t1), ReplyMessage(reply, rid, t2)];
  }

  /** A non-ok response and a thrown error have the same effect. */
  lemma FailuresAlike(s: State, id: string, now: int)
    requires s.inFlight.Some?
    ensures Resolve(s, NotOk, id, now) == Resolve(s, Threw, id, now)
  {
  }

  /** Clearing while a send is awaited: the reply still arrives and becomes the
      only message. */
  lemma ReplyAfterClearIsAlone(s: State, uid: string, t1: int, reply: Reply<ChatData>, rid: string, t2: int)
    requires !IsBlank(s.input) && !s.isLoading
    ensures Clear(Send(s, uid, t1), true).inFlight.Some?
    ensures Resolve(Clear(Send(s, uid, t1), true), reply, rid, t2).messages == [ReplyMessage(reply, rid, t2)]
  {
  }
}
