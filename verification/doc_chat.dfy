/** The document chat widget (src/components/ChatInterface.jsx). Unlike the PDF
    chat panel, its send handler checks only for a blank input (the disabled
    button and textarea are what keep a second send out while loading), it
    parses the response body whatever the HTTP status, and it keeps the
    `sources` the answer cites. A send is split, as in `PdfChat`, into the
    synchronous part and the step that runs once the request settles; `pending`
    counts the sends still awaiting. */
module DocChat {
  import opened Base
  import opened Text

  datatype Kind = UserKind | Ai

  /** A cited document; only its `filename` is shown. */
  datatype Source = Source(filename: string)

  /** `{ type, content, sources }`; `content` and `sources` are whatever the
      response body held, so either may be absent. */
  datatype Message = Message(kind: Kind, content: Option<string>, sources: Option<seq<Source>>)

  /** The parsed response body. */
  datatype ChatData = ChatData(response: Option<string>, sources: Option<seq<Source>>)

  /** How the request settled: `fetch` threw, or it returned a status and a body
      that `response.json()` either parsed (`Some`) or threw on (`None`). */
  datatype FetchResult = Failed | Responded(status: nat, body: Option<ChatData>)

  datatype State = State(messages: seq<Message>, input: string, isLoading: bool, pending: nat)

  const ErrorText := "\U{26A0}\U{FE0F} Error. Try again."

  /** The message shown when the request or the parse throws. */
  const ErrorMessage := Message(Ai, Some(ErrorText), Some([]))

  const Init := State([], "", false, 0)

  /** The component starts with no messages, no input and nothing pending. */
  lemma InitValid()
    ensures Valid(Init) && !Init.isLoading && Init.messages == [] && Init.pending == 0
  {
  }

  /** While loading, some send is awaiting its reply. */
  predicate Valid(s: State)
  {
    s.isLoading ==> s.pending > 0
  }

  /** The synchronous part of `sendMessage`: a blank input changes nothing;
      otherwise the input becomes a user message (with no sources) and is
      cleared, and a request is started. */
  function Send(s: State): (r: State)
    ensures IsBlank(s.input) ==> r == s
    ensures !IsBlank(s.input) ==>
              && r.messages == s.messages + [Message(UserKind, Some(s.input), None)]
              && r.input == "" && r.isLoading && r.pending == s.pending + 1
    ensures Valid(s) ==> Valid(r)
  {
    TrimEmptyIffBlank(s.input);
    if Trim(s.input) == "" then s
    else State(s.messages + [Message(UserKind, Some(s.input), None)], "", true, s.pending + 1)
  }

  /** The one message a settled request appends. */
  function ReplyMessage(result: FetchResult): (m: Message)
    ensures m.kind == Ai
    ensures (result.Responded? && result.body.Some?) ==>
              m.content == result.body.value.response && m.sources == result.body.value.sources
    ensures !(result.Responded? && result.body.Some?) ==> m == ErrorMessage
  {
    match result
    case Responded(_, Some(data)) => Message(Ai, data.response, data.sources)
    case _ => ErrorMessage
  }

  /** The settled request: one reply is appended and, in the `finally` block,
      `isLoading` is cleared even if other sends are still awaiting. */
  function Resolve(s: State, result: FetchResult): (r: State)
    requires s.pending > 0
    ensures r.messages == s.messages + [ReplyMessage(result)]
    ensures !r.isLoading && r.pending == s.pending - 1 && r.input == s.input
    ensures Valid(r)
  {
    State(s.messages + [ReplyMessage(result)], s.input, false, s.pending - 1)
  }

  /** The HTTP status is never consulted: an error status with a parseable body
      is shown like a success. */
  lemma StatusIgnored(s: State, a: nat, b: nat, body: Option<ChatData>)
    requires s.pending > 0
    ensures Resolve(s, Responded(a, body)) == Resolve(s, Responded(b, body))
  {
  }

  /** A body that fails to parse is reported like a failed request. */
  lemma UnparsedLikeThrown(s: State, status: nat)
    requires s.pending > 0
    ensures Resolve(s, Responded(status, None)) == Resolve(s, Failed)
  {
  }

  /** An accepted send followed by its reply adds exactly the user message and
      the reply. */
  lemma {:induction false} TurnAddsTwoMessages(s: State, result: FetchResult)
    requires !IsBlank(s.input)
    ensures Send(s).pending > 0
    ensures var r := Resolve(Send(s), result);
            && r.messages == s.messages + [Message(UserKind, Some(s.input), None), ReplyMessage(result)]
            && r.pending == s.pending && !r.isLoading
  {
    var mid := Send(s);
    assert mid.messages + [ReplyMessage(result)]
        == s.messages + [Message(UserKind, Some(s.input), None), ReplyMessage(result)];
  }

  /** `msg.sources.map((s) => s.filename)`. */
  function Filenames(sources: seq<Source>): (names: seq<string>)
    ensures |names| == |sources|
    ensures forall i :: 0 <= i < |sources| ==> names[i] == sources[i].filename
  {
    seq(|sources|, i requires 0 <= i < |sources| => sources[i].filename)
  }

  /** The source line under a message: shown only when `sources` is present and
      non-empty, as the filenames joined with ", ". */
  function Caption(m: Message): (c: Option<string>)
    ensures c.Some? <==> m.sources.Some? && |m.sources.value| > 0
  {
    if m.sources.Some? && |m.sources.value| > 0 then Some(Join(Filenames(m.sources.value), ", "))
    else None
  }

  /** A shown caption begins with the first cited filename, ends with the last,
      and is as long as the filenames plus one ", " between each pair. */
  lemma CaptionLists(m: Message)
    requires Caption(m).Some?
    ensures var c, names := Caption(m).value, Filenames(m.sources.value);
            && |c| == LengthSum(names) + 2 * (|names| - 1)
            && |names[0]| <= |c| && c[..|names[0]|] == names[0]
            && |names[|names| - 1]| <= |c| && c[|c| - |names[|names| - 1]|..] == names[|names| - 1]
  {
    var names := Filenames(m.sources.value);
    JoinLength(names, ", ");
    JoinEnds(names, ", ");
  }

  /** The error reply cites nothing, so it has no caption. */
  lemma ErrorMessageHasNoCaption()
    ensures Caption(ErrorMessage).None?
  {
  }
}
