# PaperBrain front end, modelled in Dafny

This project models the logic of the PaperBrain React front end
(mddanish867/rag-chatbot-frontend) and its mock Next.js API handlers. Each
async handler or effect is a pure transition on immutable records. Whatever the
browser or server supplies becomes a parameter: the awaited `fetch` outcome
(ok, not ok, thrown), the `confirm` answer, cookies, `sessionStorage` entries
and clock readings.

Modules follow the source files:

| module | source | what it covers |
|---|---|---|
| `Base` | shared | `Option`, the `Reply` outcome of a `fetch`, `find` (`FindFirst`), `filter` (`Keep`), `reduce` with `+` (`Sum`) |
| `Text` | shared | JavaScript `trim` whitespace, `split`/`join`, number `toString`, ASCII `toLowerCase`, `includes`, a name order, UTF-16 `length` |
| `Users` | src/api/register.js, login.js, me.js | user records, the password-free view, the response shape, the `session_<id>_<t>` token and its parse, the seed users |
| `Register` | src/api/register.js | `POST`: presence, length and duplicate checks in order; append with the next sequential id |
| `Login` | src/api/login.js | `POST`: presence check, first exact email+password match, a single 401 for every miss |
| `Me` | src/api/me.js | `GET`: user id from the cookie's second `_` field, lookup, password-free reply |
| `PasswordReset` | src/api/forgot-password.js, reset-password.js | presence and length validation only |
| `AuthFlow` | the three handlers together | what a cookie from login or register means to `me`, given that each handler has its own user array |
| `PdfChat` | src/pages/chat/chat-interface.jsx | send and reply, chat-id adoption, clear, the prop-reset effect, history load |
| `DocChat` | src/components/ChatInterface.jsx | send and reply when the HTTP status is never checked; the sources caption |
| `ChatPage` | src/pages/chat/chat.jsx | session list, select, create, the upload bootstrap, the simulated reply timer |
| `PdfLibrary` | src/pages/pdf/pdf-library.jsx | fetch, delete by id, the search filter, the three stable sort orders, totals |
| `ChatHistory` | src/pages/chat/chat-history.jsx | fetch, delete by id, the session count |
| `Upload` | src/pages/pdf/upload.jsx | PDF-only acceptance, drop/select, remove, the hand-over to the chat page |
| `PdfViewer` | src/pages/pdf/pdf-viewver.jsx | zoom clamped to [50, 200] in steps of 25 |

How the source's behaviour is represented:

- Each handler file declares its own `mockUsers` array. Each handler therefore
  takes its user list as a parameter, and `Register.Post` returns the new list.
  `Users.SeedUsers` is the content all three arrays start with; nothing assumes
  the arrays are shared.
- A request body that is not valid JSON makes `request.json()` reject, and a JSON
  `null` makes the destructuring throw. Both land in the `catch` branch. They are
  modelled as a `None` body and answered with `ServerError` (500). Any other JSON
  value that is not an object (a number, a string, an array) destructures without
  error, with every field `undefined`. It is the request with every field `None`,
  and is refused as incomplete (400). A missing field is `None`; JavaScript
  falsiness is "absent or empty" (`Text.Truthy`).
- An `await` splits a handler in two. The first part runs synchronously
  (`Send`). The second part (`Resolve`, `Fire`, `HistoryLoaded`, `Fetched`) runs
  once the outcome is known. What the closure captured (the text sent, the chat
  id it saw) is kept in the state in between, so other events can be
  interleaved.

## Model

| member | source | states |
|---|---|---|
| Base.FindFirst | src/api/login.js:30 | `find`: the index returned is the first element passing the test; `None` exactly when no element passes |
| Base.Keep | src/pages/pdf/pdf-library.jsx:49 | `filter`: the result holds exactly the passing elements of the input, never more often than the input does |
| Base.KeepAppend | src/pages/pdf/pdf-library.jsx:49 | filtering a concatenation is concatenating the filtered parts, so kept elements keep their order |
| Base.KeepIdempotent | src/pages/pdf/pdf-library.jsx:49 | filtering twice with the same test is filtering once |
| Base.KeepLengthSplit | src/pages/chat/chat-history.jsx:45 | a filter and its opposite split the list's length between them |
| Base.SumPermutation | src/pages/pdf/pdf-library.jsx:205 | a `reduce` sum does not depend on the order of the list |
| Base.SumKeepSplit | src/pages/pdf/pdf-library.jsx:205 | a filter and its opposite split a sum into what is kept and what is dropped |
| Base.SumBounds | src/pages/pdf/pdf-library.jsx:205 | a sum of non-negative terms is non-negative and at least each term |
| Text.TrimEmptyIffBlank | src/pages/chat/chat-interface.jsx:59 | `s.trim()` is empty exactly when every character of `s` is JavaScript whitespace; a non-empty trim starts and ends with non-whitespace |
| Text.Trim | src/pages/chat/chat-interface.jsx:59 | `trim` returns a middle slice of `s` with only whitespace cut off on either side, leaves no whitespace at either end of a non-empty result, and leaves a string without whitespace as it is |
| Text.Utf16Length | src/api/register.js:29 | `password.length` counts UTF-16 code units: between one and two per character |
| Text.Utf16LengthAppend | src/api/register.js:29 | a character outside the Basic Multilingual Plane counts two code units and any other one, and lengths add up over a concatenation, so `length` is fixed for every string |
| Text.Utf16LengthOfBmp | src/api/register.js:29 | for text in the Basic Multilingual Plane, `length` is the character count |
| Text.NatToDecimal | src/api/register.js:41 | `toString` of a count is a non-empty digit string with a leading zero only for 0 |
| Text.DecimalRoundTrip | src/api/register.js:41 | reading the digits back gives the number |
| Text.DecimalInjective | src/api/register.js:41 | different counts give different id strings |
| Text.Split | src/api/me.js:32 | `split` gives at least one field, exactly one when the separator is absent, and no field contains the separator |
| Text.SplitAppend | src/api/me.js:32 | splitting `a + sep + b` gives the fields of `a` followed by those of `b` |
| Text.JoinSplit | src/api/me.js:32 | joining the fields of a split with the separator restores the string |
| Text.SplitJoin | src/api/me.js:32 | splitting a join of separator-free pieces restores the pieces |
| Text.JoinLength | src/components/ChatInterface.jsx:69 | a join is as long as its pieces plus one separator between each pair |
| Text.JoinEnds | src/components/ChatInterface.jsx:69 | a join starts with its first piece and ends with its last |
| Text.Lower | src/pages/pdf/pdf-library.jsx:57 | `toLowerCase` keeps the length, leaves no ASCII capital, and changes only ASCII capitals (by 32) |
| Text.LexLeTotal | src/pages/pdf/pdf-library.jsx:61 | the name order compares any two names |
| Text.LexLeTransitive | src/pages/pdf/pdf-library.jsx:61 | the name order is transitive |
| Users.WithoutPassword | src/api/register.js:63 | the returned user is the stored one minus its password: adding the password back restores it |
| Users.WithoutPasswordForgetsOnlyPassword | src/api/login.js:49 | two users look the same to a client exactly when they differ at most in their password |
| Users.SessionUserId | src/api/me.js:32 | `split("_")[1]` yields a field exactly when the token contains `_`, and that field has no `_` |
| Users.SessionToken | src/api/login.js:37 | the token is "session_", then the id, then `_`, then exactly the decimal rendering of the clock reading |
| Users.SessionTokenRoundTrip | src/api/login.js:37 | parsing `session_<id>_<t>` gives the id up to its first `_` whatever `t` is, and the id itself when it has no `_` |
| Users.NumericTokenRoundTrip | src/api/register.js:51 | a token built from a numeric id parses back to that id |
| Users.SequentialIdsAreDistinct | src/api/register.js:41 | ids equal to position + 1 are pairwise distinct |
| Users.SeedUsersWellFormed | src/api/register.js:4-19 | the seed users have ids "1", "2" and distinct emails |
| Register.Post | src/api/register.js:21-73 | invalid JSON or `null` body → 500. Otherwise, in order: a missing field → 400, a short password → 400, an email on file → 409, each leaving the list as it was. 200 exactly when all checks pass, and then the list gains exactly one user at the end with id = old length + 1, and the reply carries that user without its password and a cookie for it |
| Register.PostKeepsSequentialIds | src/api/register.js:41-48 | if every id equals position + 1 before a registration, the same holds after, so ids stay distinct |
| Register.PostKeepsUniqueEmails | src/api/register.js:34-37 | the duplicate check keeps stored emails pairwise distinct |
| Register.PostCookieNamesNewUser | src/api/register.js:51 | the cookie set on success parses back to the new user's id |
| Register.NonObjectBodyIsIncomplete | src/api/register.js:23-27 | a JSON body that is not an object has no fields and is refused with the 400 for missing fields, leaving the list unchanged |
| Login.Post | src/api/login.js:21-59 | invalid JSON or `null` body → 500; a missing email or password → 400; no user with both exactly equal → 401 with one message for every miss. 200 exactly when some user matches, and then the reply names the first match, without its password, with its cookie |
| Me.Get | src/api/me.js:22-47 | no cookie → 401 "No session found". 200 exactly when the token's second field names a stored id, and then the reply is the first user with that id, without its password. Any other token, including one with no `_`, → 401 "Invalid session" |
| Me.GetIgnoresTimestamp | src/api/me.js:32-33 | the token's time field never changes the answer: tokens do not expire |
| Me.GetResolvesIssuedToken | src/api/me.js:32-42 | a token issued for a user whose id has no `_`, and who is the first with that id, resolves to that user |
| AuthFlow.SeedLoginAcceptedBySeedMe | src/api/me.js:32-42 | a cookie from a successful login on the seed users is accepted by `me` on its own seed users and names the same user |
| AuthFlow.RegisteredCookieRejectedBySeedMe | src/api/me.js:33-37 | a cookie from a registration on the seed users names id "3", which `me`'s separate array does not hold: 401 "Invalid session" |
| PasswordReset.Forgot | src/api/forgot-password.js:2-26 | invalid JSON or `null` body → 500; no email → 400; any non-empty email, registered or not → 200 "Password reset email sent" |
| PasswordReset.ForgotDependsOnlyOnPresence | src/api/forgot-password.js:2-26 | the reply depends only on whether an email is present |
| PasswordReset.Reset | src/api/reset-password.js:2-28 | invalid JSON or `null` body → 500; a missing token or password → 400; a short password → 400; otherwise 200 "Password reset successful" |
| PasswordReset.ResetIgnoresTokenValue | src/api/reset-password.js:6-23 | any present token is as good as any other |
| PdfChat.Init | src/pages/chat/chat-interface.jsx:14-17 | the chat id starts as the prop when it is truthy and null otherwise; nothing is loading |
| PdfChat.Send | src/pages/chat/chat-interface.jsx:58-70 | blank input or a pending send changes nothing; otherwise one user message with the untrimmed text is appended, the input cleared and loading set; loading matches a pending send |
| PdfChat.ReplyMessage | src/pages/chat/chat-interface.jsx:87-111 | the reply is a non-user message holding `data.response` on an ok response and the fixed apology otherwise |
| PdfChat.Resolve | src/pages/chat/chat-interface.jsx:87-114 | exactly one reply is appended and loading ends. The chat id changes only when the response carries a truthy id and the send saw none, and then it becomes that id |
| PdfChat.Clear | src/pages/chat/chat-interface.jsx:117-122 | a confirmed clear empties the messages and nulls the chat id; a declined one changes nothing |
| PdfChat.PropsChanged | src/pages/chat/chat-interface.jsx:28-35 | with both props present a history load starts and nothing changes yet; otherwise messages become empty and the chat id null |
| PdfChat.HistoryLoaded | src/pages/chat/chat-interface.jsx:37-56 | an ok load replaces the messages and adopts the chat id; a failed one changes nothing |
| PdfChat.TurnAddsTwoMessages | src/pages/chat/chat-interface.jsx:68-114 | an accepted send and its reply add exactly two messages, the user's first, and loading ends false |
| PdfChat.FailuresAlike | src/pages/chat/chat-interface.jsx:100-111 | a non-ok response and a thrown error have the same effect |
| PdfChat.ReplyAfterClearIsAlone | src/pages/chat/chat-interface.jsx:95-122 | clearing while a send is pending still lets its reply arrive, as the only message |
| DocChat.Send | src/components/ChatInterface.jsx:12-18 | blank input changes nothing; otherwise one user message is appended, the input cleared and loading set |
| DocChat.InitValid | src/components/ChatInterface.jsx:4-6 | the component starts with no messages, not loading and nothing pending |
| DocChat.ReplyMessage | src/components/ChatInterface.jsx:27-32 | a parsed body gives an AI message with its `response` and `sources`; a thrown request or parse gives the warning message with no sources |
| DocChat.Resolve | src/components/ChatInterface.jsx:27-35 | exactly one reply is appended and loading ends |
| DocChat.StatusIgnored | src/components/ChatInterface.jsx:27 | the HTTP status never matters: an error status with a parseable body is shown like a success |
| DocChat.UnparsedLikeThrown | src/components/ChatInterface.jsx:27-32 | a body that fails to parse is reported like a failed request |
| DocChat.TurnAddsTwoMessages | src/components/ChatInterface.jsx:16-35 | an accepted send and its reply add exactly the user message and the reply, and loading ends false |
| DocChat.Filenames | src/components/ChatInterface.jsx:69 | `sources.map(s => s.filename)` keeps the order and length of the sources |
| DocChat.Caption | src/components/ChatInterface.jsx:68-69 | a caption is shown exactly when `sources` is present and non-empty |
| DocChat.CaptionLists | src/components/ChatInterface.jsx:69 | a shown caption starts with the first filename, ends with the last, and is as long as the filenames plus ", " between each pair |
| DocChat.ErrorMessageHasNoCaption | src/components/ChatInterface.jsx:32 | the error reply shows no caption |
| ChatPage.Echo | src/pages/chat/chat.jsx:100 | the simulated answer's length is the fixed text plus the question |
| ChatPage.EchoInjective | src/pages/chat/chat.jsx:100 | different questions get different answers: the answer quotes the question whole |
| ChatPage.SeedSessionsNumbered | src/pages/chat/chat.jsx:11-26 | the seeded sessions satisfy the "New Chat n" numbering invariant |
| ChatPage.PrependKeepsNumbering | src/pages/chat/chat.jsx:108-118 | prepending a session keeps the numbering when it is not a "New Chat" or carries the next number |
| ChatPage.NewChatNamesDistinct | src/pages/chat/chat.jsx:112 | under the numbering invariant no two "New Chat" sessions share a name |
| ChatPage.InitNumbered | src/pages/chat/chat.jsx:11-31 | the page starts on the two seeded sessions, which satisfy the numbering invariant, with nothing selected, no messages, no URL and no reply pending |
| ChatPage.Bootstrap | src/pages/chat/chat.jsx:34-64 | only when both stored items exist: the session ("Chat with <name>", the file's name, "New conversation", "Just now") is prepended and selected, and the messages become one greeting naming the file, with the stored URL. Otherwise nothing changes. The input and pending replies are untouched, and the numbering invariant is kept |
| ChatPage.SelectChat | src/pages/chat/chat.jsx:66-81 | the id is always selected; an unknown id changes nothing else; a known one takes its PDF name from the first session with it and replaces the messages by one restored note |
| ChatPage.Send | src/pages/chat/chat.jsx:83-106 | blank input changes nothing; otherwise one user message is appended, the input cleared and one reply queued. The session list, the selection and the PDF are never touched |
| ChatPage.Fire | src/pages/chat/chat.jsx:97-105 | the oldest queued reply is appended, quoting its question, to whatever messages are on screen; sessions, selection, input and PDF stay as they are |
| ChatPage.CreateNewChat | src/pages/chat/chat.jsx:108-128 | exactly one session "New Chat <n + 1>" for the current PDF, with last message "New conversation" and time "Just now", is prepended, the others keep their order, the new id is selected and the messages are one greeting; input, pending replies and PDF stay as they are; the numbering invariant is kept |
| ChatPage.TurnAddsTwoMessages | src/pages/chat/chat.jsx:93-105 | with no reply pending, a send and its reply add the question and the answer quoting it |
| ChatPage.ReplyFollowsNewChat | src/pages/chat/chat.jsx:97-127 | a reply pending when a new chat is created appears under the new chat's greeting |
| ChatPage.UploadOpensChat | src/pages/chat/chat.jsx:34-64 | after the upload page stored a PDF, the chat page opens on a new selected session for that file's name and URL |
| PdfLibrary.Fetched | src/pages/pdf/pdf-library.jsx:18-33 | an ok fetch replaces the list; any outcome ends loading |
| PdfLibrary.FetchedShowsAll | src/pages/pdf/pdf-library.jsx:18-33 | after an ok fetch with an empty search, the page shows exactly the fetched PDFs, and its totals are the fetched list's |
| PdfLibrary.InitShowsNothing | src/pages/pdf/pdf-library.jsx:9-12 | the page starts loading, sorted by date, showing nothing, with zero totals |
| PdfLibrary.Delete | src/pages/pdf/pdf-library.jsx:35-54 | corrected delete (see Findings): only a confirmed delete with an ok response changes the list. It then holds exactly the current records with another id, in their order |
| PdfLibrary.DeleteCaptured | src/pages/pdf/pdf-library.jsx:35-54 | delete as written: only a confirmed delete with an ok response changes the list. It then holds exactly the records captured at the click that have another id, in their order, whatever the list became meanwhile |
| PdfLibrary.OverlappingDeletesResurrect | src/pages/pdf/pdf-library.jsx:49 | as written, two overlapping deletes of A and B on [A, B] end with [A]: the first removal is lost |
| PdfLibrary.DeleteCapturedAlone | src/pages/pdf/pdf-library.jsx:49 | with no other change in flight, the delete as written and the corrected one agree |
| PdfLibrary.OverlappingDeletesRemoveBoth | src/pages/pdf/pdf-library.jsx:49 | with the corrected delete, two deletes leave exactly the records with neither id, in their order |
| PdfLibrary.DeleteIdempotent | src/pages/pdf/pdf-library.jsx:49 | deleting the same id twice is deleting it once |
| PdfLibrary.KeyOf | src/pages/pdf/pdf-library.jsx:59-66 | "name" and "chats" select their orders; every other value sorts by date |
| PdfLibrary.LeTotal | src/pages/pdf/pdf-library.jsx:58-67 | the comparator orders any two records |
| PdfLibrary.LeTransitive | src/pages/pdf/pdf-library.jsx:58-67 | the comparator is transitive |
| PdfLibrary.SortedPairs | src/pages/pdf/pdf-library.jsx:58-67 | in a sorted list every record may precede every later one |
| PdfLibrary.Insert | src/pages/pdf/pdf-library.jsx:58 | an insertion adds one record |
| PdfLibrary.InsertSorted | src/pages/pdf/pdf-library.jsx:58-67 | inserting into a sorted list keeps it sorted |
| PdfLibrary.InsertPermutes | src/pages/pdf/pdf-library.jsx:58 | an insertion adds its record and loses none |
| PdfLibrary.Sort | src/pages/pdf/pdf-library.jsx:58-68 | the sort neither adds nor drops records and its output is in comparator order |
| PdfLibrary.TiesOfAppend | src/pages/pdf/pdf-library.jsx:58 | the records tied with a given one are found part by part |
| PdfLibrary.InsertKeepsTies | src/pages/pdf/pdf-library.jsx:58 | an insertion goes before every record tied with it |
| PdfLibrary.SortStable | src/pages/pdf/pdf-library.jsx:58-68 | records the comparator cannot tell apart keep their relative order |
| PdfLibrary.View | src/pages/pdf/pdf-library.jsx:56-68 | the shown list holds exactly the stored records whose lower-cased name includes the lower-cased query, each exactly as often as it occurs among the stored matches, in the chosen order |
| PdfLibrary.ViewStable | src/pages/pdf/pdf-library.jsx:56-68 | records the chosen order ranks equal are shown in the order they are stored |
| PdfLibrary.ViewOrdered | src/pages/pdf/pdf-library.jsx:59-66 | names ascend under "name"; chat counts descend under "chats"; upload times descend under "date" and any other key |
| PdfLibrary.EmptyQueryShowsAll | src/pages/pdf/pdf-library.jsx:57 | an empty search shows every stored record |
| PdfLibrary.ViewTotals | src/pages/pdf/pdf-library.jsx:205-210 | with an empty search the shown list has the stored list's total chats and bytes |
| PdfLibrary.DeleteSplitsSum | src/pages/pdf/pdf-library.jsx:49 | any sum over the list is the sum over the kept records plus the sum over the removed ones |
| PdfLibrary.DeleteTotals | src/pages/pdf/pdf-library.jsx:205-210 | a delete (line 49) lowers total chats and total bytes by exactly the removed records' share |
| PdfLibrary.TotalChats | src/pages/pdf/pdf-library.jsx:205 | the chat total is never negative and at least any one PDF's chat count |
| PdfLibrary.TotalBytes | src/pages/pdf/pdf-library.jsx:210 | the byte total is never negative and at least any one PDF's size |
| ChatHistory.Fetched | src/pages/chat/chat-history.jsx:14-29 | an ok fetch replaces the list; any outcome ends loading |
| ChatHistory.FetchedLabel | src/pages/chat/chat-history.jsx:14-29 | after an ok fetch the header counts the fetched sessions; after any other outcome it counts the sessions already shown; loading ends |
| ChatHistory.InitCountsNothing | src/pages/chat/chat-history.jsx:7-8 | the panel starts loading, with no sessions and the header "0 sessions" |
| ChatHistory.Delete | src/pages/chat/chat-history.jsx:31-50 | corrected delete (see Findings): only a confirmed delete with an ok response changes the list. It then holds exactly the current sessions with another id, in their order |
| ChatHistory.DeleteCaptured | src/pages/chat/chat-history.jsx:31-50 | delete as written: only a confirmed delete with an ok response changes the list. It then holds exactly the sessions captured at the click that have another id, in their order, whatever the list became meanwhile |
| ChatHistory.OverlappingDeletesResurrect | src/pages/chat/chat-history.jsx:45 | as written, two overlapping deletes of A and B on [A, B] end with [A]: the first removal is lost |
| ChatHistory.DeleteCapturedAlone | src/pages/chat/chat-history.jsx:45 | with no other change in flight, the delete as written and the corrected one agree |
| ChatHistory.OverlappingDeletesRemoveBoth | src/pages/chat/chat-history.jsx:45 | with the corrected delete, two deletes leave exactly the sessions with neither id, in their order |
| ChatHistory.DeleteCount | src/pages/chat/chat-history.jsx:45 | a delete shortens the list by exactly the number of sessions with that id |
| ChatHistory.CountLabel | src/pages/chat/chat-history.jsx:85 | the header is the decimal rendering of the number of sessions (no leading zero, reading back as that number), followed by " sessions" |
| ChatHistory.CountLabelFaithful | src/pages/chat/chat-history.jsx:85 | two headers are equal exactly when the lists have the same length |
| Upload.HandleFile | src/pages/pdf/upload.jsx:11-17 | a file of type "application/pdf" becomes the held file; any other type changes nothing; only a PDF is ever held |
| Upload.Drop | src/pages/pdf/upload.jsx:19-25 | an empty drop changes nothing; otherwise only the first file is considered |
| Upload.Select | src/pages/pdf/upload.jsx:27-32 | a missing file list changes nothing; only a PDF is ever held |
| Upload.SelectIsDrop | src/pages/pdf/upload.jsx:19-32 | selecting files and dropping the same files have the same effect |
| Upload.DropPdfFirst | src/pages/pdf/upload.jsx:19-25 | dropping a PDF first holds exactly that file, whatever else is dropped |
| Upload.Remove | src/pages/pdf/upload.jsx:34-36 | removal leaves no file held and changes nothing else |
| Upload.StartChatting | src/pages/pdf/upload.jsx:38-54 | without a file nothing happens. With one, the stored record carries exactly its name, size and type, the URL is stored and the page moves on |
| PdfViewer.ZoomOut | src/pages/pdf/pdf-viewver.jsx:16 | zoom-out never goes below 50 and lowers by at most 25 |
| PdfViewer.ZoomIn | src/pages/pdf/pdf-viewver.jsx:25 | zoom-in never goes above 200 and raises by at most 25 |
| PdfViewer.ApplyKeepsValid | src/pages/pdf/pdf-viewver.jsx:5-25 | after any sequence of presses the zoom is between 50 and 200 and a multiple of 25 |
| PdfViewer.ReachableZoomsValid | src/pages/pdf/pdf-viewver.jsx:5-25 | the viewer opens at 100, a valid level, so every level the buttons reach from it is valid |
| PdfViewer.InThenOut | src/pages/pdf/pdf-viewver.jsx:16-25 | for valid levels 50 to 175, zoom-in then zoom-out returns to the level |
| PdfViewer.OutThenIn | src/pages/pdf/pdf-viewver.jsx:16-25 | for valid levels 75 to 200, zoom-out then zoom-in returns to the level |
| PdfViewer.ClampedAtEnds | src/pages/pdf/pdf-viewver.jsx:16-25 | 200 is a fixed point of zoom-in and 50 of zoom-out |
| PdfViewer.Repeat | src/pages/pdf/pdf-viewver.jsx:16-25 | n presses of the same button |
| PdfViewer.RepeatedZoomIn | src/pages/pdf/pdf-viewver.jsx:25 | n zoom-ins add 25 each until the cap of 200 |
| PdfViewer.RepeatedZoomOut | src/pages/pdf/pdf-viewver.jsx:16 | n zoom-outs take 25 each until the floor of 50 |

## Left out

- Network, cookies, storage and dialogs. `fetch`, `cookies()`, `sessionStorage`, `URL.createObjectURL`, `confirm`, `alert`, `console` and navigation are not modelled. Their outcomes are parameters: ok, not ok or thrown; confirmed or not; the stored entries; the object URL.
- Timers. The `setTimeout` delays (src/pages/chat/chat.jsx:97, src/api/forgot-password.js:19) are not modelled as concurrency. A pending simulated reply is a queue entry that a separate `Fire` step consumes.
- Clock values. `Date.now()` ids, `new Date()` timestamps, `toISOString`, `toLocaleTimeString` and `toLocaleDateString` are parameters.
- Megabyte display. The `/ 1024 / 1024` and `toFixed` formatting (src/pages/pdf/pdf-library.jsx:166 and 210) is floating point; only the byte sums are modelled.
- PdfLibrary.Le: `localeCompare` is replaced by code-point lexicographic order, because locale collation is outside the model. The proved sort properties hold for this stand-in order.
- Text.Lower: only ASCII capitals are lowered. Unicode case mapping is not modelled, so the search filter is exact only for ASCII names and queries.
- Upload dates: `uploadedAt` is a millisecond count. A date string that `new Date` cannot parse (giving NaN in the comparator) is not modelled.
- Missing import: `NextResponse` is used without an import in register.js, login.js, forgot-password.js and reset-password.js (me.js imports it from `next/server`). The model assumes it is in scope; as written, those four handlers would throw a ReferenceError.
- Request bodies: JSON field values are strings or absent. Non-string values (numbers, objects) in the body are not modelled.
- TypeScript syntax: chat-interface.jsx and pdf-library.jsx contain TypeScript type arguments (`useState<string | null>`, `useRef<HTMLDivElement>`) although they are `.jsx` files. They are read as plain calls.
- Missing lists: `data.pdfs` is assumed to be a list. An ok body without `pdfs` (which would crash rendering) is not modelled. The same holds for `ChatHistory.Fetched` and `data.chats`.
- Stored file record: the stored "uploadedFile" entry is taken to be the record the upload page wrote. A `JSON.parse` failure on a foreign entry is not modelled.
- Loaded timestamps: the `new Date(msg.timestamp)` conversion of loaded messages is not modelled.
- Presentation and routing: scrolling, the suggested-question buttons, the panel toggles, `ProtectedRoute` and the landing, header, layout and auth pages have no rules beyond rendering.
- Server side: no file holds a document, session or message store; the pages only call such endpoints, and none is modelled.
- Logout: src/api/logout.js only clears the cookie and is not part of this model.
- Refetch during a delete: chat-history.jsx refetches when `pdfId` changes without raising `isLoading`, so a fetch can also land while a delete is awaited. `DeleteCaptured` covers this case too, since any intervening change is overwritten by the captured list.

## Findings

| source | as written | input that shows it | evidently intended | confidence | as-written member | corrected member |
|---|---|---|---|---|---|---|
| src/pages/pdf/pdf-library.jsx:49 | `setPdfs(pdfs.filter(...))` filters the list captured when the delete began | pdfs [A, B]; delete A and confirm; delete B and confirm before A's response; both responses ok. The list ends as [A], so A reappears although the server deleted it | each delete removes its PDF from the list as it then stands (`setPdfs((prev) => prev.filter(...))`), so the list ends empty | medium, not executed | PdfLibrary.OverlappingDeletesResurrect | PdfLibrary.OverlappingDeletesRemoveBoth |
| src/pages/chat/chat-history.jsx:45 | `setChatSessions(chatSessions.filter(...))` filters the list captured when the delete began | sessions [A, B]; delete A and confirm; delete B and confirm before A's response; both responses ok. The list ends as [A] | each delete removes its session from the list as it then stands, so the list ends empty | medium, not executed | ChatHistory.OverlappingDeletesResurrect | ChatHistory.OverlappingDeletesRemoveBoth |

The rest of the model uses the corrected `Delete` of each module. `DeleteCaptured` is the code as written, and `DeleteCapturedAlone` shows that the two agree when only one delete is in flight.
