# go-gpt-email responder, modelled in Dafny

The program is an unattended mail responder. On every tick it opens an IMAP session and
searches for unread messages whose subject contains `gpt-go-email`. It fetches them and,
for each message, takes the plain-text body and sends it to the chat-completion service.
It mails the answer, or a fixed apology, back to the first sender.

This project models the decisions the code in `main.go` makes around its library calls:

- `Mime` holds the body-selection loop of `processMessage`. The last `text/plain` part wins.
  A reader, part-iteration, media-type or read error stops the whole process.
- `Completion` models `callChatGPT`. It covers the one-message request it builds and the
  guard chain over the decoded JSON response. That chain has three outcomes: an answer, an
  error, or a panic from the two unchecked type assertions.
- `Framing` holds the exact bytes `sendAutoReply` submits. It also holds a reader for the
  header and body layout of section 2.1 of RFC 5322, against which those bytes are proved.
- `Responder` models `processMessage`. It covers the sender and body guards, the reply
  address, the completion call with its apology fallback and the reply.
  `ProcessMessage` is proved equal to the specification function `Process`.
- `Poll` models the part of `connectAndFetchEmails` after the search. An empty search ends
  the cycle. Otherwise the fetched messages are processed in order until one of them ends
  the process.
- `Text` and `Wrappers` are helpers: string searches and an `Option` type.

Each loop of the modelled core is a method with invariants: `Mime.DecodeBody` and
`Poll.ConnectAndFetch`. Each is proved equal to a specification function, and the lemmas
state the properties of those functions. The collaborators become inputs:

- A fetched message is a value holding its envelope and its already-parsed MIME parts.
- The completion service is a function from the request's JSON to an `Exchange`. The
  exchange is a transport failure, or a status code with a body that does or does not
  decode as JSON.
- The outside effects of a message are a sequence of `Effect`s: completion requests and
  mail submissions. "Nothing is requested or sent" is then a statement about that sequence.

Two details of the code that the model keeps:

- The assertions on `choices[0]` and its `message` at `main.go:220` are unchecked, so a
  non-object first choice or a missing or non-object `message` panics. The model returns
  `Panicked`, and `Responder.Process` ends the process.
- The code keeps a part when its media type has `text/plain` as a prefix (`main.go:135`),
  and the model does the same.

## Model

| member | source | states |
|---|---|---|
| `Completion.RequestCarriesPrompt` | main.go:181-186 | the request names model `gpt-3.5-turbo` and holds exactly one message, with role `user` and the prompt as its content, so no earlier exchange is sent along |
| `Completion.DecodedObject` | main.go:210-213 | a top-level JSON object decodes to its fields; `null` decodes to an empty map; any other value is a decoding error |
| `Completion.Choices` | main.go:205-218 | the checked guards pass only for a 200 response whose body decodes to an object with a non-empty `choices` array |
| `Completion.FromChoice` | main.go:220-225 | the first choice yields its `message.content` when that is a string; it panics exactly when the choice or its `message` is not an object; otherwise it is a missing-content error |
| `Completion.ExtractAnswer` | main.go:199-225 | a transport failure, a non-200 status and an undecodable body are errors; a JSON `null` body is a missing-choices error; any non-error answer comes from the first choice of a non-empty `choices` array |
| `Completion.DocumentedShapeAnswers` | main.go:215-225 | a `{choices:[{message:{content:s}}, ...]}` response yields `s` unchanged, whatever other fields it carries |
| `Completion.MissingChoicesFails` | main.go:215-218 | a missing, non-array or empty `choices` is an error, not a panic |
| `Completion.MissingContentFails` | main.go:220-223 | a first message whose `content` is missing or not a string is an error |
| `Completion.MalformedChoicePanics` | main.go:220 | a first choice that is not an object, or whose `message` is missing or not an object, panics |
| `Mime.DecodeBody` | main.go:114-142 | the decoding loop computes `Mime.Decode` of the body |
| `Mime.LastPlain` | main.go:135-141 | the reference definition of "last text/plain part": that part is text/plain and no later part is |
| `Mime.ScanKeepsLastPlain` | main.go:119-142 | when no part breaks and the iterator ends cleanly, the text is that of the last text/plain part; earlier ones are overwritten, not joined |
| `Mime.ScanStopsAtFirstBreak` | main.go:129-139 | the first malformed media type, or the first unreadable text/plain part, decides the failure; later parts are never looked at |
| `Mime.ScanFailsAtIterationError` | main.go:120-127 | a part-iteration error after readable parts is still a failure |
| `Mime.SinglePlainPart` | main.go:135-141 | a body with exactly one text/plain part yields that part's content unchanged |
| `Mime.LaterPlainPartWins` | main.go:140 | a text/plain part placed after any others replaces what they gave |
| `Mime.NoPlainPartGivesEmptyText` | main.go:119 | without a text/plain part the decoded text is empty |
| `Framing.ReplyMessageParses` | main.go:164-167 | for a recipient without a carriage return, the reply reads back as exactly the fields `To: <to>` and `Subject: Re:gpt-go-email`, with the response plus CRLF as its body, whatever the response contains |
| `Framing.ParseMessage` | main.go:164-167 | any message the header reader accepts renders back to the same bytes |
| `Responder.SenderAddressSplits` | main.go:97 | the reply address is mailbox name, `@`, host name; reading it back at its last `@` recovers both |
| `Responder.ReplyText` | main.go:143-147 | a completion error gives the fixed apology; a completion text is used unchanged |
| `Responder.ProcessMessage` | main.go:90-154 | processing a message computes `Responder.Process`: its outcome and its completion requests and submissions |
| `Responder.NoSenderIsSkipped` | main.go:91-94 | a message with no envelope or an empty From list is skipped; nothing is requested or sent |
| `Responder.NoBodyIsSkipped` | main.go:102-112 | a message with no body sections, or no full body section, is skipped; nothing is requested or sent |
| `Responder.SkipIffNoSenderOrBody` | main.go:90-112 | a message is skipped if and only if it lacks a sender or a body |
| `Responder.ReplyGoesToFirstSender` | main.go:97 | a reply goes to the first sender; changing any sender after the first changes nothing |
| `Responder.SubjectIsIgnored` | main.go:98 | the original subject does not affect the outcome or the bytes sent |
| `Responder.PromptIsLastPlainText` | main.go:119-143 | the first effect is a completion request for the last text/plain part's text, or for the empty text when there is none |
| `Responder.DecodeFailureAborts` | main.go:114-139 | a decoding failure aborts with the failure of the first breaking part; nothing is requested or sent |
| `Responder.EveryDecodeFailureAborts` | main.go:114-139 | any decoding failure aborts with that failure and nothing requested or sent: a rejected header aborts with the reader failure, and a failing part iterator after readable parts aborts with the iteration failure |
| `Responder.ReplyCarriesAnswerOrApology` | main.go:143-153 | a completion text is replied unchanged, a completion error is replied with the apology, and a panic ends the process; a reply's effects are exactly one request, then one submission of the framed reply |
| `Responder.HelloIsAnswered` | main.go:90-167 | a body "Hello" that the service answers with "Hi there" gets the reply "Hi there" |
| `Responder.ServerErrorIsApologised` | main.go:205-208 | a service that answers with status 500 gets the sender the apology |
| `Poll.ConnectAndFetch` | main.go:59-78 | the cycle's loop computes `Poll.PollCycle` |
| `Poll.ProcessAllInOrder` | main.go:76-78 | messages are processed in fetch order, all of them unless one ends the process, and none after the first that does |
| `Poll.StopsAtFirstTermination` | main.go:76-78 | when message k is the first to end the process, exactly k+1 messages are processed |
| `Poll.EveryMessageProcessed` | main.go:76-78 | skips, replies and failed sends never stop the cycle |
| `Poll.EmptySearchShortCircuits` | main.go:59-62 | an empty search result ends the cycle before any fetch or processing |

## Left out

- Connecting, logging in, selecting the inbox and searching (`main.go:33-57`), with their fatal errors, are IMAP library and network calls. The search result enters the model as a sequence of ids.
- The fetch goroutine and its buffered channel (`main.go:64-75`) are concurrency. The fetch is a given sequence of messages consumed in order. A fetch error (`main.go:71-73`) ends the process at a time that depends on scheduling, so it is not modelled.
- The ticker loop (`main.go:81-88`) is time-driven and never ends. Only one poll cycle is modelled.
- The deferred `Logout` (`main.go:37`) is a library call, and `log.Fatal` skips it anyway.
- MIME parsing (`mail.CreateReader`, `NextPart`, `mime.ParseMediaType`, `io.ReadAll`) is library code. Its results enter the model as parsed parts or as the error each call reported. A part with no Content-Type header counts as a media-type parse error.
- The HTTP request, its headers and endpoint, and JSON encoding and decoding are library code. The model keeps the request as a JSON value and the decoded response with its status code. The request-building errors at `main.go:187-194` are not modelled: marshalling a map of strings and building a request for a constant URL do not fail.
- The completion service is modelled as a function of the request. A service that answers the same request differently on different calls is not modelled.
- The SMTP submission (`main.go:157-171`), its authentication and environment variables are library and environment calls. A submission is recorded as an `Effect`. Its success or failure is only logged, so it has no place in the outcome.
- Environment loading (`main.go:24-29`), logging and printing have no effect on the decisions.
- Error texts are not modelled. A `Completion.Failure` names which guard failed, because the text only reaches the log.
- Text is modelled as characters. The body is read as bytes and converted with `string(b)`, and `json.Marshal` (`main.go:181`) replaces invalid UTF-8 bytes with U+FFFD, so a body that is not valid UTF-8 does not reach the service unchanged. The model does not capture that replacement.
- JSON numbers are `real`. Duplicate object keys and other decoder details are not modelled.
- Framing.ReplyMessageParses: holds only for a recipient without a carriage return. A mailbox or host name carrying CR LF would add header lines, and whether the mail library refuses such a recipient is outside this model.
- Framing.ParseMessage: reads unfolded header lines only. Folding (section 2.2.3 of RFC 5322) is not needed for the bytes the responder writes.
