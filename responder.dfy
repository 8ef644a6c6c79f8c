/**
 * processMessage (main.go): the decisions taken for one fetched message. A message
 * without a sender or without a body is skipped; otherwise its text/plain body is
 * sent for completion and the answer, or a fixed apology, is mailed back to the
 * first sender.
 */
module Responder {
  import opened Wrappers
  import opened Text
  import opened Completion
  import opened Mime
  import opened Framing

  /** One mailbox of an envelope address list. */
  datatype Address = Address(mailboxName: string, hostName: string)

  datatype Envelope = Envelope(subject: string, from: seq<Address>)

  /** The fetched body sections: none at all (a nil map), or a map in which the full body
      section may be missing. */
  datatype Body = NilBody | Sections(full: Option<MimeBody>)

  /** A fetched message: its envelope, if the server sent one, and its body sections. */
  datatype FetchedMessage = FetchedMessage(envelope: Option<Envelope>, body: Body)

  datatype SkipReason = NoSender | NoBody | NoFullSection

  /** How processMessage ends. `Abort` and `Panic` end the whole process; a failed send is
      only logged, so it leaves a `Reply`. */
  datatype Outcome =
    | Skip(reason: SkipReason)
    | Abort(failure: DecodeFailure)
    | Panic
    | Reply(to: string, text: string)
  {
    /** The outcome ends the process, so nothing after it runs. */
    predicate Terminates()
    {
      Abort? || Panic?
    }
  }

  /** What the responder does to the outside world: ask for a completion, submit a mail. */
  datatype Effect =
    | Ask(request: Json)
    | Submit(to: string, message: string)

  datatype Processed = Processed(outcome: Outcome, effects: seq<Effect>)

  /** The reply text used when the completion fails. */
  const Apology: string := "Hubo un error en ChatGPT. Disculpe la demora."

  /** The reply address: mailbox name and host name of a sender, joined by `@`. */
  function SenderAddress(a: Address): string
  {
    a.mailboxName + "@" + a.hostName
  }

  /** Reads an address back at its last `@`: a host name never holds one, a quoted mailbox
      name may (section 3.4.1 of RFC 5322). */
  function SplitAddress(addr: string): Option<Address>
  {
    match LastIndexOf(addr, '@')
    case None => None
    case Some(i) => Some(Address(addr[..i], addr[i + 1..]))
  }

  /** The reply address gives back the sender's mailbox name and host name. */
  lemma SenderAddressSplits(a: Address)
    requires '@' !in a.hostName
    ensures SplitAddress(SenderAddress(a)) == Some(a)
  {
    LastBeforeSuffix(a.mailboxName, '@', a.hostName);
    var addr := SenderAddress(a);
    assert addr == a.mailboxName + ['@'] + a.hostName;
    assert addr[..|a.mailboxName|] == a.mailboxName;
    assert addr[|a.mailboxName| + 1..] == a.hostName;
  }

  /** The reply text: the completion's content, or the apology when the completion failed. */
  function ReplyText(answer: Answer): (text: string)
    requires !answer.Panicked?
    ensures answer.Answered? ==> text == answer.content
    ensures answer.Failed? ==> text == Apology
  {
    if answer.Answered? then answer.content else Apology
  }

  /** The message has a sender to answer. */
  predicate HasSender(msg: FetchedMessage)
  {
    msg.envelope.Some? && |msg.envelope.value.from| > 0
  }

  /** What processing one message amounts to, against a completion service. */
  function Process(msg: FetchedMessage, service: Json -> Exchange): Processed
  {
    if !HasSender(msg) then Processed(Skip(NoSender), [])
    else
      var to := SenderAddress(msg.envelope.value.from[0]);
      match msg.body
      case NilBody => Processed(Skip(NoBody), [])
      case Sections(None) => Processed(Skip(NoFullSection), [])
      case Sections(Some(mime)) =>
        match Decode(mime)
        case DecodeFailed(failure) => Processed(Abort(failure), [])
        case Decoded(prompt) =>
          var request := RequestBody(prompt);
          var answer := ExtractAnswer(service(request));
          if answer.Panicked? then Processed(Panic, [Ask(request)])
          else
            var text := ReplyText(answer);
            Processed(Reply(to, text), [Ask(request), Submit(to, ReplyMessage(to, text))])
  }

  /** processMessage: the guards, the decoding loop, the completion call and the reply. */
  method ProcessMessage(msg: FetchedMessage, service: Json -> Exchange) returns (p: Processed)
    ensures p == Process(msg, service)
  {
    if msg.envelope.None? || |msg.envelope.value.from| == 0 {
      return Processed(Skip(NoSender), []);
    }
    var from := SenderAddress(msg.envelope.value.from[0]);
    if msg.body.NilBody? {
      return Processed(Skip(NoBody), []);
    }
    if msg.body.full.None? {
      return Processed(Skip(NoFullSection), []);
    }
    var decoded := DecodeBody(msg.body.full.value);
    if decoded.DecodeFailed? {
      return Processed(Abort(decoded.failure), []);
    }
    var request := RequestBody(decoded.text);
    var answer := ExtractAnswer(service(request));
    if answer.Panicked? {
      return Processed(Panic, [Ask(request)]);
    }
    var response := ReplyText(answer);
    p := Processed(Reply(from, response), [Ask(request), Submit(from, ReplyMessage(from, response))]);
  }

  /** A message without an envelope or without a sender is skipped with no completion
      request and no reply. */
  lemma NoSenderIsSkipped(msg: FetchedMessage, service: Json -> Exchange)
    requires msg.envelope.None? || msg.envelope.value.from == []
    ensures Process(msg, service) == Processed(Skip(NoSender), [])
  {
  }

  /** A message with a sender but no body sections, or no full body section, is skipped
      with no completion request and no reply. */
  lemma NoBodyIsSkipped(msg: FetchedMessage, service: Json -> Exchange)
    requires HasSender(msg)
    requires msg.body.NilBody? || msg.body.full.None?
    ensures Process(msg, service).outcome.Skip? && Process(msg, service).effects == []
  {
  }

  /** Only skips leave no trace: every other outcome follows a decoding attempt, and every
      reply follows one completion request for the decoded text. */
  lemma SkipIffNoSenderOrBody(msg: FetchedMessage, service: Json -> Exchange)
    ensures Process(msg, service).outcome.Skip?
        <==> !HasSender(msg) || msg.body.NilBody? || msg.body.full.None?
  {
  }

  /** A reply goes to the first sender, and the senders after it are ignored. */
  lemma ReplyGoesToFirstSender(msg: FetchedMessage, others: seq<Address>, service: Json -> Exchange)
    requires HasSender(msg)
    ensures var o := Process(msg, service).outcome;
            o.Reply? ==> o.to == SenderAddress(msg.envelope.value.from[0])
    ensures var e := msg.envelope.value;
            var msg' := msg.(envelope := Some(e.(from := [e.from[0]] + others)));
            Process(msg', service) == Process(msg, service)
  {
  }

  /** The original subject plays no part: the reply subject is fixed. */
  lemma SubjectIsIgnored(msg: FetchedMessage, subject: string, service: Json -> Exchange)
    requires msg.envelope.Some?
    ensures Process(msg.(envelope := Some(msg.envelope.value.(subject := subject))), service)
         == Process(msg, service)
  {
  }

  /** The completion is asked for the text of the last text/plain part, or for the empty
      text when there is none; the request is made even then. */
  lemma PromptIsLastPlainText(msg: FetchedMessage, service: Json -> Exchange)
    requires HasSender(msg) && msg.body.Sections? && msg.body.full.Some?
    requires msg.body.full.value.Parts?
    requires Decodable(msg.body.full.value.parts, msg.body.full.value.end)
    ensures var p := Process(msg, service);
            |p.effects| > 0 && p.effects[0] == Ask(RequestBody(LastPlainText(msg.body.full.value.parts, "")))
  {
    ScanKeepsLastPlain(msg.body.full.value.parts, msg.body.full.value.end, "");
  }

  /** A decoding failure aborts: the part is not skipped, and nothing is requested or sent. */
  lemma DecodeFailureAborts(msg: FetchedMessage, service: Json -> Exchange, k: nat)
    requires HasSender(msg) && msg.body.Sections? && msg.body.full.Some?
    requires msg.body.full.value.Parts?
    requires k < |msg.body.full.value.parts| && Breaks(msg.body.full.value.parts[k])
    requires forall j :: 0 <= j < k ==> !Breaks(msg.body.full.value.parts[j])
    ensures Process(msg, service)
         == Processed(Abort(PartFailure(msg.body.full.value.parts[k])), [])
  {
    ScanStopsAtFirstBreak(msg.body.full.value.parts, msg.body.full.value.end, "", k);
  }

  /** Every decoding failure aborts with nothing requested or sent: a header the mail reader
      rejects, a failing part iterator after parts that all read, and any other failure. */
  lemma EveryDecodeFailureAborts(msg: FetchedMessage, service: Json -> Exchange)
    requires HasSender(msg) && msg.body.Sections? && msg.body.full.Some?
    ensures Decode(msg.body.full.value).DecodeFailed? ==>
              Process(msg, service) == Processed(Abort(Decode(msg.body.full.value).failure), [])
    ensures msg.body.full.value.HeaderFailure? ==>
              Process(msg, service) == Processed(Abort(ReaderFailed), [])
    ensures var mime := msg.body.full.value;
            mime.Parts? && mime.end == IterationFailure
            && (forall j :: 0 <= j < |mime.parts| ==> !Breaks(mime.parts[j])) ==>
              Process(msg, service) == Processed(Abort(NextPartFailed), [])
  {
    var mime := msg.body.full.value;
    if mime.Parts? && mime.end == IterationFailure && forall j :: 0 <= j < |mime.parts| ==> !Breaks(mime.parts[j]) {
      ScanFailsAtIterationError(mime.parts, "");
    }
  }

  /** After a decoded body, the reply is the completion's content unchanged, or the apology
      when the completion failed, and it is framed by the reply layout. */
  lemma ReplyCarriesAnswerOrApology(msg: FetchedMessage, service: Json -> Exchange, prompt: string)
    requires HasSender(msg) && msg.body.Sections? && msg.body.full.Some?
    requires Decode(msg.body.full.value) == Decoded(prompt)
    ensures var answer := Complete(service, prompt);
            var to := SenderAddress(msg.envelope.value.from[0]);
            var p := Process(msg, service);
            && (answer.Answered? ==> p.outcome == Reply(to, answer.content))
            && (answer.Failed? ==> p.outcome == Reply(to, Apology))
            && (answer.Panicked? ==> p.outcome == Panic)
            && (p.outcome.Reply? ==> p.effects == [Ask(RequestBody(prompt)), Submit(to, ReplyMessage(to, p.outcome.text))])
  {
  }

  /** Scenario: a body "Hello" answered "Hi there" is replied to with "Hi there". */
  lemma HelloIsAnswered(sender: Address)
    ensures var msg := FetchedMessage(Some(Envelope("gpt-go-email", [sender])),
                                      Sections(Some(Parts([Part(MediaType("text/plain"), Content("Hello"))], Eof))));
            var answer := Obj(map["choices" := Arr([Obj(map["message" := Obj(map["content" := Str("Hi there")])])])]);
            var service := (request: Json) => if RequestedPrompt(request) == Some("Hello")
                                              then Response(StatusOK, Some(answer)) else TransportFailure;
            Process(msg, service).outcome == Reply(SenderAddress(sender), "Hi there")
  {
    var parts := [Part(MediaType("text/plain"), Content("Hello"))];
    assert PlainText <= "text/plain";
    SinglePlainPart([], parts[0], []);
    assert [] + [parts[0]] + [] == parts;
    RequestCarriesPrompt("Hello");
    var answer := Obj(map["choices" := Arr([Obj(map["message" := Obj(map["content" := Str("Hi there")])])])]);
    DocumentedShapeAnswers(answer.fields, map["message" := Obj(map["content" := Str("Hi there")])], [],
                           map["content" := Str("Hi there")], "Hi there");
  }

  /** Scenario: a service that answers with status 500 gets the sender the apology. */
  lemma ServerErrorIsApologised(msg: FetchedMessage, prompt: string, body: Option<Json>)
    requires HasSender(msg) && msg.body.Sections? && msg.body.full.Some?
    requires Decode(msg.body.full.value) == Decoded(prompt)
    ensures Process(msg, (request: Json) => Response(500, body)).outcome
         == Reply(SenderAddress(msg.envelope.value.from[0]), Apology)
  {
  }
}
