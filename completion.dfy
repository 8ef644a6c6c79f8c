/**
 * The completion client (callChatGPT in main.go): the request it builds for a
 * prompt, and the guard chain that turns the service's answer into the reply
 * text, an error, or a run-time panic.
 */
module Completion {
  import opened Wrappers

  /** A JSON value as encoding/json leaves it in an interface{}. */
  datatype Json =
    | Null
    | Bool(b: bool)
    | Num(n: real)
    | Str(s: string)
    | Arr(items: seq<Json>)
    | Obj(fields: map<string, Json>)

  const ChatModel: string := "gpt-3.5-turbo"
  const StatusOK: int := 200

  /** What the client receives for its request: no response at all, or a status code with a body
      that either decodes as JSON (`Some`) or does not (`None`). */
  datatype Exchange =
    | TransportFailure
    | Response(status: int, payload: Option<Json>)

  /** The error the client returns instead of a text. */
  datatype Failure =
    | RequestFailed
    | StatusNotOK(status: int)
    | Undecodable
    | NoChoices
    | NoContent

  /** The three ways callChatGPT ends: a text, an error value, or a panic from a failed type assertion. */
  datatype Answer =
    | Answered(content: string)
    | Failed(failure: Failure)
    | Panicked

  /** The request body: the fixed model and a single message whose role is `user` and whose content is the prompt. */
  function RequestBody(prompt: string): Json
  {
    Obj(map[
      "model" := Str(ChatModel),
      "messages" := Arr([Obj(map["role" := Str("user"), "content" := Str(prompt)])])
    ])
  }

  /** Reads a chat request the way the service does: the prompt of a request for the fixed model
      that holds exactly one message, from the `user` role. */
  function RequestedPrompt(request: Json): Option<string>
  {
    if request.Obj?
       && "model" in request.fields && request.fields["model"] == Str(ChatModel)
       && "messages" in request.fields && request.fields["messages"].Arr?
       && |request.fields["messages"].items| == 1
    then
      var message := request.fields["messages"].items[0];
      if message.Obj?
         && "role" in message.fields && message.fields["role"] == Str("user")
         && "content" in message.fields && message.fields["content"].Str?
      then Some(message.fields["content"].s)
      else None
    else None
  }

  /** Every request is a one-turn conversation carrying the prompt unchanged: nothing of an
      earlier exchange is sent along. */
  lemma RequestCarriesPrompt(prompt: string)
    ensures RequestedPrompt(RequestBody(prompt)) == Some(prompt)
  {
  }

  /** The top-level object the decoder fills: a JSON null leaves the map nil, which reads as
      empty; any value that is not an object fails to decode into the map. */
  function DecodedObject(j: Json): (r: Option<map<string, Json>>)
    ensures r.Some? <==> j.Obj? || j.Null?
    ensures j.Obj? ==> r == Some(j.fields)
    ensures j.Null? ==> r == Some(map[])
  {
    match j
    case Obj(fields) => Some(fields)
    case Null => Some(map[])
    case _ => None
  }

  /** The checked part of the guard chain: a 200 response that decodes to an object whose
      `choices` is a non-empty array. */
  function Choices(ex: Exchange): (r: Option<seq<Json>>)
    ensures r.Some? ==> |r.value| > 0
    ensures r.Some? ==> ex.Response? && ex.status == StatusOK && ex.payload.Some?
    ensures r.Some? ==> ex.payload.value.Obj? && "choices" in ex.payload.value.fields
                        && ex.payload.value.fields["choices"] == Arr(r.value)
  {
    match ex
    case TransportFailure => None
    case Response(status, payload) =>
      if status != StatusOK || payload.None? then None
      else match DecodedObject(payload.value)
        case None => None
        case Some(top) =>
          if "choices" in top && top["choices"].Arr? && |top["choices"].items| > 0
          then Some(top["choices"].items)
          else None
  }

  /** The unchecked part: the first choice and its `message` must be objects, or the type
      assertion panics; only the final `content` assertion is checked. */
  function FromChoice(choice: Json): (r: Answer)
    ensures r.Answered? <==> choice.Obj? && "message" in choice.fields && choice.fields["message"].Obj?
                             && "content" in choice.fields["message"].fields
                             && choice.fields["message"].fields["content"].Str?
    ensures r.Panicked? <==> !(choice.Obj? && "message" in choice.fields && choice.fields["message"].Obj?)
    ensures r.Answered? ==> Str(r.content) == choice.fields["message"].fields["content"]
    ensures r.Failed? ==> r.failure == NoContent
  {
    if !choice.Obj? || "message" !in choice.fields || !choice.fields["message"].Obj? then Panicked
    else
      var message := choice.fields["message"].fields;
      if "content" in message && message["content"].Str? then Answered(message["content"].s)
      else Failed(NoContent)
  }

  /** The answer callChatGPT gives for what the service sent back. */
  function ExtractAnswer(ex: Exchange): (r: Answer)
    ensures ex.TransportFailure? ==> r == Failed(RequestFailed)
    ensures ex.Response? && ex.status != StatusOK ==> r == Failed(StatusNotOK(ex.status))
    ensures ex.Response? && ex.status == StatusOK && ex.payload.None? ==> r == Failed(Undecodable)
    ensures ex == Response(StatusOK, Some(Null)) ==> r == Failed(NoChoices)
    ensures !r.Failed? ==> Choices(ex).Some? && r == FromChoice(Choices(ex).value[0])
  {
    match ex
    case TransportFailure => Failed(RequestFailed)
    case Response(status, payload) =>
      if status != StatusOK then Failed(StatusNotOK(status))
      else if payload.None? || DecodedObject(payload.value).None? then Failed(Undecodable)
      else match Choices(ex)
        case None => Failed(NoChoices)
        case Some(choices) => FromChoice(choices[0])
  }

  /** callChatGPT as a whole, against a completion service that answers each request. */
  function Complete(service: Json -> Exchange, prompt: string): Answer
  {
    ExtractAnswer(service(RequestBody(prompt)))
  }

  /** The documented response shape yields its content unchanged, whatever other fields,
      further choices or further message keys come along. */
  lemma DocumentedShapeAnswers(top: map<string, Json>, choice: map<string, Json>, more: seq<Json>,
                               message: map<string, Json>, content: string)
    requires "choices" in top && top["choices"] == Arr([Obj(choice)] + more)
    requires "message" in choice && choice["message"] == Obj(message)
    requires "content" in message && message["content"] == Str(content)
    ensures ExtractAnswer(Response(StatusOK, Some(Obj(top)))) == Answered(content)
  {
    assert Choices(Response(StatusOK, Some(Obj(top)))) == Some([Obj(choice)] + more);
  }

  /** A body without a usable `choices` array is an error, not a panic. */
  lemma MissingChoicesFails(top: map<string, Json>)
    requires "choices" !in top || !top["choices"].Arr? || top["choices"].items == []
    ensures ExtractAnswer(Response(StatusOK, Some(Obj(top)))) == Failed(NoChoices)
  {
  }

  /** A first choice whose message has no string `content` is an error. */
  lemma MissingContentFails(top: map<string, Json>, choice: map<string, Json>, more: seq<Json>,
                            message: map<string, Json>)
    requires "choices" in top && top["choices"] == Arr([Obj(choice)] + more)
    requires "message" in choice && choice["message"] == Obj(message)
    requires "content" !in message || !message["content"].Str?
    ensures ExtractAnswer(Response(StatusOK, Some(Obj(top)))) == Failed(NoContent)
  {
    assert Choices(Response(StatusOK, Some(Obj(top)))) == Some([Obj(choice)] + more);
  }

  /** A first choice that is not an object, or whose `message` is missing or not an object,
      makes the unchecked type assertions panic. */
  lemma MalformedChoicePanics(top: map<string, Json>, first: Json, more: seq<Json>)
    requires "choices" in top && top["choices"] == Arr([first] + more)
    requires !first.Obj? || "message" !in first.fields || !first.fields["message"].Obj?
    ensures ExtractAnswer(Response(StatusOK, Some(Obj(top)))) == Panicked
  {
    assert Choices(Response(StatusOK, Some(Obj(top)))) == Some([first] + more);
  }
}
