/** `OpenAIModel.get_model_response` in scripts/model.py: the request sent to
    an OpenAI-compatible chat-completions endpoint and the classification
    of what comes back into `(ok, text)`.

    The HTTP call is the parameter `post`, which maps the request to what
    the transport produced: a timeout, a failed request, another failure,
    or a decoded JSON response. Image encoding is the parameter `encode`.
    A `KeyError` the source lets escape is the reply `Raises(key)`. */
module OpenAIClient {
  import opened Wrappers
  import opened Text

  datatype Config = Config(baseUrl: string, apiKey: string, model: string, temperature: real, maxTokens: int)

  /** One block of the user message's `content` list. */
  datatype ContentPart = TextPart(text: string) | ImageUrlPart(url: string)

  datatype Payload = Payload(model: string, role: string, content: seq<ContentPart>, temperature: real, maxTokens: int)

  datatype Request = Request(url: string, headers: seq<(string, string)>, payload: Payload, timeoutSeconds: nat)

  /** The decoded response, reduced to the keys the classification reads.
      `None` is an absent key; an absent, `null` or empty `content` and
      `reasoning` are alike to the source. */
  datatype ApiError = ApiError(message: Option<string>)
  datatype Message = Message(content: Option<string>, reasoning: Option<string>)
  datatype Choice = Choice(message: Option<Message>)
  datatype Response = Response(error: Option<ApiError>, choices: Option<seq<Choice>>)

  datatype Transport =
    | TimedOut
    | RequestFailed(reason: string)
    | OtherFailure(reason: string)
    | Received(response: Response)

  /** The `(ok, text)` pair returned, or the key whose lookup raised. */
  datatype Reply = Reply(ok: bool, text: string) | Raises(key: string)

  const TimeoutSeconds := 120
  const DataUrlPrefix := "data:image/jpeg;base64,"
  const TimeoutMessage := "Request timeout after 120 seconds"
  const RequestFailedPrefix := "Request failed: "
  const ParseFailedPrefix := "Failed to parse response: "
  const MissingChoicesMessage := "Invalid response format: missing 'choices'"
  const EmptyResponseMessage := "Model returned empty response"

  function DataUrl(encoded: string): string {
    DataUrlPrefix + encoded
  }

  /** One `image_url` block per image, in the order given. */
  function ImageParts(images: seq<string>, encode: string -> string): (parts: seq<ContentPart>)
    ensures |parts| == |images|
    ensures forall k :: 0 <= k < |images| ==> parts[k] == ImageUrlPart(DataUrl(encode(images[k])))
  {
    if |images| == 0 then []
    else ImageParts(images[..|images| - 1], encode) + [ImageUrlPart(DataUrl(encode(images[|images| - 1])))]
  }

  /** The `content` list of the user message: the prompt, then the images. */
  function Content(prompt: string, images: seq<string>, encode: string -> string): (content: seq<ContentPart>)
    ensures |content| == 1 + |images|
    ensures content[0] == TextPart(prompt)
    ensures forall k :: 0 <= k < |images| ==> content[k + 1] == ImageUrlPart(DataUrl(encode(images[k])))
  {
    [TextPart(prompt)] + ImageParts(images, encode)
  }

  /** The POST request: JSON content type, bearer authorisation with the API
      key, one user message holding `content`, and a 120-second timeout. */
  function BuildRequest(config: Config, content: seq<ContentPart>): (r: Request)
    ensures r.url == config.baseUrl && r.timeoutSeconds == 120
    ensures r.headers == [("Content-Type", "application/json"), ("Authorization", "Bearer " + config.apiKey)]
    ensures r.payload.role == "user" && r.payload.content == content
    ensures r.payload.model == config.model && r.payload.temperature == config.temperature
    ensures r.payload.maxTokens == config.maxTokens
  {
    Request(config.baseUrl,
            [("Content-Type", "application/json"), ("Authorization", "Bearer " + config.apiKey)],
            Payload(config.model, "user", content, config.temperature, config.maxTokens),
            TimeoutSeconds)
  }

  /** `not s or len(s.strip()) == 0`. */
  predicate IsBlank(s: string): (b: bool)
    ensures b <==> forall i :: 0 <= i < |s| ==> IsSpace(s[i])
  {
    |Strip(s)| == 0
  }

  /** The text of the first choice, `""` when it has none. */
  function FirstContent(msg: Message): string {
    msg.content.GetOr("")
  }

  /** The response holds a non-empty `choices` list. */
  predicate HasChoices(resp: Response) {
    resp.choices.Some? && |resp.choices.value| > 0
  }

  /** What the source returns for a decoded response. */
  function ClassifyResponse(resp: Response): (r: Reply)
    // An `error` key decides the outcome before `choices` is looked at.
    ensures resp.error.Some? ==>
              r == match resp.error.value.message case Some(m) => Reply(false, m) case None => Raises("message")
    ensures resp.error.None? ==> (r == Reply(false, MissingChoicesMessage) <==> !HasChoices(resp))
    ensures r.Reply? && r.ok <==>
              && resp.error.None? && HasChoices(resp) && resp.choices.value[0].message.Some?
              && var msg := resp.choices.value[0].message.value;
                 !IsBlank(FirstContent(msg)) || (msg.reasoning.Some? && |msg.reasoning.value| > 0)
    ensures r.Reply? && r.ok ==>
              var msg := resp.choices.value[0].message.value;
              && |r.text| > 0
              && (!IsBlank(FirstContent(msg)) ==> r.text == FirstContent(msg))
              && (IsBlank(FirstContent(msg)) ==> msg.reasoning == Some(r.text))
    ensures resp.error.None? && HasChoices(resp) && r.Reply? && !r.ok ==> r.text == EmptyResponseMessage
    ensures r.Raises? <==>
              || (resp.error.Some? && resp.error.value.message.None?)
              || (resp.error.None? && HasChoices(resp) && resp.choices.value[0].message.None?)
  {
    match resp.error
    case Some(err) =>
      (match err.message
       case Some(m) => Reply(false, m)
       case None => Raises("message"))
    case None =>
      if !HasChoices(resp) then Reply(false, MissingChoicesMessage)
      else
        match resp.choices.value[0].message
        case None => Raises("message")
        case Some(msg) =>
          var content := FirstContent(msg);
          if !IsBlank(content) then Reply(true, content)
          else if msg.reasoning.Some? && |msg.reasoning.value| > 0 then Reply(true, msg.reasoning.value)
          else Reply(false, EmptyResponseMessage)
  }

  /** What the source returns for each transport outcome. */
  function Classify(t: Transport): (r: Reply)
    ensures !t.Received? ==> r.Reply? && !r.ok
    ensures t.Received? ==> r == ClassifyResponse(t.response)
  {
    match t
    case TimedOut => Reply(false, TimeoutMessage)
    case RequestFailed(reason) => Reply(false, RequestFailedPrefix + reason)
    case OtherFailure(reason) => Reply(false, ParseFailedPrefix + reason)
    case Received(resp) => ClassifyResponse(resp)
  }

  /** The three transport failures are told apart by their messages, and
      each message keeps the reason it reports. */
  lemma TransportFailuresDistinct(t: Transport, u: Transport)
    requires !t.Received? && !u.Received?
    requires Classify(t) == Classify(u)
    ensures t == u
  {
    var a := Classify(t).text;
    if t.RequestFailed? || t.OtherFailure? {
      assert a[0] == (if t.RequestFailed? then 'R' else 'F');
      assert t.RequestFailed? ==> a[8] == 'f';
    }
    if u.RequestFailed? || u.OtherFailure? {
      assert a[0] == (if u.RequestFailed? then 'R' else 'F');
      assert u.RequestFailed? ==> a[8] == 'f';
    }
    assert TimeoutMessage[8] == 't';
    if t.RequestFailed? && u.RequestFailed? {
      assert t.reason == a[|RequestFailedPrefix|..];
    }
    if t.OtherFailure? && u.OtherFailure? {
      assert t.reason == a[|ParseFailedPrefix|..];
    }
  }

  /** `get_model_response(prompt, images)`: builds the content list block by
      block, sends the request and classifies the outcome. */
  method GetModelResponse(config: Config, prompt: string, images: seq<string>,
                          encode: string -> string, post: Request -> Transport)
    returns (reply: Reply, request: Request)
    ensures request == BuildRequest(config, Content(prompt, images, encode))
    ensures reply == Classify(post(request))
  {
    var content := [TextPart(prompt)];
    for i := 0 to |images|
      invariant content == Content(prompt, images[..i], encode)
    {
      assert images[..i + 1][..i] == images[..i];
      content := content + [ImageUrlPart(DataUrl(encode(images[i])))];
    }
    assert images[..|images|] == images;
    request := BuildRequest(config, content);
    var outcome := post(request);
    match outcome {
      case TimedOut =>
        return Reply(false, TimeoutMessage), request;
      case RequestFailed(e) =>
        return Reply(false, RequestFailedPrefix + e), request;
      case OtherFailure(e) =>
        return Reply(false, ParseFailedPrefix + e), request;
      case Received(response) =>
        if response.error.Some? {
          if response.error.value.message.None? {
            return Raises("message"), request;
          }
          return Reply(false, response.error.value.message.value), request;
        }
        if response.choices.None? || |response.choices.value| == 0 {
          return Reply(false, MissingChoicesMessage), request;
        }
        var message := response.choices.value[0].message;
        if message.None? {
          return Raises("message"), request;
        }
        var text := message.value.content.GetOr("");
        if |text| == 0 || |Strip(text)| == 0 {
          if message.value.reasoning.Some? && |message.value.reasoning.value| > 0 {
            text := message.value.reasoning.value;
          } else {
            return Reply(false, EmptyResponseMessage), request;
          }
        }
        reply := Reply(true, text);
    }
  }

  /** The reasoning fallback does not strip: a whitespace-only reasoning is
      returned as a successful reply. */
  lemma BlankReasoningAccepted(reasoning: string)
    requires |reasoning| > 0 && IsBlank(reasoning)
    ensures ClassifyResponse(Response(None, Some([Choice(Some(Message(None, Some(reasoning))))])))
            == Reply(true, reasoning)
  {
    assert Strip("") == [];
  }
}
