/** `generateVideo` of `src/services/soraApi.ts` around its streaming loop:
    the API-call counter is bumped, the message content is built from the
    generation mode, and the response is either rejected (the request throws,
    the status is not OK, there is no body) or streamed. The HTTP exchange is
    a parameter: the response the server gives. */
module SoraClient {
  import opened Wrappers
  import opened Text
  import opened Types
  import opened SseCodec
  import opened SoraStream
  import opened TaskStore

  /** `SoraGenerationParams`. */
  datatype GenerationParams = GenerationParams(
    prompt: string,
    model: string,
    generationMode: GenerationMode,
    imageBase64: Option<string>,
    remixVideoUrl: Option<string>,
    videoBase64: Option<string>)

  /** One element of a multi-part message content. */
  datatype Part = TextPart(text: string) | ImageUrlPart(url: string) | VideoUrlPart(url: string)

  /** The `content` of the user message: a plain string or a list of parts. */
  datatype Content = PlainText(text: string) | Parts(parts: seq<Part>)

  /** The mode switch that builds the message content. A media field that is
      absent or empty falls back to the plain prompt. */
  function BuildContent(params: GenerationParams): Content
  {
    match params.generationMode
    case TextToVideo => PlainText(params.prompt)
    case ImageToVideo =>
      if Truthy(params.imageBase64)
      then Parts([TextPart(params.prompt), ImageUrlPart(params.imageBase64.value)])
      else PlainText(params.prompt)
    case Remix =>
      if Truthy(params.remixVideoUrl)
      then PlainText(params.remixVideoUrl.value + params.prompt)
      else PlainText(params.prompt)
    case CreateCharacter =>
      if Truthy(params.videoBase64)
      then Parts([VideoUrlPart(params.videoBase64.value)])
      else PlainText(params.prompt)
    case CharacterToVideo =>
      if Truthy(params.videoBase64)
      then Parts([VideoUrlPart(params.videoBase64.value), TextPart(params.prompt)])
      else PlainText(params.prompt)
  }

  /** The text a content carries: the whole plain string, or the first text
      part. */
  function TextOf(c: Content): Option<string>
  {
    match c
    case PlainText(t) => Some(t)
    case Parts(ps) => FirstText(ps)
  }

  function FirstText(ps: seq<Part>): Option<string>
  {
    if ps == [] then None
    else if ps[0].TextPart? then Some(ps[0].text)
    else FirstText(ps[1..])
  }

  /** The media URL a content carries: the first image or video part. */
  function MediaOf(c: Content): Option<string>
  {
    match c
    case PlainText(_) => None
    case Parts(ps) => FirstMedia(ps)
  }

  function FirstMedia(ps: seq<Part>): Option<string>
  {
    if ps == [] then None
    else if ps[0].ImageUrlPart? || ps[0].VideoUrlPart? then Some(ps[0].url)
    else FirstMedia(ps[1..])
  }

  /** The media field a mode sends as a separate part. */
  function ModeMedia(params: GenerationParams): Option<string>
  {
    match params.generationMode
    case ImageToVideo => params.imageBase64
    case CreateCharacter => params.videoBase64
    case CharacterToVideo => params.videoBase64
    case _ => None
  }

  /** What the request carries, read back from the content: the mode's media
      exactly when it is present and non-empty, and the prompt as text, except
      that remix puts a present URL in front of it and character creation
      with a video sends no text at all. */
  lemma ContentCarriesInputs(params: GenerationParams)
    ensures MediaOf(BuildContent(params)) == (if Truthy(ModeMedia(params)) then ModeMedia(params) else None)
    ensures TextOf(BuildContent(params)) ==
      if params.generationMode == Remix && Truthy(params.remixVideoUrl) then Some(params.remixVideoUrl.value + params.prompt)
      else if params.generationMode == CreateCharacter && Truthy(params.videoBase64) then None
      else Some(params.prompt)
  {
    match params.generationMode
    case ImageToVideo =>
      if Truthy(params.imageBase64) {
        var ps := [TextPart(params.prompt), ImageUrlPart(params.imageBase64.value)];
        assert FirstMedia(ps) == FirstMedia(ps[1..]) == Some(params.imageBase64.value);
      }
    case CharacterToVideo =>
      if Truthy(params.videoBase64) {
        var ps := [VideoUrlPart(params.videoBase64.value), TextPart(params.prompt)];
        assert FirstText(ps) == FirstText(ps[1..]) == Some(params.prompt);
      }
    case CreateCharacter =>
      if Truthy(params.videoBase64) {
        var ps := [VideoUrlPart(params.videoBase64.value)];
        assert FirstText(ps) == FirstText(ps[1..]) == FirstText([]);
      }
    case _ =>
  }

  /** Parts are sent only with a media URL, and only the modes with a media
      field ever send parts. */
  lemma PartsOnlyWithMedia(params: GenerationParams)
    ensures BuildContent(params).Parts? <==> Truthy(ModeMedia(params))
  {
  }

  // ---------------------------------------------------------------------
  // The response.

  /** What the server (or the network) does with the request. */
  datatype Response =
    | RequestFailure(message: string)
    | HttpError(status: nat, body: string)
    | NoBody
    | Body(steps: seq<ReadOutcome>)

  /** The callbacks one call fires and how it ends. */
  datatype Generation = Generation(trace: seq<StreamEvent>, outcome: Outcome)

  const NoBodyMessage := "No response body"

  /** The error text for a non-OK status: the body, or `HTTP error <status>`
      when the body is empty. */
  function HttpErrorMessage(status: nat, body: string): (m: string)
    ensures m != []
    ensures body != [] ==> m == body
  {
    if body != [] then body else "HTTP error " + NatToDecimal(status)
  }

  function Respond(response: Response, decode: Decoder): Generation
  {
    match response
    case RequestFailure(m) => Generation([], Threw(m))
    case HttpError(status, body) =>
      var m := HttpErrorMessage(status, body);
      Generation([OnError(m)], Threw(m))
    case NoBody => Generation([OnError(NoBodyMessage)], Threw(NoBodyMessage))
    case Body(steps) =>
      var e := Run(Start, steps, decode);
      Generation(e.state.trace, e.outcome)
  }

  /** The errors a call throws: the request's own failure, the error text of
      a non-OK status, the missing-body message, or the stream
      interruption. */
  lemma ThrownMessages(response: Response, decode: Decoder)
    ensures var g := Respond(response, decode);
      g.outcome.Threw? ==>
        g.outcome.message == (match response
                              case RequestFailure(m) => m
                              case HttpError(status, body) => HttpErrorMessage(status, body)
                              case NoBody => NoBodyMessage
                              case Body(_) => InterruptedMessage)
  {
    if response.Body? {
      StreamThrowsInterruption(Start, response.steps, decode);
    }
  }

  /** A non-OK status reports `onError` once with the body text (or the
      status) and throws that text; nothing is read from the stream. */
  lemma HttpErrorReported(status: nat, body: string, decode: Decoder)
    ensures var g := Respond(HttpError(status, body), decode);
      && g.trace == [OnError(HttpErrorMessage(status, body))]
      && g.outcome == Threw(HttpErrorMessage(status, body))
      && Completions(g.trace) == 0 && Errors(g.trace) == 1
  {
    var m := HttpErrorMessage(status, body);
    CountAppend([], OnError(m));
    assert [] + [OnError(m)] == [OnError(m)];
  }

  /** The status appears in the error text, readable back as a number, when
      the body is empty. */
  lemma HttpStatusInMessage(status: nat)
    ensures var m := HttpErrorMessage(status, []);
      StartsWith(m, "HTTP error ") && AllDigits(m[11..]) && ParseDecimal(m[11..]) == status
  {
    var m := HttpErrorMessage(status, []);
    assert m[11..] == NatToDecimal(status);
    ParseNatToDecimal(status);
  }

  /** For every response, `onComplete` and `onError` each fire at most once;
      a resolved call never fired `onError`; a call that throws after the
      request went out reported the thrown text through `onError` last. */
  lemma RespondReconciled(response: Response, decode: Decoder)
    ensures var g := Respond(response, decode);
      && CompletionsCarryUrl(g.trace)
      && Completions(g.trace) <= 1 && Errors(g.trace) <= 1
      && (g.outcome.Returned? ==> Errors(g.trace) == 0 && (g.outcome.url != [] <==> Completions(g.trace) == 1))
      && (g.outcome.Threw? && !response.RequestFailure? ==>
            g.trace != [] && g.trace[|g.trace| - 1] == OnError(g.outcome.message))
  {
    match response
    case RequestFailure(_) =>
    case HttpError(status, body) => HttpErrorReported(status, body, decode);
    case NoBody =>
      CountAppend([], OnError(NoBodyMessage));
      assert [] + [OnError(NoBodyMessage)] == [OnError(NoBodyMessage)];
    case Body(steps) => RunReconciled(steps, decode);
  }

  /** `generateVideo`: the API-call counter is bumped once, before anything
      is sent; then the content is built and the response handled. */
  method GenerateVideo(ledger: TaskLedger, now: int, params: GenerationParams, response: Response, decode: Decoder)
    returns (content: Content, trace: seq<StreamEvent>, outcome: Outcome)
    requires ledger.Valid()
    modifies ledger
    ensures ledger.Valid()
    ensures ledger.totalApiCalls == old(ledger.totalApiCalls) + 1
    ensures ledger.apiCallTimestamps == RecordAt(old(ledger.apiCallTimestamps), now)
    ensures ledger.tasks == old(ledger.tasks)
    ensures ledger.totalVideosGenerated == old(ledger.totalVideosGenerated)
    ensures ledger.videoGeneratedTimestamps == old(ledger.videoGeneratedTimestamps)
    ensures content == BuildContent(params)
    ensures Generation(trace, outcome) == Respond(response, decode)
  {
    ledger.IncrementApiCalls(now);
    content := BuildContent(params);
    match response {
      case RequestFailure(m) =>
        trace, outcome := [], Threw(m);
      case HttpError(status, body) =>
        var errorText := HttpErrorMessage(status, body);
        trace, outcome := [OnError(errorText)], Threw(errorText);
      case NoBody =>
        trace, outcome := [OnError(NoBodyMessage)], Threw(NoBodyMessage);
      case Body(steps) =>
        trace, outcome := StreamLoop(steps, decode);
    }
  }
}
