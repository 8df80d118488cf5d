/** The request bodies of `src/services/geminiApi.ts`: the parts of a
    `generateContent` call, the request path, the prompt rewriting of
    `generatePrompt`, and the value `getModels` hands back. The HTTP client
    is not modelled: a request is the path and parts it would send, and the
    models endpoint's answer is a parameter. */
module GeminiApi {
  import opened Wrappers
  import opened Text
  import opened JsonValue

  /** `GenerateContentParams`. */
  datatype ContentParams = ContentParams(model: string, prompt: string, imageBase64: Option<string>)

  /** One element of `contents[0].parts`. `data` is `None` when the image
      string has no comma (`split(',')[1]` is `undefined`). */
  datatype Part = TextPart(text: string) | InlineData(mimeType: string, data: Option<string>)

  /** What `generateContent` posts: the path and the parts. */
  datatype Request = Request(path: string, parts: seq<Part>)

  const JpegMime := "image/jpeg"

  /** `s.split(',')[1]`. */
  function SecondSegment(s: string): Option<string>
  {
    var pieces := Split(s, ',');
    if |pieces| >= 2 then Some(pieces[1]) else None
  }

  /** For a data URL `<header>,<payload>` the second segment is the payload. */
  lemma DataUrlPayload(header: string, payload: string)
    requires ',' !in header && ',' !in payload
    ensures SecondSegment(header + [','] + payload) == Some(payload)
  {
    SplitPair(header, payload, ',');
  }

  /** The parts: the prompt, then the image when there is a non-empty one. */
  function ContentParts(params: ContentParams): (parts: seq<Part>)
    ensures 1 <= |parts| <= 2 && parts[0] == TextPart(params.prompt)
    ensures |parts| == 2 <==> Truthy(params.imageBase64)
    ensures |parts| == 2 ==> parts[1] == InlineData(JpegMime, SecondSegment(params.imageBase64.value))
  {
    if Truthy(params.imageBase64)
    then [TextPart(params.prompt), InlineData(JpegMime, SecondSegment(params.imageBase64.value))]
    else [TextPart(params.prompt)]
  }

  const GenerateContentSuffix := ":generateContent"

  /** `/${model}:generateContent`: the model name already carries its
      `models/` prefix. */
  function RequestPath(model: string): (path: string)
    ensures StartsWith(path, "/")
  {
    "/" + model + GenerateContentSuffix
  }

  /** The model can be read back from the path. */
  lemma RequestPathReadsBack(model: string)
    ensures var path := RequestPath(model);
      |path| == |model| + |GenerateContentSuffix| + 1
      && path[1..|path| - |GenerateContentSuffix|] == model
      && path[|path| - |GenerateContentSuffix|..] == GenerateContentSuffix
  {
  }

  /** `generateContent`; `generateImage` sends exactly the same request. */
  function GenerateContent(params: ContentParams): Request
  {
    Request(RequestPath(params.model), ContentParts(params))
  }

  const WithImagePrefix :=
    "Based on the following text and image, " + "generate an optimized, detailed prompt "
    + "for AI image generation:\n\n"
  const TextOnlyPrefix :=
    "Generate an optimized, detailed prompt " + "for AI image generation " + "based on this idea:\n\n"

  /** The instruction `generatePrompt` puts in front of the user's text. */
  function PromptPrefix(params: ContentParams): string
  {
    if Truthy(params.imageBase64) then WithImagePrefix else TextOnlyPrefix
  }

  /** `generatePrompt`: the same call with the prompt rewritten. */
  function GeneratePrompt(params: ContentParams): Request
  {
    GenerateContent(params.(prompt := PromptPrefix(params) + params.prompt))
  }

  /** `generatePrompt` changes only the text part: the path and the image
      part are those of `generateContent` on the same parameters, and the
      text is the instruction chosen by the image followed by the original
      prompt, which is recovered by dropping the instruction. */
  lemma GeneratePromptOnlyRewritesPrompt(params: ContentParams)
    ensures var r, plain := GeneratePrompt(params), GenerateContent(params);
      && r.path == plain.path
      && |r.parts| == |plain.parts|
      && r.parts[1..] == plain.parts[1..]
      && r.parts[0].TextPart?
      && StartsWith(r.parts[0].text, PromptPrefix(params))
      && r.parts[0].text[|PromptPrefix(params)|..] == params.prompt
      && (PromptPrefix(params) == WithImagePrefix <==> Truthy(params.imageBase64))
  {
    assert WithImagePrefix[0] == 'B' && TextOnlyPrefix[0] == 'G';
  }

  /** What the models endpoint did. */
  datatype ModelsReply = RequestFailed | Answered(data: Json)

  /** A model entry of the fallback list. */
  function ModelEntry(name: string, displayName: string): Json
  {
    JObject(map["name" := JStr(name), "displayName" := JStr(displayName)])
  }

  /** The list returned when the request fails. */
  const FallbackModels: Json :=
    JArray([ModelEntry("gemini-pro", "Gemini Pro"), ModelEntry("gemini-pro-vision", "Gemini Pro Vision")])

  /** `getModels`: `data.models || data || []`, and the fallback list when
      the request fails or reading `data.models` throws (on `null`). */
  function GetModels(reply: ModelsReply): Json
  {
    match reply
    case RequestFailed => FallbackModels
    case Answered(data) =>
      if data.JNull? then FallbackModels
      else
        var models := Get(data, "models");
        if Present(models) then models.value
        else if IsTruthy(data) then data
        else JArray([])
  }

  /** The value handed back is never falsy. The fallback list comes from a
      failed request or a `null` body; otherwise an object's truthy `models`
      wins, an array or an object without one comes back as it is, and a
      falsy body becomes an empty array. */
  lemma GetModelsCases(reply: ModelsReply)
    ensures IsTruthy(GetModels(reply))
    ensures reply.RequestFailed? || reply == Answered(JNull) ==> GetModels(reply) == FallbackModels
    ensures forall m :: reply == Answered(JObject(m)) && "models" in m && IsTruthy(m["models"]) ==>
      GetModels(reply) == m["models"]
    ensures forall m :: reply == Answered(JObject(m)) && !("models" in m && IsTruthy(m["models"])) ==>
      GetModels(reply) == reply.data
    ensures reply.Answered? && reply.data.JArray? ==> GetModels(reply) == reply.data
    ensures reply.Answered? && !reply.data.JNull? && !IsTruthy(reply.data) ==> GetModels(reply) == JArray([])
    ensures reply.Answered? && !reply.data.JNull? && !Present(Get(reply.data, "models")) && IsTruthy(reply.data) ==>
      GetModels(reply) == reply.data
  {
  }
}
