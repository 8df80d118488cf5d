/** The image / prompt generation page of
    `src/pages/Creation/ImagePromptGeneration.tsx`: recognising and
    formatting base64 images, normalising the models answer and choosing the
    model, and `handleGenerate`, which sends one Gemini request and shows its
    reply. The Gemini reply and the saved model choice are parameters. */
module ImagePrompt {
  import opened Wrappers
  import opened Text
  import opened JsonValue
  import opened GeminiApi

  // ---------------------------------------------------------------------
  // Base64 images.

  const ImagePrefix := "data:image/"
  const PngPrefix := ImagePrefix + "png;base64,"

  /** `[A-Za-z0-9+/=]`. */
  predicate IsBase64Char(c: char)
  {
    ('A' <= c <= 'Z') || ('a' <= c <= 'z') || ('0' <= c <= '9') || c == '+' || c == '/' || c == '='
  }

  /** `isBase64Image`: a data-URL image, or a long space-free text whose first
      100 characters are base64 characters. */
  predicate IsBase64Image(text: string)
  {
    StartsWith(text, ImagePrefix)
    || (|text| > 100 && ' ' !in text && forall k :: 0 <= k < 100 ==> IsBase64Char(text[k]))
  }

  /** `formatBase64Image`: a data-URL image is kept, anything else is taken
      for bare PNG data and given the PNG data-URL header. */
  function FormatBase64Image(text: string): (r: string)
    ensures StartsWith(r, ImagePrefix)
    ensures r == text <==> StartsWith(text, ImagePrefix)
    ensures |text| <= |r| && r[|r| - |text|..] == text
  {
    if StartsWith(text, ImagePrefix) then text else PngPrefix + text
  }

  /** Formatting twice is formatting once, and a formatted text is always
      recognised as an image. */
  lemma FormatBase64ImageIdempotent(text: string)
    ensures FormatBase64Image(FormatBase64Image(text)) == FormatBase64Image(text)
    ensures IsBase64Image(FormatBase64Image(text))
  {
  }

  // ---------------------------------------------------------------------
  // Models.

  /** `m.name` for a model whose name is a string; any other model reads as
      nameless. */
  function NameOf(m: Json): string
  {
    var n := Get(m, "name");
    if n.Some? && n.value.JStr? then n.value.s else []
  }

  /** The model list the page keeps: an array is used as it is, an object's
      `models || data` when that is an array, and an empty list otherwise. */
  function NormaliseModels(response: Json): seq<Json>
  {
    match response
    case JArray(items) => items
    case JObject(_) =>
      var inner := Or(Get(response, "models"), Get(response, "data"));
      if inner.Some? && inner.value.JArray? then inner.value.items else []
    case _ => []
  }

  /** Normalisation by shape: an array is kept, an object yields its truthy
      `models` array, else its `data` array, and every other value (and every
      object without such a field) yields the empty list. */
  lemma NormaliseModelsCases(response: Json)
    ensures response.JArray? ==> NormaliseModels(response) == response.items
    ensures !response.JArray? && !response.JObject? ==> NormaliseModels(response) == []
    ensures forall fs: map<string, Json> :: response == JObject(fs) && "models" in fs && fs["models"].JArray? ==>
      NormaliseModels(response) == fs["models"].items
    ensures forall fs: map<string, Json> ::
      (response == JObject(fs) && !Present(Get(response, "models")) && "data" in fs && fs["data"].JArray?) ==>
        NormaliseModels(response) == fs["data"].items
    ensures forall fs: map<string, Json> ::
      (response == JObject(fs) && !("models" in fs && fs["models"].JArray?) && !("data" in fs && fs["data"].JArray?)) ==>
        NormaliseModels(response) == []
    ensures forall fs: map<string, Json> ::
      (response == JObject(fs) && Present(Get(response, "models")) && !fs["models"].JArray?) ==>
        NormaliseModels(response) == []
  {
  }

  predicate HasModelNamed(models: seq<Json>, name: string)
  {
    exists k :: 0 <= k < |models| && NameOf(models[k]) == name
  }

  /** The choice after the list arrives: the saved name when some model has
      it, else the first model, else the choice stays as it was. */
  function SelectModel(models: seq<Json>, saved: Option<string>, current: string): string
  {
    if Truthy(saved) && HasModelNamed(models, saved.value) then saved.value
    else if |models| > 0 then NameOf(models[0])
    else current
  }

  /** The choice is the saved name exactly when some model carries it (or it
      happens to be the first model's name); otherwise it is the first
      model's name, and with no models it is left alone. Whatever is chosen
      from a non-empty list names one of its models. */
  lemma SelectModelCases(models: seq<Json>, saved: Option<string>, current: string)
    ensures var r := SelectModel(models, saved, current);
      && (Truthy(saved) && HasModelNamed(models, saved.value) ==> r == saved.value)
      && (!(Truthy(saved) && HasModelNamed(models, saved.value)) && |models| > 0 ==> r == NameOf(models[0]))
      && (models == [] ==> r == current)
      && (|models| > 0 ==> HasModelNamed(models, r))
  {
    var r := SelectModel(models, saved, current);
    if |models| > 0 && !(Truthy(saved) && HasModelNamed(models, saved.value)) {
      assert NameOf(models[0]) == r;
    }
  }

  /** `models.some(m => m.name === name)`, model by model: `Some(found)` when
      it finishes, `None` when it reaches a `null` model first, since reading
      `.name` of `null` throws. */
  function SomeNamed(models: seq<Json>, name: string): Option<bool>
    decreases |models|
  {
    if models == [] then Some(false)
    else if models[0].JNull? then None
    else if NameOf(models[0]) == name then Some(true)
    else SomeNamed(models[1..], name)
  }

  /** The model at `k` is `null` and no model before it carries the name,
      so `.some` reaches it. */
  predicate NullReached(models: seq<Json>, k: int, name: string)
  {
    0 <= k < |models| && models[k].JNull? && forall j :: 0 <= j < k ==> NameOf(models[j]) != name
  }

  /** The lookup throws exactly when a `null` model comes before every model
      carrying the name; on a list without `null` models it finds the name
      exactly when some model carries it. */
  lemma {:induction false} SomeNamedCases(models: seq<Json>, name: string)
    ensures SomeNamed(models, name).None? <==> exists k :: NullReached(models, k, name)
    ensures (forall k :: 0 <= k < |models| ==> !models[k].JNull?) ==>
      SomeNamed(models, name) == Some(HasModelNamed(models, name))
    decreases |models|
  {
    if models == [] {
    } else if models[0].JNull? {
      assert NullReached(models, 0, name);
    } else if NameOf(models[0]) == name {
      assert HasModelNamed(models, name);
    } else {
      var tail := models[1..];
      SomeNamedCases(tail, name);
      if SomeNamed(tail, name).None? {
        var k :| NullReached(tail, k, name);
        assert NullReached(models, k + 1, name) by {
          forall j | 0 <= j < k + 1
            ensures NameOf(models[j]) != name
          {
            if j > 0 {
              assert models[j] == tail[j - 1];
            }
          }
        }
      } else if exists k :: NullReached(models, k, name) {
        var k :| NullReached(models, k, name);
        assert NullReached(tail, k - 1, name) by {
          forall j | 0 <= j < k - 1
            ensures NameOf(tail[j]) != name
          {
            assert tail[j] == models[j + 1];
          }
        }
      }
      if forall k :: 0 <= k < |models| ==> !models[k].JNull? {
        assert forall k :: 0 <= k < |tail| ==> !tail[k].JNull? by {
          forall k | 0 <= k < |tail|
            ensures !tail[k].JNull?
          {
            assert tail[k] == models[k + 1];
          }
        }
        if HasModelNamed(models, name) {
          var k :| 0 <= k < |models| && NameOf(models[k]) == name;
          assert k > 0 && NameOf(tail[k - 1]) == name;
        }
        if HasModelNamed(tail, name) {
          var k :| 0 <= k < |tail| && NameOf(tail[k]) == name;
          assert NameOf(models[k + 1]) == name;
        }
      }
    }
  }

  /** The models the page keeps and the model it has chosen. */
  datatype ModelsLoaded = ModelsLoaded(models: seq<Json>, selected: string)

  /** The models effect once the list is normalised: the list is stored and
      a model chosen. When a lookup reaches a `null` model (inside `.some`,
      or as the first model) the effect throws, and its `catch` stores the
      empty list and leaves the choice as it was. */
  function LoadModelsOutcome(list: seq<Json>, saved: Option<string>, current: string): ModelsLoaded
  {
    var found := if Truthy(saved) then SomeNamed(list, saved.value) else Some(false);
    if found.None? then ModelsLoaded([], current)
    else if found == Some(true) then ModelsLoaded(list, saved.value)
    else if |list| == 0 then ModelsLoaded(list, current)
    else if list[0].JNull? then ModelsLoaded([], current)
    else ModelsLoaded(list, NameOf(list[0]))
  }

  /** Without `null` models the list is kept and the choice is the selection
      rule's. The list is either kept or emptied, and emptied only by a throw,
      which leaves the choice alone: a `null` first model always throws, and
      so does a `null` reached before the saved name; a model carrying the
      saved name before any `null` is chosen and the list kept. */
  lemma LoadModelsCases(list: seq<Json>, saved: Option<string>, current: string)
    ensures var r := LoadModelsOutcome(list, saved, current);
      && ((forall k :: 0 <= k < |list| ==> !list[k].JNull?) ==> r == ModelsLoaded(list, SelectModel(list, saved, current)))
      && (r.models == list || r.models == [])
      && (r.models != list ==> r.selected == current && exists k :: 0 <= k < |list| && list[k].JNull?)
      && (list != [] && list[0].JNull? ==> r == ModelsLoaded([], current))
      && (Truthy(saved) && (exists k :: NullReached(list, k, saved.value)) ==> r == ModelsLoaded([], current))
  {
    var r := LoadModelsOutcome(list, saved, current);
    if Truthy(saved) {
      SomeNamedCases(list, saved.value);
    }
    if r.models != list && Truthy(saved) && SomeNamed(list, saved.value).None? {
      var k :| NullReached(list, k, saved.value);
    }
  }

  /** The page's reported cases: a lone `null` model, and a `null` ahead of
      the saved model, both empty the list and keep the choice. */
  lemma NullModelExamples(current: string)
    ensures LoadModelsOutcome([JNull], None, current) == ModelsLoaded([], current)
    ensures LoadModelsOutcome([JNull, ModelEntry("x", "X")], Some("x"), current) == ModelsLoaded([], current)
  {
  }

  /** With the models request failing and nothing saved, the page falls back
      to the two built-in Gemini models and picks `gemini-pro`. */
  lemma FallbackSelection(current: string)
    ensures NormaliseModels(GetModels(RequestFailed)) == FallbackModels.items
    ensures |FallbackModels.items| == 2
    ensures SelectModel(NormaliseModels(GetModels(RequestFailed)), None, current) == "gemini-pro"
    ensures NameOf(FallbackModels.items[1]) == "gemini-pro-vision"
    ensures LoadModelsOutcome(FallbackModels.items, None, current) == ModelsLoaded(FallbackModels.items, "gemini-pro")
  {
    var first := ModelEntry("gemini-pro", "Gemini Pro");
    assert Get(first, "name") == Some(JStr("gemini-pro"));
    var second := ModelEntry("gemini-pro-vision", "Gemini Pro Vision");
    assert Get(second, "name") == Some(JStr("gemini-pro-vision"));
  }

  /** An endpoint answering `{ models: [...] }` gives the page exactly that
      list. */
  lemma ModelsObjectKept(fs: map<string, Json>)
    requires "models" in fs && fs["models"].JArray?
    ensures NormaliseModels(GetModels(Answered(JObject(fs)))) == fs["models"].items
  {
    GetModelsCases(Answered(JObject(fs)));
  }

  // ---------------------------------------------------------------------
  // Generating.

  /** The page's `mode` prop. */
  datatype PageMode = ImageMode | PromptMode

  /** An `inlineData` part of the reply. */
  datatype InlineImage = InlineImage(mimeType: Option<string>, data: string)

  /** `candidates[0].content.parts[0]`, as far as the page reads it. */
  datatype ReplyPart = ReplyPart(inlineData: Option<InlineImage>, text: Option<string>)

  /** How the Gemini call ended: it threw (with the error's message, if it
      was an `Error`), or it answered; `rendered` is the answer's
      `JSON.stringify(result, null, 2)`. */
  datatype Reply = Threw(message: Option<string>) | Replied(firstPart: Option<ReplyPart>, rendered: string)

  /** What `handleGenerate` did with the inputs. */
  datatype Submission = Ignored | NoModelAlert | Sent(request: Request)

  /** The text output and the image shown after a call. */
  datatype Shown = Shown(output: string, imageUrl: Option<string>)

  const ImageSuccess := "Image generated successfully!"
  const UnknownError := "Unknown error"
  const ErrorAdvice :=
    "\n\nPlease check:\n1. API configuration in Settings\n" + "2. Model name is correct\n3. Network connection"

  /** The request `handleGenerate` sends, if any: nothing without input or
      image, an alert without a model, else `generatePrompt` in prompt mode
      and `generateImage` (the plain `generateContent`) in image mode. */
  function Submit(mode: PageMode, input: string, uploadedImage: Option<string>, selectedModel: string): Submission
  {
    if input == [] && !Truthy(uploadedImage) then Ignored
    else if selectedModel == [] then NoModelAlert
    else
      var params := ContentParams(selectedModel, input, if Truthy(uploadedImage) then uploadedImage else None);
      if mode == PromptMode then Sent(GeneratePrompt(params)) else Sent(GenerateContent(params))
  }

  /** A request goes out exactly when there is input or an image and a model;
      it targets the chosen model, carries the image exactly when one was
      uploaded, and its text is the input (prompt mode puts its instruction
      in front). */
  lemma SubmitCases(mode: PageMode, input: string, uploadedImage: Option<string>, selectedModel: string)
    ensures var s := Submit(mode, input, uploadedImage, selectedModel);
      && (s.Sent? <==> (input != [] || Truthy(uploadedImage)) && selectedModel != [])
      && (s.NoModelAlert? <==> (input != [] || Truthy(uploadedImage)) && selectedModel == [])
      && (s.Sent? ==>
            && s.request.path == RequestPath(selectedModel)
            && (|s.request.parts| == 2 <==> Truthy(uploadedImage))
            && s.request.parts[0].TextPart?
            && var text := s.request.parts[0].text;
               |input| <= |text| && text[|text| - |input|..] == input
               && (mode == ImageMode ==> text == input))
  {
    var params := ContentParams(selectedModel, input, if Truthy(uploadedImage) then uploadedImage else None);
    if mode == PromptMode {
      GeneratePromptOnlyRewritesPrompt(params);
    }
  }

  /** `data:${mimeType || 'image/png'};base64,${data}`. */
  function InlineImageUrl(img: InlineImage): string
  {
    "data:" + (if Truthy(img.mimeType) then img.mimeType.value else "image/png") + ";base64," + img.data
  }

  /** The reply's output: an inline image in image mode, else the first
      part's text (or the whole reply rendered), shown as an image when in
      image mode it looks like base64 image data. */
  function ShowReply(mode: PageMode, firstPart: Option<ReplyPart>, rendered: string): Shown
  {
    if mode == ImageMode && firstPart.Some? && firstPart.value.inlineData.Some? then
      Shown(ImageSuccess, Some(InlineImageUrl(firstPart.value.inlineData.value)))
    else
      var text := if firstPart.Some? && Truthy(firstPart.value.text) then firstPart.value.text.value else rendered;
      if mode == ImageMode && IsBase64Image(text) then Shown(ImageSuccess, Some(FormatBase64Image(text)))
      else Shown(text, None)
  }

  /** The output after a failed call. */
  function ErrorShown(message: Option<string>): (s: Shown)
    ensures s.imageUrl.None? && StartsWith(s.output, "Error: ")
  {
    Shown("Error: " + (if message.Some? then message.value else UnknownError) + ErrorAdvice, None)
  }

  function Show(mode: PageMode, reply: Reply): Shown
  {
    match reply
    case Threw(m) => ErrorShown(m)
    case Replied(part, rendered) => ShowReply(mode, part, rendered)
  }

  /** Prompt mode never shows an image and shows the reply's text (or the
      rendered reply) verbatim. Any image shown is a data URL, and with an
      image shown the output is the success text; an inline image ends with
      its data. */
  lemma ShowCases(mode: PageMode, reply: Reply)
    ensures var s := Show(mode, reply);
      && (mode == PromptMode && reply.Replied? ==>
            s.imageUrl.None?
            && s.output == if reply.firstPart.Some? && Truthy(reply.firstPart.value.text)
                           then reply.firstPart.value.text.value else reply.rendered)
      && (s.imageUrl.Some? ==> mode == ImageMode && reply.Replied? && s.output == ImageSuccess
                               && StartsWith(s.imageUrl.value, "data:"))
      && (mode == ImageMode && reply.Replied? && reply.firstPart.Some? && reply.firstPart.value.inlineData.Some? ==>
            var data := reply.firstPart.value.inlineData.value.data;
            s.imageUrl.Some? && |data| <= |s.imageUrl.value|
            && s.imageUrl.value[|s.imageUrl.value| - |data|..] == data)
  {
    var s := Show(mode, reply);
    if s.imageUrl.Some? && !(reply.firstPart.Some? && reply.firstPart.value.inlineData.Some?) {
      assert StartsWith(s.imageUrl.value, ImagePrefix);
      assert ImagePrefix[..5] == "data:";
    }
  }

  // ---------------------------------------------------------------------
  // The page's state.

  class ImagePromptPage {
    const mode: PageMode
    var input: string
    var output: string
    var generatedImageUrl: Option<string>
    var loading: bool
    var models: seq<Json>
    var selectedModel: string
    var loadingModels: bool
    var uploadedImage: Option<string>

    /** The component's initial state. */
    constructor(mode: PageMode)
      ensures this.mode == mode
      ensures input == [] && output == [] && generatedImageUrl.None? && !loading
      ensures models == [] && selectedModel == [] && loadingModels && uploadedImage.None?
    {
      this.mode := mode;
      input := [];
      output := [];
      generatedImageUrl := None;
      loading := false;
      models := [];
      selectedModel := [];
      loadingModels := true;
      uploadedImage := None;
    }

    /** The models effect: store the normalised list, choose the model, and
        stop the loading indicator; a `null` model reached while choosing
        throws into the `catch`, which empties the list. `saved` is the
        choice saved for this mode. */
    method LoadModels(reply: ModelsReply, saved: Option<string>)
      modifies this
      ensures ModelsLoaded(models, selectedModel)
           == LoadModelsOutcome(NormaliseModels(GetModels(reply)), saved, old(selectedModel))
      ensures !loadingModels
      ensures input == old(input) && output == old(output) && generatedImageUrl == old(generatedImageUrl)
      ensures loading == old(loading) && uploadedImage == old(uploadedImage)
    {
      var list := NormaliseModels(GetModels(reply));
      models := list;
      var found := if Truthy(saved) then SomeNamed(list, saved.value) else Some(false);
      if found.None? {
        // `.some` read `.name` of a `null` model: the catch
        models := [];
      } else if found == Some(true) {
        selectedModel := saved.value;
      } else if |list| > 0 {
        if list[0].JNull? {
          // `modelList[0].name` on `null`: the catch
          models := [];
        } else {
          selectedModel := NameOf(list[0]);
        }
      }
      loadingModels := false;
    }

    /** `handleGenerate`: `reply` is how the Gemini call ends if one is made.
        Without a request nothing changes; with one, the earlier image is
        cleared and the reply shown. */
    method HandleGenerate(reply: Reply) returns (submission: Submission)
      modifies this
      ensures submission == Submit(mode, input, uploadedImage, selectedModel)
      ensures !submission.Sent? ==> output == old(output) && generatedImageUrl == old(generatedImageUrl)
      ensures submission.Sent? ==>
        output == Show(mode, reply).output && generatedImageUrl == Show(mode, reply).imageUrl
      ensures loading == (if submission.Sent? then false else old(loading))
      ensures input == old(input) && uploadedImage == old(uploadedImage)
      ensures models == old(models) && selectedModel == old(selectedModel) && loadingModels == old(loadingModels)
    {
      submission := Submit(mode, input, uploadedImage, selectedModel);
      if submission.Sent? {
        loading := true;
        generatedImageUrl := None;
        var shown := Show(mode, reply);
        output := shown.output;
        generatedImageUrl := shown.imageUrl;
        loading := false;
      }
    }
  }
}
