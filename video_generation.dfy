/** The task lifecycle driven by the video generation page
    (`src/pages/Creation/VideoGeneration.tsx`): the model id chosen by the
    form, submission validation and task construction, the status updates
    `handleGenerate` applies through the ledger while a generation runs, and
    the actions offered per task. Ids, clocks and the thumbnail outcome are
    parameters. */
module VideoGeneration {
  import opened Wrappers
  import opened Text
  import opened Types
  import opened SoraStream
  import opened TaskStore
  import opened SoraClient

  // ---------------------------------------------------------------------
  // Model selection.

  datatype AspectRatio = Landscape | Portrait
  datatype Duration = TenSeconds | FifteenSeconds

  function AspectRatioText(a: AspectRatio): string
  {
    match a
    case Landscape => "landscape"
    case Portrait => "portrait"
  }

  function DurationText(d: Duration): string
  {
    match d
    case TenSeconds => "10s"
    case FifteenSeconds => "15s"
  }

  /** `getSelectedModelId`. */
  function SelectedModelId(a: AspectRatio, d: Duration): string
  {
    "sora-video-" + AspectRatioText(a) + "-" + DurationText(d)
  }

  /** The model id names the form's choice and nothing else: the aspect
      ratio and the duration can be read back from it, so different choices
      give different ids. */
  lemma ModelIdReadsBack(a: AspectRatio, d: Duration)
    ensures var m := SelectedModelId(a, d);
      && StartsWith(m, "sora-video-") && |m| >= 15
      && m[11..|m| - 4] == AspectRatioText(a) && m[|m| - 4] == '-' && m[|m| - 3..] == DurationText(d)
  {
    var m := SelectedModelId(a, d);
    var pre, at, dt := "sora-video-", AspectRatioText(a), DurationText(d);
    assert m == pre + at + "-" + dt;
    assert |pre| == 11 && |dt| == 3;
    assert m[..11] == pre;
    assert m[11..|m| - 4] == at;
    assert m[|m| - 3..] == dt;
  }

  lemma ModelIdInjective(a: AspectRatio, d: Duration, a': AspectRatio, d': Duration)
    requires SelectedModelId(a, d) == SelectedModelId(a', d')
    ensures a == a' && d == d'
  {
    ModelIdReadsBack(a, d);
    ModelIdReadsBack(a', d');
    var m := SelectedModelId(a, d);
    assert AspectRatioText(a) == AspectRatioText(a');
    assert DurationText(d) == DurationText(d');
    assert |AspectRatioText(Landscape)| != |AspectRatioText(Portrait)|;
    assert DurationText(TenSeconds)[0] != DurationText(FifteenSeconds)[1];
  }

  // ---------------------------------------------------------------------
  // Submission.

  /** The form state `handleAddTask` reads. */
  datatype Form = Form(
    prompt: string,
    aspectRatio: AspectRatio,
    duration: Duration,
    generationMode: GenerationMode,
    uploadedImage: Option<string>,
    uploadedVideo: Option<string>,
    remixVideoUrl: string)

  const DefaultCharacterPrompt := "Create character from video"

  /** The checks of `handleAddTask`, in order: `None` accepts the form,
      `Some(alert)` rejects it with that alert. */
  function Validate(f: Form): Option<string>
  {
    if f.generationMode == ImageToVideo && !Truthy(f.uploadedImage) then
      Some("Please upload an image for Image to Video mode")
    else if f.generationMode == Remix && f.remixVideoUrl == [] then
      Some("Please enter a video URL for Remix mode")
    else if f.generationMode == CreateCharacter && !Truthy(f.uploadedVideo) then
      Some("Please upload a video to create a character")
    else if f.generationMode == CharacterToVideo && !Truthy(f.uploadedVideo) then
      Some("Please upload a character video for Character to Video mode")
    else if f.generationMode == CharacterToVideo && f.prompt == [] then
      Some("Please enter a prompt for Character to Video mode")
    else None
  }

  /** The `disabled` condition of the submit button. */
  predicate SubmitDisabled(f: Form)
  {
    || (f.generationMode != CreateCharacter && f.prompt == [])
    || (f.generationMode == ImageToVideo && !Truthy(f.uploadedImage))
    || (f.generationMode == Remix && f.remixVideoUrl == [])
    || ((f.generationMode == CreateCharacter || f.generationMode == CharacterToVideo) && !Truthy(f.uploadedVideo))
  }

  /** An enabled button always submits a form the validation accepts. The
      validation alone is weaker: it lets an empty prompt through in the
      text-to-video, image-to-video and remix modes, which only the button
      blocks. */
  lemma ButtonAndValidation(f: Form)
    ensures !SubmitDisabled(f) ==> Validate(f).None?
    ensures Validate(f).None? && SubmitDisabled(f) <==>
      f.prompt == [] && f.generationMode in {TextToVideo, ImageToVideo, Remix} && Validate(f).None?
  {
  }

  /** The `|| undefined` of the task literal: a missing or empty upload is
      not stored. */
  function Upload(v: Option<string>): (r: Option<string>)
    ensures Truthy(v) ==> r == v
    ensures !Truthy(v) ==> r.None?
  {
    if Truthy(v) then v else None
  }

  /** The task literal built for an accepted form. */
  function NewTask(f: Form, id: string, now: int, taskCount: nat): VideoTask
  {
    VideoTask(
      id := id,
      sequenceNumber := taskCount + 1,
      thumbnail := None,
      prompt := if f.prompt != [] then f.prompt else DefaultCharacterPrompt,
      status := Pending,
      createdAt := now,
      videoUrl := None,
      model := SelectedModelId(f.aspectRatio, f.duration),
      aspectRatio := AspectRatioText(f.aspectRatio),
      duration := DurationText(f.duration),
      generationMode := f.generationMode,
      imageBase64 := if f.generationMode == ImageToVideo then Upload(f.uploadedImage) else None,
      remixVideoUrl := if f.generationMode == Remix then Some(f.remixVideoUrl) else None,
      videoBase64 := if f.generationMode == CreateCharacter || f.generationMode == CharacterToVideo
                     then Upload(f.uploadedVideo) else None,
      characterId := None,
      progress := None,
      progressMessage := None)
  }

  /** The parameters `handleGenerate` sends for a task. */
  function ParamsOf(t: VideoTask): GenerationParams
  {
    GenerationParams(t.prompt, t.model, t.generationMode, t.imageBase64, t.remixVideoUrl, t.videoBase64)
  }

  /** A task built from an accepted form is pending, numbered after the
      existing tasks, has a non-empty prompt, and when generated sends
      exactly the media its mode requires: the image for image-to-video, the
      video for the character modes, the URL in front of the prompt for
      remix, nothing for text-to-video. */
  lemma AcceptedTaskRequest(f: Form, id: string, now: int, taskCount: nat)
    requires Validate(f).None?
    ensures var t := NewTask(f, id, now, taskCount);
      && t.status == Pending && t.sequenceNumber == taskCount + 1 && t.prompt != []
      && t.videoUrl.None? && t.progress.None?
      && MediaOf(BuildContent(ParamsOf(t))) ==
           (match f.generationMode
            case ImageToVideo => f.uploadedImage
            case CreateCharacter => f.uploadedVideo
            case CharacterToVideo => f.uploadedVideo
            case _ => None)
      && (f.generationMode == Remix ==> TextOf(BuildContent(ParamsOf(t))) == Some(f.remixVideoUrl + t.prompt))
      && (f.generationMode == TextToVideo ==> BuildContent(ParamsOf(t)) == PlainText(t.prompt))
  {
    ContentCarriesInputs(ParamsOf(NewTask(f, id, now, taskCount)));
  }

  /** The form after a task was added: prompt, uploads and remix URL are
      cleared; mode, aspect ratio and duration are kept. */
  function ResetForm(f: Form): Form
  {
    f.(prompt := [], uploadedImage := None, uploadedVideo := None, remixVideoUrl := [])
  }

  /** `handleAddTask` with the task id and the clock given. */
  method HandleAddTask(ledger: TaskLedger, f: Form, id: string, now: int) returns (alert: Option<string>, form: Form)
    requires ledger.Valid()
    modifies ledger
    ensures ledger.Valid()
    ensures alert == Validate(f)
    ensures alert.Some? ==> ledger.tasks == old(ledger.tasks) && form == f
    ensures alert.None? ==> ledger.tasks == [NewTask(f, id, now, |old(ledger.tasks)|)] + old(ledger.tasks)
                            && form == ResetForm(f)
    ensures ledger.totalApiCalls == old(ledger.totalApiCalls)
    ensures ledger.totalVideosGenerated == old(ledger.totalVideosGenerated)
    ensures ledger.apiCallTimestamps == old(ledger.apiCallTimestamps)
    ensures ledger.videoGeneratedTimestamps == old(ledger.videoGeneratedTimestamps)
  {
    form := f;
    if f.generationMode == ImageToVideo && !Truthy(f.uploadedImage) {
      alert := Some("Please upload an image for Image to Video mode");
      return;
    }
    if f.generationMode == Remix && f.remixVideoUrl == [] {
      alert := Some("Please enter a video URL for Remix mode");
      return;
    }
    if f.generationMode == CreateCharacter && !Truthy(f.uploadedVideo) {
      alert := Some("Please upload a video to create a character");
      return;
    }
    if f.generationMode == CharacterToVideo && !Truthy(f.uploadedVideo) {
      alert := Some("Please upload a character video for Character to Video mode");
      return;
    }
    if f.generationMode == CharacterToVideo && f.prompt == [] {
      alert := Some("Please enter a prompt for Character to Video mode");
      return;
    }
    alert := None;
    var task := NewTask(f, id, now, |ledger.tasks|);
    ledger.AddTask(task);
    form := ResetForm(f);
  }

  // ---------------------------------------------------------------------
  // Generation.

  const StartingMessage := "Starting generation..."
  const CompletedMessage := "Generation completed!"
  const UiRestrictionMessage := "Generation failed: Possible content restriction or copyright issue. Try a different prompt."

  /** Set when generation starts. */
  const StartPatch := NoChanges.(status := Some(Processing), progress := Some(0), progressMessage := Some(StartingMessage))

  /** `onProgress`. */
  function ProgressPatch(percent: int, message: string): TaskPatch
  {
    NoChanges.(progress := Some(percent), progressMessage := Some(message))
  }

  /** `onComplete`, before the thumbnail. */
  function CompletePatch(url: string): TaskPatch
  {
    NoChanges.(status := Some(Completed), videoUrl := Some(url), progress := Some(100), progressMessage := Some(CompletedMessage))
  }

  /** A thumbnail produced after completion. */
  function ThumbnailPatch(thumbnail: string): TaskPatch
  {
    NoChanges.(thumbnail := Some(thumbnail))
  }

  /** `onError`. */
  function ErrorPatch(error: string): TaskPatch
  {
    NoChanges.(status := Some(Failed), progressMessage := Some("Error: " + error))
  }

  /** The text shown for an error `generateVideo` throws. */
  function DisplayMessage(errorMessage: string): string
  {
    if IsRestrictionSignature(errorMessage) then UiRestrictionMessage else errorMessage
  }

  /** The `catch` of `handleGenerate`. */
  function CaughtPatch(errorMessage: string): TaskPatch
  {
    NoChanges.(status := Some(Failed), progressMessage := Some(DisplayMessage(errorMessage)))
  }

  /** The updates one callback makes to the task; `thumbnail` is the outcome
      of thumbnail generation (`None` when it fails). */
  function EventPatch(e: StreamEvent, thumbnail: Option<string>): (p: TaskPatch)
    ensures p.id.None? && p.sequenceNumber.None? && p.createdAt.None? && p.prompt.None?
  {
    match e
    case OnProgress(percent, message) => ProgressPatch(percent, message)
    case OnComplete(url) =>
      if thumbnail.Some? then ThenPatch(CompletePatch(url), ThumbnailPatch(thumbnail.value)) else CompletePatch(url)
    case OnError(error) => ErrorPatch(error)
  }

  /** All updates of a trace, merged in order. */
  function TracePatch(trace: seq<StreamEvent>, thumbnail: Option<string>): (p: TaskPatch)
    ensures p.id.None? && p.sequenceNumber.None? && p.createdAt.None? && p.prompt.None?
  {
    if trace == [] then NoChanges
    else ThenPatch(TracePatch(trace[..|trace| - 1], thumbnail), EventPatch(trace[|trace| - 1], thumbnail))
  }

  /** All updates one `handleGenerate` makes to its task, merged in order. */
  function GenerationPatch(g: Generation, thumbnail: Option<string>): TaskPatch
  {
    var during := ThenPatch(StartPatch, TracePatch(g.trace, thumbnail));
    if g.outcome.Threw? then ThenPatch(during, CaughtPatch(g.outcome.message)) else during
  }

  /** `onProgress` touches only the progress fields. */
  lemma ProgressOnlyTouchesProgress(t: VideoTask, percent: int, message: string)
    ensures ApplyPatch(t, ProgressPatch(percent, message)) == t.(progress := Some(percent), progressMessage := Some(message))
  {
  }

  /** A thumbnail touches only the thumbnail, and no other update touches it,
      so when the thumbnail arrives does not matter. */
  lemma ThumbnailCommutes(t: VideoTask, thumbnail: string, p: TaskPatch)
    requires p.thumbnail.None?
    ensures ApplyPatch(t, ThumbnailPatch(thumbnail)) == t.(thumbnail := Some(thumbnail))
    ensures ThenPatch(ThumbnailPatch(thumbnail), p) == ThenPatch(p, ThumbnailPatch(thumbnail))
  {
  }

  /** Failing marks the task failed but keeps a video URL it already had. */
  lemma FailureKeepsVideoUrl(t: VideoTask, error: string)
    ensures ApplyPatch(t, ErrorPatch(error)).status == Failed
    ensures ApplyPatch(t, ErrorPatch(error)).videoUrl == t.videoUrl
    ensures ApplyPatch(t, CaughtPatch(error)).status == Failed
    ensures ApplyPatch(t, CaughtPatch(error)).videoUrl == t.videoUrl
  {
  }

  /** The shown text is the fixed restriction notice exactly for errors with
      a restriction signature; otherwise the error's own text. */
  lemma DisplayMessageCases(errorMessage: string)
    ensures DisplayMessage(errorMessage) == UiRestrictionMessage <==>
      IsRestrictionSignature(errorMessage) || errorMessage == UiRestrictionMessage
    ensures !IsRestrictionSignature(errorMessage) ==> DisplayMessage(errorMessage) == errorMessage
  {
  }

  /** The status a trace of callbacks sets, when none of them is an error:
      completed once `onComplete` has fired, untouched otherwise; the URL it
      sets is never empty. */
  lemma {:induction false} TraceStatus(trace: seq<StreamEvent>, thumbnail: Option<string>)
    requires Errors(trace) == 0 && CompletionsCarryUrl(trace)
    ensures TracePatch(trace, thumbnail).status == (if Completions(trace) > 0 then Some(Completed) else None)
    ensures TracePatch(trace, thumbnail).videoUrl.Some? <==> Completions(trace) > 0
    ensures TracePatch(trace, thumbnail).videoUrl.Some? ==> TracePatch(trace, thumbnail).videoUrl.value != []
  {
    if trace != [] {
      TraceStatus(trace[..|trace| - 1], thumbnail);
    }
  }

  /** The URL a trace of callbacks stores is the one the last `onComplete`
      received: no other callback touches the URL. */
  lemma {:induction false} TracePatchUrl(trace: seq<StreamEvent>, thumbnail: Option<string>)
    ensures TracePatch(trace, thumbnail).videoUrl == LastCompletion(trace)
  {
    if trace != [] {
      TracePatchUrl(trace[..|trace| - 1], thumbnail);
    }
  }

  /** Where one generation leaves its task: failed with the shown error text
      when the call throws; completed when it resolves to a URL, holding the
      URL its single `onComplete` received (a URL line after `[DONE]` changes
      the URL returned but not the one stored); and still processing when
      the body ends without a URL, since then no callback fires. */
  lemma FinalTaskState(t: VideoTask, response: Response, decode: SseCodec.Decoder, thumbnail: Option<string>)
    ensures var g := Respond(response, decode);
      var r := ApplyPatch(t, GenerationPatch(g, thumbnail));
      && (g.outcome.Threw? ==> r.status == Failed && r.progressMessage == Some(DisplayMessage(g.outcome.message)))
      && (g.outcome.Returned? && g.outcome.url != [] ==>
            && r.status == Completed && Truthy(r.videoUrl)
            && Completions(g.trace) == 1 && r.videoUrl == LastCompletion(g.trace)
            && OnComplete(r.videoUrl.value) in g.trace)
      && (g.outcome.Returned? && g.outcome.url == [] ==> r.status == Processing && r.videoUrl == t.videoUrl)
  {
    var g := Respond(response, decode);
    RespondReconciled(response, decode);
    TracePatchUrl(g.trace, thumbnail);
    if g.outcome.Threw? {
      FailedLast(t, g, thumbnail);
    } else {
      ResolvedState(t, g, thumbnail);
    }
  }

  lemma FailedLast(t: VideoTask, g: Generation, thumbnail: Option<string>)
    requires g.outcome.Threw?
    ensures var r := ApplyPatch(t, GenerationPatch(g, thumbnail));
      r.status == Failed && r.progressMessage == Some(DisplayMessage(g.outcome.message))
  {
  }

  lemma ResolvedState(t: VideoTask, g: Generation, thumbnail: Option<string>)
    requires g.outcome.Returned?
    requires Errors(g.trace) == 0 && CompletionsCarryUrl(g.trace)
    requires Completions(g.trace) <= 1 && (g.outcome.url != [] <==> Completions(g.trace) == 1)
    ensures var r := ApplyPatch(t, GenerationPatch(g, thumbnail));
      && (g.outcome.url != [] ==> r.status == Completed && Truthy(r.videoUrl))
      && (g.outcome.url == [] ==> r.status == Processing && r.videoUrl == t.videoUrl)
  {
    TraceStatus(g.trace, thumbnail);
  }

  /** The body of one callback as `handleGenerate` defines it. */
  method ApplyEvent(ledger: TaskLedger, id: string, e: StreamEvent, completedAt: int, thumbnail: Option<string>)
    requires ledger.Valid()
    modifies ledger
    ensures ledger.Valid()
    ensures ledger.tasks == UpdateTasks(old(ledger.tasks), id, EventPatch(e, thumbnail))
    ensures ledger.totalVideosGenerated == old(ledger.totalVideosGenerated) + (if e.OnComplete? then 1 else 0)
    ensures e.OnComplete? ==> ledger.videoGeneratedTimestamps == RecordAt(old(ledger.videoGeneratedTimestamps), completedAt)
    ensures !e.OnComplete? ==> ledger.videoGeneratedTimestamps == old(ledger.videoGeneratedTimestamps)
    ensures ledger.totalApiCalls == old(ledger.totalApiCalls)
    ensures ledger.apiCallTimestamps == old(ledger.apiCallTimestamps)
  {
    match e {
      case OnProgress(percent, message) =>
        ledger.UpdateTask(id, ProgressPatch(percent, message));
      case OnComplete(url) =>
        ledger.IncrementVideosGenerated(completedAt);
        ledger.UpdateTask(id, CompletePatch(url));
        if thumbnail.Some? {
          UpdateTasksTwice(old(ledger.tasks), id, CompletePatch(url), ThumbnailPatch(thumbnail.value));
          ledger.UpdateTask(id, ThumbnailPatch(thumbnail.value));
        }
      case OnError(error) =>
        ledger.UpdateTask(id, ErrorPatch(error));
    }
  }

  /** Appending one callback to a trace appends its updates. */
  lemma TracePatchSnoc(trace: seq<StreamEvent>, i: nat, thumbnail: Option<string>)
    requires i < |trace|
    ensures TracePatch(trace[..i + 1], thumbnail) == ThenPatch(TracePatch(trace[..i], thumbnail), EventPatch(trace[i], thumbnail))
  {
    assert trace[..i + 1][..i] == trace[..i];
  }

  /** The callbacks of one generation, run in the order they fire, on a
      task list that already holds the updates `start` since `base`. */
  method ApplyTrace(ledger: TaskLedger, id: string, trace: seq<StreamEvent>, completedAt: int, thumbnail: Option<string>,
                    ghost base: seq<VideoTask>, ghost start: TaskPatch)
    requires ledger.Valid()
    requires start.id.None? && ledger.tasks == UpdateTasks(base, id, start)
    modifies ledger
    ensures ledger.Valid()
    ensures ledger.tasks == UpdateTasks(base, id, ThenPatch(start, TracePatch(trace, thumbnail)))
    ensures ledger.totalVideosGenerated == old(ledger.totalVideosGenerated) + Completions(trace)
    ensures ledger.totalApiCalls == old(ledger.totalApiCalls)
    ensures ledger.apiCallTimestamps == old(ledger.apiCallTimestamps)
  {
    ThenNoChanges(start);
    var i := 0;
    while i < |trace|
      invariant 0 <= i <= |trace|
      invariant ledger.Valid()
      invariant ledger.tasks == UpdateTasks(base, id, ThenPatch(start, TracePatch(trace[..i], thumbnail)))
      invariant ledger.totalApiCalls == old(ledger.totalApiCalls)
      invariant ledger.apiCallTimestamps == old(ledger.apiCallTimestamps)
      invariant ledger.totalVideosGenerated == old(ledger.totalVideosGenerated) + Completions(trace[..i])
    {
      ghost var sofar := ThenPatch(start, TracePatch(trace[..i], thumbnail));
      ApplyEvent(ledger, id, trace[i], completedAt, thumbnail);
      CountAppend(trace[..i], trace[i]);
      assert trace[..i] + [trace[i]] == trace[..i + 1];
      TracePatchSnoc(trace, i, thumbnail);
      UpdateTasksTwice(base, id, sofar, EventPatch(trace[i], thumbnail));
      ThenPatchAssociative(start, TracePatch(trace[..i], thumbnail), EventPatch(trace[i], thumbnail));
      i := i + 1;
    }
    assert trace[..|trace|] == trace;
  }

  /** `handleGenerate` for one task: `requestedAt` is the clock when the
      request goes out, `completedAt` when `onComplete` runs. The callbacks
      are applied in the order the client fires them. */
  method HandleGenerate(ledger: TaskLedger, task: VideoTask, requestedAt: int, completedAt: int,
                        response: Response, decode: SseCodec.Decoder, thumbnail: Option<string>)
    requires ledger.Valid()
    modifies ledger
    ensures ledger.Valid()
    ensures ledger.tasks == UpdateTasks(old(ledger.tasks), task.id, GenerationPatch(Respond(response, decode), thumbnail))
    ensures ledger.totalApiCalls == old(ledger.totalApiCalls) + 1
    ensures ledger.apiCallTimestamps == RecordAt(old(ledger.apiCallTimestamps), requestedAt)
    ensures ledger.totalVideosGenerated == old(ledger.totalVideosGenerated) + Completions(Respond(response, decode).trace)
  {
    ghost var base := ledger.tasks;
    ledger.UpdateTask(task.id, StartPatch);
    var content, trace, outcome := GenerateVideo(ledger, requestedAt, ParamsOf(task), response, decode);
    ApplyTrace(ledger, task.id, trace, completedAt, thumbnail, base, StartPatch);
    if outcome.Threw? {
      UpdateTasksTwice(base, task.id, ThenPatch(StartPatch, TracePatch(trace, thumbnail)), CaughtPatch(outcome.message));
      ledger.UpdateTask(task.id, CaughtPatch(outcome.message));
    }
  }

  // ---------------------------------------------------------------------
  // Actions per task.

  datatype Action = Generate | Preview | Download | Regenerate | Delete

  /** The buttons of a task row, in order. */
  function Actions(t: VideoTask): seq<Action>
  {
    (if t.status == Pending then [Generate] else [])
    + (if t.status == Completed && Truthy(t.videoUrl) then [Preview, Download, Regenerate] else [])
    + [Delete]
  }

  /** Generating is offered only for pending tasks, regenerating only for
      completed tasks with a video, deleting always; a failed or processing
      task can only be deleted. */
  lemma ActionsByStatus(t: VideoTask)
    ensures Generate in Actions(t) <==> t.status == Pending
    ensures Regenerate in Actions(t) <==> t.status == Completed && Truthy(t.videoUrl)
    ensures Preview in Actions(t) <==> Regenerate in Actions(t)
    ensures Delete in Actions(t)
    ensures t.status == Failed || t.status == Processing ==> Actions(t) == [Delete]
  {
    match t.status
    case Pending =>
      assert Actions(t) == [Generate, Delete];
    case Completed =>
      if Truthy(t.videoUrl) {
        assert Actions(t) == [Preview, Download, Regenerate, Delete];
      } else {
        assert Actions(t) == [Delete];
      }
    case _ =>
      assert Actions(t) == [Delete];
  }

  /** After a generation that resolved to a URL the task offers preview,
      download and regeneration; after one that threw it offers only
      deletion. */
  lemma GenerationThenActions(t: VideoTask, response: Response, decode: SseCodec.Decoder, thumbnail: Option<string>)
    ensures var g := Respond(response, decode);
      var r := ApplyPatch(t, GenerationPatch(g, thumbnail));
      && (g.outcome.Returned? && g.outcome.url != [] ==> Actions(r) == [Preview, Download, Regenerate, Delete])
      && (g.outcome.Threw? ==> Actions(r) == [Delete])
  {
    FinalTaskState(t, response, decode, thumbnail);
  }
}
