# Sora2api UI — a Dafny model of the video-generation pipeline

This project models the logic at the heart of the Sora2api web UI and proves properties of it in Dafny 4.11. The UI submits video-generation tasks to a Sora-compatible chat-completions endpoint, follows the streamed answer, and keeps a persistent ledger of tasks and usage counters.

The model covers:

- **`parseSSEData` decoding** (`SseCodec`). It decodes one `data: …` event-stream line into a done marker, a progress message or a video URL.
- **The `generateVideo` client** (`SoraStream`, `SoraClient`):
  - its mode-dependent message content;
  - its handling of non-OK responses and missing bodies;
  - its streaming loop, which keeps a text buffer, the captured video URL and a `hasCompleted` flag, and reconciles read failures against them.
- **The zustand task store** (`TaskStore`). It holds the newest-first task list, the lifetime counters, and the two 30-day timestamp logs.
- **The video page's task lifecycle** (`VideoGeneration`):
  - the selected model id;
  - validation and construction of a new task;
  - the updates `handleGenerate` makes through its callbacks;
  - the action buttons offered per status.
- **The dashboard statistics** (`Dashboard`).
- **The Gemini request bodies** (`GeminiApi`).
- **The image/prompt page** (`ImagePrompt`): its base64 helpers, its model-list normalisation and selection, and how it shows a reply.
- **The settings store** (`SettingsStore`).

Shared pieces are split out:
- `Wrappers` holds `Option` and JavaScript truthiness of optional strings.
- `Text` holds `trim`, `startsWith`, `includes`, `split`/`join` and decimal rendering and parsing.
- `Types` holds the task record and the partial-update (`{...t, ...updates}`) algebra.
- `JsonValue` holds parsed JSON values with property access and truthiness.

Stateful code keeps its form. The task store, the settings store and the image page's component state are classes whose methods update fields. The `while (true)` read loop is the method `SoraStream.StreamLoop`, which is proved equal to the specification function `SoraStream.Run`. The generation callbacks are applied to the store one at a time by a loop in `VideoGeneration.ApplyTrace`.

Some behaviours of the code are easy to miss; the model states them as they are:

- **Both callbacks can fire for one attempt.** A read failure after `data: [DONE]` has already completed the attempt still fires `onError` and throws (`SoraStream.ReadFailureAfterCompletion`).
- **A failed task can keep its URL.** A task marked `failed` keeps a video URL it already had (`VideoGeneration.FailureKeepsVideoUrl`), so completing and then failing leaves a failed task that still has a URL.
- **A body that ends without a URL fires no callback.** The call returns `''`, and the task stays `processing` (`SoraStream.NoUrlNoCallback`, `VideoGeneration.FinalTaskState`).
- **The stored URL can differ from the returned one.** A URL line after `data: [DONE]` replaces the URL the call returns but fires no callback, so the task keeps the URL `onComplete` received (`SoraStream.LateUrlReturnedNotReported`, `VideoGeneration.FinalTaskState`).
- **A failed model listing gives a fallback list.** `getModels` returns a fixed two-model list when the request fails or the body is `null`, not an empty list (`GeminiApi.GetModelsCases`).
- **A `null` model empties the image page's list.** Reading `.name` of a `null` model while choosing throws, and the page's `catch` stores an empty list and keeps the previous choice (`ImagePrompt.LoadModelsCases`).
- **Progress is not clamped.** The progress value is the number in the first digit run immediately followed by `%` (`SseCodec.FirstPercentIsRunStart`), with no clamping to 0–100.

## Model

| member | source | states |
|---|---|---|
| SseCodec.ParseSseData | src/services/soraApi.ts:22-68 | the done marker comes exactly from the line `data: [DONE]`; a line without the `data: ` prefix is no event; a URL is never empty and holds no quote |
| SseCodec.DoneLineIsOnlyDone | src/services/soraApi.ts:28-30 | `data: [DONE]` gives the done marker and nothing else, whatever its payload would decode to |
| SseCodec.FailSoft | src/services/soraApi.ts:36-41 | a payload that fails to parse, has no `choices[0].delta`, or has neither channel gives no event (no exception) |
| SseCodec.ReasoningTakesPrecedence | src/services/soraApi.ts:44-53 | non-empty `reasoning_content` wins over `content`: the event is its trimmed text, with the first `<digits>%` as progress |
| SseCodec.ContentYieldsUrl | src/services/soraApi.ts:55-64 | otherwise the event is the URL between the first `src='` and the next quote, and no event without one |
| SseCodec.FirstPercentIsRunStart | src/services/soraApi.ts:45 | the leftmost `\d+%` match starts at the beginning of a maximal digit run |
| SseCodec.ProgressOfRendered | src/services/soraApi.ts:45-48 | a percentage written after digit-free text is read back as exactly that number |
| SseCodec.UrlIn | src/services/soraApi.ts:58-60 | a captured URL is non-empty, quote-free and framed by `src='…'` at the first position where the pattern matches; none is found only when no position matches |
| SseCodec.UrlOfRenderedTag | src/services/soraApi.ts:58-60 | a tag `src='u'` after quote-free text yields exactly `u` |
| SseCodec.ProgressExample | src/services/soraApi.ts:44-50 | `45% rendering` is progress 45 with that message |
| SseCodec.UrlExample | src/services/soraApi.ts:56-60 | `<video src='u'>` yields the URL `u` |
| SseCodec.PrefixedLine | src/services/soraApi.ts:32-38 | the decoder sees exactly the text after `data: ` |
| Text.TrimDropsOnlySpace | src/services/soraApi.ts:207 | `line.trim()` removes whitespace only: the result is an infix of the line with only whitespace before and after it |
| SoraStream.StreamLoop | src/services/soraApi.ts:171-262 | the loop's callbacks and its return or throw are those of the specification `Run` for every sequence of reads |
| SoraStream.ConsumeChunk | src/services/soraApi.ts:202-227 | reading one chunk leaves the buffer, URL, completion flag and callbacks of the specification `FeedChunk`: the completed lines handled in order, the unfinished one kept |
| SoraStream.ReadFailed | src/services/soraApi.ts:181-197 | a failing read, together with the outer catch its error reaches (lines 245-262), fires the callbacks and returns or throws as the specification `FailRead` says |
| SoraStream.FinishStream | src/services/soraApi.ts:230-244 | the end of the body fires the callbacks and returns the URL the specification `FinishNormally` gives: a URL in the leftover buffer is taken, and an uncompleted URL completes |
| SoraStream.AbsorbRest | src/services/soraApi.ts:230-236 | flushing the leftover buffer fires no callback and only ever captures a non-empty, quote-free URL |
| SoraStream.StartConsistent | src/services/soraApi.ts:172-174 | the initial state (empty buffer, no URL, not completed) satisfies the loop invariant |
| SoraStream.HandleLineConsistent | src/services/soraApi.ts:206-226 | one line keeps the invariant: `onComplete` has fired once exactly when `hasCompleted` is set, only with a URL, and `onError` has not fired |
| SoraStream.FeedChunkConsistent | src/services/soraApi.ts:202-227 | after every chunk the invariant holds and the buffer holds no newline |
| SoraStream.ReadFailureWithUrl | src/services/soraApi.ts:186-191 | a read failure with a held, uncompleted URL fires `onComplete` with it, no `onError`, and returns the URL |
| SoraStream.ReadFailureWithoutUrl | src/services/soraApi.ts:192-196 | a read failure with no URL fires `onError` once with the interruption text and throws it |
| SoraStream.ReadFailureAfterCompletion | src/services/soraApi.ts:186-196 | a read failure after `[DONE]` completed still fires `onError` and throws |
| SoraStream.InterruptedIsNotRestriction | src/services/soraApi.ts:253-259 | the interruption text never matches the restriction signatures |
| SoraStream.RunReconciled | src/services/soraApi.ts:176-262 | for every stream: `onComplete` at most once and with a non-empty URL; `onError` at most once; a returned URL is non-empty exactly when `onComplete` fired, and then `onError` did not; a throw was reported by a final `onError` with the same text |
| SoraStream.StreamThrowsInterruption | src/services/soraApi.ts:245-262 | the only error a stream throws is the interruption text |
| SoraStream.NoUrlNoCallback | src/services/soraApi.ts:238-244 | a body that never carries a URL fires neither callback and returns `''` |
| SoraStream.FeedChunkConcat | src/services/soraApi.ts:202-204 | feeding two chunks in turn equals feeding their concatenation |
| SoraStream.FeedAllIsOneChunk | src/services/soraApi.ts:202-227 | however the body is cut into chunks, the state reached is that of one chunk holding all of it |
| SoraStream.BufferAccounting | src/services/soraApi.ts:202-216 | after any chunks, the lines handled are the complete lines of the text received, in order, and the buffer is its unfinished last line |
| SoraStream.HandleLineEvents | src/services/soraApi.ts:206-226 | one line adds its progress callback, if any, then `onComplete` only for the done marker with an uncompleted URL; only a URL line changes the URL |
| SoraStream.ReasoningLineReportsProgress | src/services/soraApi.ts:210-216 | a `data:` line with non-blank reasoning fires exactly one `onProgress` with its first percentage (0 without one) and trimmed text, and changes nothing else |
| SoraStream.ProgressesAppend | src/services/soraApi.ts:212-216 | the progress callbacks of two traces in turn are those of each, in order |
| SoraStream.HandleLineProgress | src/services/soraApi.ts:206-226 | one line adds exactly its own progress callback to the progress already reported |
| SoraStream.CompletionBy | src/services/soraApi.ts:223-226 | a line fires at most one `onComplete`, and only with a non-empty URL |
| SoraStream.HandleLinesProgress | src/services/soraApi.ts:206-227 | handling lines adds exactly their progress callbacks, in order, whatever completions interleave |
| SoraStream.ProgressReported | src/services/soraApi.ts:202-227 | however the body is cut into chunks, the progress callbacks fired are those of its complete lines, in order |
| SoraStream.LateUrlReturnedNotReported | src/services/soraApi.ts:218-244 | after completion a URL line changes the returned URL without a callback, so it can differ from the one `onComplete` received |
| SoraStream.LastCompletion | src/services/soraApi.ts:223-226 | there is a last completion URL exactly when `onComplete` fired, and it is one the trace passed to `onComplete` |
| SoraStream.LineProgress | src/services/soraApi.ts:207-216 | a line calls for at most one progress callback, and one exactly when it decodes to a non-empty message |
| SoraStream.NothingLost | src/services/soraApi.ts:202-204 | the handled lines joined with `\n`, followed by the buffer, are exactly the text received |
| SoraStream.RunChunksThenFailure | src/services/soraApi.ts:177-197 | chunks followed by a read failure reconcile the state the chunks reached |
| SoraClient.ContentCarriesInputs | src/services/soraApi.ts:97-144 | the content carries the mode's media exactly when present and non-empty, and the prompt as text, except that remix puts the URL in front and character creation sends no text |
| SoraClient.PartsOnlyWithMedia | src/services/soraApi.ts:99-144 | a multi-part content is sent exactly when the mode's media field is present and non-empty |
| SoraClient.HttpErrorMessage | src/services/soraApi.ts:159-162 | the error text is never empty and is the body whenever the body is non-empty |
| SoraClient.HttpErrorReported | src/services/soraApi.ts:159-163 | a non-OK status fires `onError` once with that text, throws it, and reads nothing |
| SoraClient.HttpStatusInMessage | src/services/soraApi.ts:161 | with an empty body the text is `HTTP error ` followed by the status, which parses back |
| SoraClient.ThrownMessages | src/services/soraApi.ts:146-262 | a thrown error is the request's own failure, the status text, `No response body`, or the stream interruption |
| SoraClient.RespondReconciled | src/services/soraApi.ts:159-262 | the reconciliation contract holds for every response, including the early rejections |
| SoraClient.GenerateVideo | src/services/soraApi.ts:89-262 | the API-call counter is bumped once before anything is sent; content and outcome are those of the specification |
| TaskStore.UpdateTasks | src/store/taskStore.ts:27-30 | the list keeps its length |
| TaskStore.UpdateTasksPointwise | src/store/taskStore.ts:27-30 | each task with the id has the update merged in; every other task is unchanged, position by position |
| TaskStore.UpdateMissingId | src/store/taskStore.ts:27-30 | an update for an absent id leaves the list unchanged |
| TaskStore.UpdateTasksTwice | src/store/taskStore.ts:27-30 | two updates of one id equal one update with the merged patch, if the first does not rename the task |
| TaskStore.RemoveId | src/store/taskStore.ts:31-32 | no task with the id remains, every other task stays, and the list does not grow |
| TaskStore.RemoveIdAppend | src/store/taskStore.ts:31-32 | deletion keeps the surviving tasks in order |
| TaskStore.DeleteIdempotent | src/store/taskStore.ts:31-32 | deleting twice is deleting once |
| TaskStore.UpdateAfterDelete | src/store/taskStore.ts:27-32 | a late update for a deleted task is a no-op |
| TaskStore.KeepAfter | src/store/taskStore.ts:37-39 | the pruned log holds exactly the entries after the cutoff and never grows |
| TaskStore.KeepAfterAppend | src/store/taskStore.ts:37-39 | pruning keeps the order of the entries it keeps |
| TaskStore.KeepAfterTwice | src/store/taskStore.ts:37-39 | pruning at an earlier cutoff and then a later one is pruning at the later one |
| TaskStore.RecordAt | src/store/taskStore.ts:36-41 | the new log ends with `now` and is at most one longer |
| TaskStore.RecordWindow | src/store/taskStore.ts:36-41 | if the clock did not run backwards, every entry after an increment lies in the 30 days up to `now` |
| TaskStore.TaskLedger.constructor | src/store/taskStore.ts:21-25 | no tasks, zero counters, empty logs |
| TaskStore.TaskLedger.AddTask | src/store/taskStore.ts:26 | the new task goes first and the old ones follow in order; nothing else changes |
| TaskStore.TaskLedger.UpdateTask | src/store/taskStore.ts:27-30 | the tasks become the merged list; counters and logs are untouched |
| TaskStore.TaskLedger.DeleteTask | src/store/taskStore.ts:31-32 | the tasks become the filtered list; counters and logs are untouched |
| TaskStore.TaskLedger.IncrementApiCalls | src/store/taskStore.ts:33-43 | total plus one and log pruned then `now`; tasks and the other counter and log untouched; `|log| <= total` kept |
| TaskStore.TaskLedger.IncrementVideosGenerated | src/store/taskStore.ts:44-54 | the same on the videos counter and log |
| Types.PatchAlgebra | src/store/taskStore.ts:29 | the empty update is a no-op, an update applied twice is applied once, two updates compose into one |
| Types.ThenPatchAssociative | src/store/taskStore.ts:29 | composing updates is associative |
| VideoGeneration.ModelIdReadsBack | src/pages/Creation/VideoGeneration.tsx:48-50 | the model id is `sora-video-<ratio>-<duration>`, and both choices read back from it |
| VideoGeneration.ModelIdInjective | src/pages/Creation/VideoGeneration.tsx:48-50 | different choices give different model ids |
| VideoGeneration.ButtonAndValidation | src/pages/Creation/VideoGeneration.tsx:103-122 | an enabled submit button always submits a form the validation accepts; validation alone lets an empty prompt through in three modes |
| VideoGeneration.Upload | src/pages/Creation/VideoGeneration.tsx:135-137 | an absent or empty upload is not stored |
| VideoGeneration.AcceptedTaskRequest | src/pages/Creation/VideoGeneration.tsx:125-139 | an accepted task is pending, numbered after the existing tasks, and has a non-empty prompt; generating it sends exactly its mode's media |
| VideoGeneration.HandleAddTask | src/pages/Creation/VideoGeneration.tsx:101-144 | a rejected form adds nothing and keeps the form; an accepted one puts the new task first and resets the form |
| VideoGeneration.EventPatch | src/pages/Creation/VideoGeneration.tsx:243-276 | no callback changes a task's id, number, creation time or prompt |
| VideoGeneration.TracePatch | src/pages/Creation/VideoGeneration.tsx:243-276 | the merged updates of a trace never change a task's id, number, creation time or prompt |
| VideoGeneration.ProgressOnlyTouchesProgress | src/pages/Creation/VideoGeneration.tsx:243-248 | `onProgress` changes only progress and progress message |
| VideoGeneration.ThumbnailCommutes | src/pages/Creation/VideoGeneration.tsx:262-268 | the thumbnail touches only the thumbnail, so when it arrives does not matter |
| VideoGeneration.FailureKeepsVideoUrl | src/pages/Creation/VideoGeneration.tsx:270-275 | failing marks the task failed and keeps an existing video URL |
| VideoGeneration.DisplayMessageCases | src/pages/Creation/VideoGeneration.tsx:281-289 | errors with a restriction signature show the fixed notice; all others show their own text |
| VideoGeneration.TraceStatus | src/pages/Creation/VideoGeneration.tsx:243-268 | with no error, the task is completed once `onComplete` fired and its status is untouched otherwise; its URL is set exactly then, and never empty |
| VideoGeneration.FinalTaskState | src/pages/Creation/VideoGeneration.tsx:229-296 | a throw leaves the task failed with the shown text; a returned URL leaves it completed, holding the URL its single `onComplete` received (not necessarily the one returned); an empty result leaves it processing |
| VideoGeneration.TracePatchUrl | src/pages/Creation/VideoGeneration.tsx:243-276 | the URL the callbacks store is the one the last `onComplete` received; no other callback touches it |
| VideoGeneration.ApplyEvent | src/pages/Creation/VideoGeneration.tsx:243-276 | one callback's effect on the store; `onComplete` also bumps the videos counter |
| VideoGeneration.ApplyTrace | src/pages/Creation/VideoGeneration.tsx:243-276 | the callbacks run in firing order equal one merged update; the videos counter grows by the number of completions |
| VideoGeneration.HandleGenerate | src/pages/Creation/VideoGeneration.tsx:229-296 | the task ends with the generation's merged updates; one API call is recorded; the videos total grows by the completions |
| VideoGeneration.ActionsByStatus | src/pages/Creation/VideoGeneration.tsx:625-666 | generate only when pending, regenerate only when completed with a URL, delete always; failed and processing tasks can only be deleted |
| VideoGeneration.GenerationThenActions | src/pages/Creation/VideoGeneration.tsx:625-666 | after a generation returning a URL the task offers preview, download and regenerate; after a throw only delete |
| Dashboard.CountStatus | src/pages/Dashboard.tsx:12-14 | a status count never exceeds the number of tasks |
| Dashboard.CountStatusAdditive | src/pages/Dashboard.tsx:12-14 | a status count is additive over the list and counts a task exactly when it has that status |
| Dashboard.CountStatusPositive | src/pages/Dashboard.tsx:43 | a status count is positive exactly when some task has that status |
| Dashboard.StatusCountsSum | src/pages/Dashboard.tsx:12-14 | completed, processing, failed and pending counts add up to the number of tasks |
| Dashboard.Recent24h | src/pages/Dashboard.tsx:31-33 | the 24-hour count never exceeds the log length |
| Dashboard.Recent24hAdditive | src/pages/Dashboard.tsx:31-33 | the count adds up over concatenated logs and counts one entry exactly when it is later than `now - 24h` |
| Dashboard.PruningNeverMissed | src/pages/Dashboard.tsx:31-33 | after an increment at `t`, the pruned log gives the same 24-hour count at any later time as the unpruned history |
| Dashboard.RecordAllNeverMissed | src/pages/Dashboard.tsx:31-33 | the same for any series of increments not later than the query time |
| Dashboard.DisplayReadsBack | src/pages/Dashboard.tsx:38-41 | `recent/total` splits on `/` into exactly two numerals that parse back to the two counts |
| Dashboard.StatisticsBounds | src/pages/Dashboard.tsx:11-48 | on a valid ledger each 24-hour figure is at most its lifetime total, and the status is active exactly when some task is processing |
| Dashboard.RecentActivity | src/pages/Dashboard.tsx:108 | the list is a prefix of the tasks of length `min(5, |tasks|)` |
| Dashboard.NewTaskListedFirst | src/pages/Dashboard.tsx:108 | a task just added is listed first |
| GeminiApi.ContentParts | src/services/geminiApi.ts:37-52 | the prompt is always the first part; the image part is present exactly when there is a non-empty image and holds `image/jpeg` and the second comma segment |
| GeminiApi.DataUrlPayload | src/services/geminiApi.ts:45 | for a data URL `<header>,<payload>` the data sent is the payload |
| GeminiApi.RequestPath | src/services/geminiApi.ts:57 | the path starts with `/` |
| GeminiApi.RequestPathReadsBack | src/services/geminiApi.ts:57 | the path is `/` + model + `:generateContent`, with the model recoverable |
| GeminiApi.GeneratePromptOnlyRewritesPrompt | src/services/geminiApi.ts:72-82 | only the text changes: same path and image part, and the text is the image-dependent instruction followed by the original prompt |
| GeminiApi.GetModelsCases | src/services/geminiApi.ts:16-31 | the result is never falsy; fallback list on failure or a `null` body; else a truthy `models`, else any truthy body as it is (an array, an object, or a primitive such as a string), else `[]` |
| ImagePrompt.FormatBase64Image | src/pages/Creation/ImagePromptGeneration.tsx:107-113 | the result starts with `data:image/`, equals the input exactly when the input already did, and ends with the input |
| ImagePrompt.FormatBase64ImageIdempotent | src/pages/Creation/ImagePromptGeneration.tsx:101-113 | formatting is idempotent and its result is always recognised as an image |
| ImagePrompt.NormaliseModelsCases | src/pages/Creation/ImagePromptGeneration.tsx:30-48 | an array is kept; an object gives `models || data` when that is an array, else `[]` (a truthy non-array `models` gives `[]` even beside a `data` array); everything else gives `[]` |
| ImagePrompt.SelectModelCases | src/pages/Creation/ImagePromptGeneration.tsx:56-61 | the saved name when some model has it, else the first model's name, else unchanged; a choice from a non-empty list names one of its models |
| ImagePrompt.SomeNamedCases | src/pages/Creation/ImagePromptGeneration.tsx:56 | `.some` throws exactly when a `null` model comes before every model with the name; without `null` models it finds the name exactly when some model carries it |
| ImagePrompt.LoadModelsCases | src/pages/Creation/ImagePromptGeneration.tsx:50-65 | without `null` models the list is kept and the selection rule chooses; the list is kept or emptied, and emptied only by a throw that keeps the choice; a `null` first model, or one ahead of the saved name, throws |
| ImagePrompt.NullModelExamples | src/pages/Creation/ImagePromptGeneration.tsx:56-65 | `[null]`, and `[null, {name: "x"}]` with `x` saved, both empty the list and keep the choice |
| ImagePrompt.FallbackSelection | src/pages/Creation/ImagePromptGeneration.tsx:27-61 | a failed models request yields the two fallback models and selects `gemini-pro` |
| ImagePrompt.ModelsObjectKept | src/pages/Creation/ImagePromptGeneration.tsx:27-50 | an answer `{ models: [...] }` gives the page exactly that list |
| ImagePrompt.SubmitCases | src/pages/Creation/ImagePromptGeneration.tsx:115-139 | a request goes out exactly with input or image and a model, alerts without a model, targets the model, carries the image exactly when uploaded, and ends its text with the input |
| ImagePrompt.ErrorShown | src/pages/Creation/ImagePromptGeneration.tsx:170-173 | a failed call shows `Error: …` and no image |
| ImagePrompt.ShowCases | src/pages/Creation/ImagePromptGeneration.tsx:141-167 | prompt mode shows the reply text verbatim and never an image; any image is a data URL shown with the success text; an inline image's URL ends with its data |
| ImagePrompt.ImagePromptPage.constructor | src/pages/Creation/ImagePromptGeneration.tsx:12-20 | the component's initial state |
| ImagePrompt.ImagePromptPage.LoadModels | src/pages/Creation/ImagePromptGeneration.tsx:24-70 | the models and the choice become those of `LoadModelsOutcome` on the normalised list, including the `catch` that empties the list; loading stops; nothing else changes |
| ImagePrompt.ImagePromptPage.HandleGenerate | src/pages/Creation/ImagePromptGeneration.tsx:115-177 | nothing changes unless a request is sent; then the output and image are those of the reply |
| SettingsStore.MergeFields | src/store/settingsStore.ts:20-23 | exactly the fields present in the partial are overwritten with its values; absent fields are unchanged |
| SettingsStore.MergeAlgebra | src/store/settingsStore.ts:20-23 | the empty partial is a no-op, a partial applied twice is applied once, two updates compose into one |
| SettingsStore.CompletePatchOverwrites | src/store/settingsStore.ts:20-23 | a complete partial decides the result whatever was stored |
| SettingsStore.SettingsState.constructor | src/store/settingsStore.ts:13-19 | all four settings start empty |
| SettingsStore.SettingsState.UpdateSettings | src/store/settingsStore.ts:20-23 | the settings become the merge of the old ones with the partial |

## Left out

- **Network and stream plumbing:** `fetch`, the axios clients, `TextDecoder`, the stream reader and `releaseLock`.
  - The server's answer is a `Response` parameter.
  - The body is a finite sequence of read outcomes whose chunks are already-decoded strings. Running out of outcomes counts as the end of the body.
  - An infinite stream is not modelled.
- **`JSON.parse` and `JSON.stringify`.** The SSE payload decoder is a parameter that maps a text to an optional parsed payload. The Gemini reply arrives already parsed, with its rendering given as a string. `parseSSEData` gives no event when `reasoning_content` or `content` is not a string (there the source's `.match` throws and is caught).
- **`Date.now`, `crypto.randomUUID`, `localStorage` and `persist`.**
  - Clock readings and task ids are parameters.
  - The saved Gemini model choice is an optional parameter.
  - Saving the choice and persisting the stores are not modelled.
- **Concurrency.** Several generations in flight interleave their callbacks. The model applies one generation's callbacks in firing order, after the request. The loop never reads the store, so for a single generation the resulting store is the same.
- **`generateThumbnail` (DOM, canvas, timers).** Its outcome is an optional string, `None` when it fails. It is applied right after `onComplete`; `VideoGeneration.ThumbnailCommutes` shows that when it arrives does not matter.
- **The `Error` check on thrown values.** Thrown values are always `Error`s with a message, so the `Unknown error` fallback of `handleGenerate` is not modelled. In the image page, a thrown value without a message shows `Unknown error`.
- **File uploads.** Uploads are optional strings; the `FileReader` conversion is not modelled.
- **The rest of the UI and configuration:**
  - the Dashboard storage estimate (floating point and `toFixed`);
  - JSX rendering and i18n: translated texts are their English fallbacks, and the image page's success text is the fixed English one;
  - the axios wrappers `getModels`, `createCharacter`, `generateWithCharacter` and `getTaskStatus` of the Sora client;
  - the video page's models fetch effect;
  - `handleDownload` and the file-upload handlers.
- **ImagePrompt.NameOf.** A model name that is not a string reads as the empty name, so such a model is never selected by name.
- **SettingsStore.Merge.** A partial field present with the value `undefined` is treated as absent.
- **Types.ApplyPatch.** A patch field present with the value `undefined` is treated as absent, like a missing one; the callers in the video page never pass `undefined`.
- **TaskStore.UpdateTasks.** It merges with `Types.ApplyPatch`, so a field present as `undefined` is likewise treated as absent.
- **SseCodec.ProgressIn.** `parseInt` is read as an exact natural number; JavaScript returns a double, so numerals of 2^53 or more would be rounded, and `SseCodec.ProgressOfRendered` does not hold for them there.
- **VideoGeneration.HandleGenerate.** The callbacks are applied after the stream rather than during it. This is the same final state, as argued under concurrency above.
