/** The records of `src/types/index.ts`: generation modes, the video task
    and the partial update (`Partial<VideoTask>`) the ledger merges into a
    task. Optional properties are `Option`s; `None` is `undefined`. */
module Types {
  import opened Wrappers

  datatype GenerationMode = TextToVideo | ImageToVideo | Remix | CreateCharacter | CharacterToVideo

  datatype Status = Pending | Processing | Completed | Failed

  datatype VideoTask = VideoTask(
    id: string,
    sequenceNumber: int,
    thumbnail: Option<string>,
    prompt: string,
    status: Status,
    createdAt: int,
    videoUrl: Option<string>,
    model: string,
    aspectRatio: string,
    duration: string,
    generationMode: GenerationMode,
    imageBase64: Option<string>,
    remixVideoUrl: Option<string>,
    videoBase64: Option<string>,
    characterId: Option<string>,
    progress: Option<int>,
    progressMessage: Option<string>)

  /** A partial task: `Some(v)` for each property the update object carries. */
  datatype TaskPatch = TaskPatch(
    id: Option<string>,
    sequenceNumber: Option<int>,
    thumbnail: Option<string>,
    prompt: Option<string>,
    status: Option<Status>,
    createdAt: Option<int>,
    videoUrl: Option<string>,
    model: Option<string>,
    aspectRatio: Option<string>,
    duration: Option<string>,
    generationMode: Option<GenerationMode>,
    imageBase64: Option<string>,
    remixVideoUrl: Option<string>,
    videoBase64: Option<string>,
    characterId: Option<string>,
    progress: Option<int>,
    progressMessage: Option<string>)

  /** The update object `{}`. */
  const NoChanges := TaskPatch(None, None, None, None, None, None, None, None, None,
                               None, None, None, None, None, None, None, None)

  /** `{ ...t, ...p }`: every property `p` carries replaces the task's, every
      other property is the task's own. */
  function ApplyPatch(t: VideoTask, p: TaskPatch): (r: VideoTask)
  {
    VideoTask(
      p.id.GetOr(t.id),
      p.sequenceNumber.GetOr(t.sequenceNumber),
      t.thumbnail.OverriddenBy(p.thumbnail),
      p.prompt.GetOr(t.prompt),
      p.status.GetOr(t.status),
      p.createdAt.GetOr(t.createdAt),
      t.videoUrl.OverriddenBy(p.videoUrl),
      p.model.GetOr(t.model),
      p.aspectRatio.GetOr(t.aspectRatio),
      p.duration.GetOr(t.duration),
      p.generationMode.GetOr(t.generationMode),
      t.imageBase64.OverriddenBy(p.imageBase64),
      t.remixVideoUrl.OverriddenBy(p.remixVideoUrl),
      t.videoBase64.OverriddenBy(p.videoBase64),
      t.characterId.OverriddenBy(p.characterId),
      t.progress.OverriddenBy(p.progress),
      t.progressMessage.OverriddenBy(p.progressMessage))
  }

  /** `{ ...p, ...q }`: the single update equivalent to `p` followed by `q`. */
  function ThenPatch(p: TaskPatch, q: TaskPatch): TaskPatch
  {
    TaskPatch(
      p.id.OverriddenBy(q.id), p.sequenceNumber.OverriddenBy(q.sequenceNumber),
      p.thumbnail.OverriddenBy(q.thumbnail), p.prompt.OverriddenBy(q.prompt),
      p.status.OverriddenBy(q.status), p.createdAt.OverriddenBy(q.createdAt),
      p.videoUrl.OverriddenBy(q.videoUrl), p.model.OverriddenBy(q.model),
      p.aspectRatio.OverriddenBy(q.aspectRatio), p.duration.OverriddenBy(q.duration),
      p.generationMode.OverriddenBy(q.generationMode), p.imageBase64.OverriddenBy(q.imageBase64),
      p.remixVideoUrl.OverriddenBy(q.remixVideoUrl), p.videoBase64.OverriddenBy(q.videoBase64),
      p.characterId.OverriddenBy(q.characterId), p.progress.OverriddenBy(q.progress),
      p.progressMessage.OverriddenBy(q.progressMessage))
  }

  /** Merging is a monoid action: `{}` changes nothing, one update twice is
      the update once, and two updates in a row are their merge. */
  lemma PatchAlgebra(t: VideoTask, p: TaskPatch, q: TaskPatch)
    ensures ApplyPatch(t, NoChanges) == t
    ensures ApplyPatch(ApplyPatch(t, p), p) == ApplyPatch(t, p)
    ensures ApplyPatch(ApplyPatch(t, p), q) == ApplyPatch(t, ThenPatch(p, q))
  {
  }

  /** Merging updates is associative, so a run of updates can be merged in
      any grouping. */
  lemma ThenPatchAssociative(p: TaskPatch, q: TaskPatch, u: TaskPatch)
    ensures ThenPatch(ThenPatch(p, q), u) == ThenPatch(p, ThenPatch(q, u))
  {
  }

  /** `{}` is neutral on both sides of a merge. */
  lemma ThenNoChanges(p: TaskPatch)
    ensures ThenPatch(p, NoChanges) == p && ThenPatch(NoChanges, p) == p
  {
  }

  /** A patch that does not carry `id` keeps the task's id, so updates keyed
      by id keep reaching the same task. */
  lemma PatchKeepsId(t: VideoTask, p: TaskPatch)
    requires p.id.None?
    ensures ApplyPatch(t, p).id == t.id
  {
  }
}
