/**
 * The persisted entities of the timeline application and the outcome of an
 * asynchronous thunk.  Optional properties of a record are `Option`s: `None`
 * stands for a property that is absent (JavaScript `undefined`).
 */
module Entities {

  datatype Option<T> = None | Some(value: T)

  /** A timeline event.  `version`, `createAt` and `updatedAt` arrived with schema version 2. */
  datatype Story = Story(
    id: Option<int>,
    title: string,
    happenedAt: int,
    detail: string,
    tagIds: seq<int>,
    color: string,
    isArchived: bool,
    version: Option<int>,
    createAt: Option<int>,
    updatedAt: Option<int>)

  /** A coloured label; `name` is unique in the tags table. */
  datatype Tag = Tag(
    id: Option<int>,
    name: string,
    description: string,
    color: string,
    version: Option<int>,
    createAt: Option<int>,
    updatedAt: Option<int>)

  datatype Language = En | ZhTW | Ja
  datatype Theme = Light | Dark

  /** The single settings row. */
  datatype Settings = Settings(id: Option<int>, lang: Language, theme: Theme, isPopulated: Option<bool>)

  /** The `status` field shared by the three slices. */
  datatype Status = Idle | Loading | Succeeded | Failed

  /**
   * Errors the embedded store raises: a duplicate key or unique index on `add`,
   * a failed `modify` (a unique index violated by `update`), an aborted
   * transaction, an invalid key.
   */
  datatype DbError = ConstraintError | ModifyError | AbortError | DataError

  /** The value a thunk rejects with: a `rejectWithValue` message or a caught exception. */
  datatype Reason = Message(text: string) | Thrown(error: DbError)

  /** How a thunk settles. */
  datatype Outcome<T> = Fulfilled(payload: T) | Rejected(reason: Reason)

  /** What a single table call yields. */
  datatype DbResult<T> = Ok(value: T) | Err(error: DbError)

  /** The version a thunk stamps on a submitted record: 1 when it had none, else one more. */
  function NextVersion(v: Option<int>): int
  {
    if v.None? then 1 else v.value + 1
  }

  /** `changes` if it holds a value, else `original`: one property of a shallow merge. */
  function Overlay<T>(original: Option<T>, changes: Option<T>): Option<T>
  {
    if changes.Some? then changes else original
  }

  /**
   * The shallow merge `{ ...original, ...changes }` of two stories, used both by
   * the store's `update` and by the cache's `updateOne`: the required properties
   * come from `changes`, an optional one from `original` only when `changes` lacks it.
   */
  function MergeStory(original: Story, changes: Story): (r: Story)
    ensures r.(id := changes.id, version := changes.version,
               createAt := changes.createAt, updatedAt := changes.updatedAt) == changes
    ensures r.id == if changes.id.Some? then changes.id else original.id
    ensures r.version == if changes.version.Some? then changes.version else original.version
    ensures r.createAt == if changes.createAt.Some? then changes.createAt else original.createAt
    ensures r.updatedAt == if changes.updatedAt.Some? then changes.updatedAt else original.updatedAt
  {
    changes.(id := Overlay(original.id, changes.id),
             version := Overlay(original.version, changes.version),
             createAt := Overlay(original.createAt, changes.createAt),
             updatedAt := Overlay(original.updatedAt, changes.updatedAt))
  }

  /** The shallow merge of two tags, as for stories. */
  function MergeTag(original: Tag, changes: Tag): (r: Tag)
    ensures r.(id := changes.id, version := changes.version,
               createAt := changes.createAt, updatedAt := changes.updatedAt) == changes
    ensures r.id == if changes.id.Some? then changes.id else original.id
    ensures r.version == if changes.version.Some? then changes.version else original.version
    ensures r.createAt == if changes.createAt.Some? then changes.createAt else original.createAt
    ensures r.updatedAt == if changes.updatedAt.Some? then changes.updatedAt else original.updatedAt
  {
    changes.(id := Overlay(original.id, changes.id),
             version := Overlay(original.version, changes.version),
             createAt := Overlay(original.createAt, changes.createAt),
             updatedAt := Overlay(original.updatedAt, changes.updatedAt))
  }

  /** The shallow merge of two settings rows. */
  function MergeSettings(original: Settings, changes: Settings): (r: Settings)
    ensures r.(id := changes.id, isPopulated := changes.isPopulated) == changes
    ensures r.id == if changes.id.Some? then changes.id else original.id
    ensures r.isPopulated == if changes.isPopulated.Some? then changes.isPopulated else original.isPopulated
  {
    changes.(id := Overlay(original.id, changes.id),
             isPopulated := Overlay(original.isPopulated, changes.isPopulated))
  }

  /** A story that carries every optional property overwrites whatever it is merged onto. */
  lemma MergeCompleteStory(original: Story, changes: Story)
    requires changes.id.Some? && changes.version.Some?
    requires changes.createAt.Some? && changes.updatedAt.Some?
    ensures MergeStory(original, changes) == changes
  {
  }

  /** Merging is idempotent: applying the same changes twice is applying them once. */
  lemma MergeStoryIdempotent(original: Story, changes: Story)
    ensures MergeStory(MergeStory(original, changes), changes) == MergeStory(original, changes)
  {
  }
}
