/**
 * The story-form state hook: six inputs, each a value with an optional
 * error, a reducer whose one action overwrites the inputs it carries, the
 * effect that fills the inputs from a loaded story, and the step that turns
 * the inputs back into a story.
 */
module StoryFormHook {

  import opened Entities

  /** An input: its value and its error message (`None` for null). */
  datatype Input<T> = Input(value: T, error: Option<string>)

  datatype State = State(
    title: Input<string>,
    detail: Input<string>,
    color: Input<string>,
    tagIds: Input<seq<int>>,
    isArchived: Input<bool>,
    happenedAt: Input<int>)

  /** The argument of `update`: each input is optional. */
  datatype UpdateArgument = UpdateArgument(
    title: Option<Input<string>>,
    detail: Option<Input<string>>,
    color: Option<Input<string>>,
    tagIds: Option<Input<seq<int>>>,
    happenedAt: Option<Input<int>>,
    isArchived: Option<Input<bool>>)

  /** The reducer's actions: `update`, or any other type. */
  datatype Action = Update(payload: UpdateArgument) | Other

  function InitialState(): (s: State)
    ensures s.title.value == "" && s.detail.value == "" && s.color.value == ""
    ensures s.tagIds.value == [] && !s.isArchived.value && s.happenedAt.value == 0
    ensures s.title.error.None? && s.detail.error.None? && s.color.error.None?
    ensures s.tagIds.error.None? && s.isArchived.error.None? && s.happenedAt.error.None?
  {
    State(Input("", None), Input("", None), Input("", None), Input([], None), Input(false, None), Input(0, None))
  }

  function Pick<T>(current: T, given: Option<T>): T
  {
    if given.Some? then given.value else current
  }

  /** `{ ...state, ...payload }` for `update`; a copy of the state for any other action. */
  function Reduce(state: State, action: Action): (r: State)
    ensures action.Other? ==> r == state
    ensures action.Update? ==> var p := action.payload;
      && r.title == (if p.title.Some? then p.title.value else state.title)
      && r.detail == (if p.detail.Some? then p.detail.value else state.detail)
      && r.color == (if p.color.Some? then p.color.value else state.color)
      && r.tagIds == (if p.tagIds.Some? then p.tagIds.value else state.tagIds)
      && r.isArchived == (if p.isArchived.Some? then p.isArchived.value else state.isArchived)
      && r.happenedAt == (if p.happenedAt.Some? then p.happenedAt.value else state.happenedAt)
  {
    match action
    case Other => state
    case Update(p) =>
      State(
        Pick(state.title, p.title),
        Pick(state.detail, p.detail),
        Pick(state.color, p.color),
        Pick(state.tagIds, p.tagIds),
        Pick(state.isArchived, p.isArchived),
        Pick(state.happenedAt, p.happenedAt))
  }

  const NoChanges: UpdateArgument := UpdateArgument(None, None, None, None, None, None)

  /** The argument the story-load effect passes to `update`: every input, from the story, without error. */
  function ArgumentOf(story: Story): (a: UpdateArgument)
    ensures a.title == Some(Input(story.title, None)) && a.detail == Some(Input(story.detail, None))
    ensures a.color == Some(Input(story.color, None)) && a.tagIds == Some(Input(story.tagIds, None))
    ensures a.isArchived == Some(Input(story.isArchived, None)) && a.happenedAt == Some(Input(story.happenedAt, None))
  {
    UpdateArgument(
      Some(Input(story.title, None)),
      Some(Input(story.detail, None)),
      Some(Input(story.color, None)),
      Some(Input(story.tagIds, None)),
      Some(Input(story.happenedAt, None)),
      Some(Input(story.isArchived, None)))
  }

  /** The story-load effect: nothing before a story is set, else every input from it. */
  function LoadStory(state: State, story: Option<Story>): (r: State)
    ensures story.None? ==> r == state
    ensures story.Some? ==> r == State(
      Input(story.value.title, None), Input(story.value.detail, None), Input(story.value.color, None),
      Input(story.value.tagIds, None), Input(story.value.isArchived, None), Input(story.value.happenedAt, None))
  {
    if story.None? then state else Reduce(state, Update(ArgumentOf(story.value)))
  }

  /**
   * `generateStory`: the loaded story's properties (its id, version and
   * timestamps), overwritten by the six input values.
   */
  function GenerateStory(state: State, loaded: Option<Story>): (s: Story)
    ensures s.title == state.title.value && s.detail == state.detail.value && s.color == state.color.value
    ensures s.tagIds == state.tagIds.value && s.isArchived == state.isArchived.value
    ensures s.happenedAt == state.happenedAt.value
    ensures loaded.Some? ==> s.id == loaded.value.id && s.version == loaded.value.version
    ensures loaded.Some? ==> s.createAt == loaded.value.createAt && s.updatedAt == loaded.value.updatedAt
    ensures loaded.None? ==> s.id.None? && s.version.None? && s.createAt.None? && s.updatedAt.None?
  {
    var base := if loaded.Some? then loaded.value else Story(None, "", 0, "", [], "", false, None, None, None);
    base.(title := state.title.value, detail := state.detail.value, tagIds := state.tagIds.value,
          color := state.color.value, isArchived := state.isArchived.value, happenedAt := state.happenedAt.value)
  }

  /** The argument that holds `later`'s inputs, and `earlier`'s where `later` has none. */
  function Then(earlier: UpdateArgument, later: UpdateArgument): UpdateArgument
  {
    UpdateArgument(
      if later.title.Some? then later.title else earlier.title,
      if later.detail.Some? then later.detail else earlier.detail,
      if later.color.Some? then later.color else earlier.color,
      if later.tagIds.Some? then later.tagIds else earlier.tagIds,
      if later.happenedAt.Some? then later.happenedAt else earlier.happenedAt,
      if later.isArchived.Some? then later.isArchived else earlier.isArchived)
  }

  /**
   * Two `update`s in a row are one `update` whose argument takes the later
   * input wherever the later argument gives one; an empty argument changes
   * nothing.
   */
  lemma {:induction false} UpdatesCompose(state: State, a: UpdateArgument, b: UpdateArgument)
    ensures Reduce(Reduce(state, Update(a)), Update(b)) == Reduce(state, Update(Then(a, b)))
    ensures Reduce(state, Update(NoChanges)) == state
  {
  }

  /** Applying the same `update` twice is applying it once. */
  lemma UpdateIdempotent(state: State, a: UpdateArgument)
    ensures Reduce(Reduce(state, Update(a)), Update(a)) == Reduce(state, Update(a))
  {
  }

  /** Loading a story into any state and generating gives that story back. */
  lemma {:induction false} LoadThenGenerate(state: State, story: Story)
    ensures GenerateStory(LoadStory(state, Some(story)), Some(story)) == story
  {
    var loaded := LoadStory(state, Some(story));
    assert loaded == State(Input(story.title, None), Input(story.detail, None), Input(story.color, None),
      Input(story.tagIds, None), Input(story.isArchived, None), Input(story.happenedAt, None));
  }

  /** Generating and loading the result back keeps every input value and clears the errors. */
  lemma {:induction false} GenerateThenLoad(state: State, loaded: Option<Story>)
    ensures LoadStory(state, Some(GenerateStory(state, loaded))) ==
      State(Input(state.title.value, None), Input(state.detail.value, None), Input(state.color.value, None),
        Input(state.tagIds.value, None), Input(state.isArchived.value, None), Input(state.happenedAt.value, None))
  {
    var s := GenerateStory(state, loaded);
    assert ArgumentOf(s).title == Some(Input(state.title.value, None));
  }
}
