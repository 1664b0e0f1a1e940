/**
 * The story form: its reducer and initial state, the validity of its
 * fields, the colour string built from a picked colour, the tag checkboxes,
 * and what submitting and deleting do to the form.
 */
module StoryForm {

  import opened Entities
  import Validity

  /** The validity of one form field: `valid` and an error message (`None` for null). */
  datatype FieldValidity = FieldValidity(valid: bool, error: Option<string>)

  datatype FormStatus = Ready | Submitting | Deleting

  datatype FormState = FormState(
    titleValidity: FieldValidity,
    timeValidity: FieldValidity,
    detailValidity: FieldValidity,
    colorValidity: FieldValidity,
    story: Story,
    status: FormStatus)

  /** A payload of `update`: the form-state properties it sets. */
  datatype FormPatch = FormPatch(
    titleValidity: Option<FieldValidity>,
    timeValidity: Option<FieldValidity>,
    detailValidity: Option<FieldValidity>,
    colorValidity: Option<FieldValidity>,
    story: Option<Story>,
    status: Option<FormStatus>)

  /** A payload of `updateStory`: the story properties it sets. */
  datatype StoryPatch = StoryPatch(
    id: Option<int>,
    title: Option<string>,
    happenedAt: Option<int>,
    detail: Option<string>,
    tagIds: Option<seq<int>>,
    color: Option<string>,
    isArchived: Option<bool>,
    version: Option<int>,
    createAt: Option<int>,
    updatedAt: Option<int>)

  datatype Action = Update(form: FormPatch) | UpdateStory(changes: StoryPatch) | Validate(message: string) | Unknown

  const EmptyFormPatch: FormPatch := FormPatch(None, None, None, None, None, None)
  const EmptyStoryPatch: StoryPatch := StoryPatch(None, None, None, None, None, None, None, None, None, None)

  function StatusPatch(status: FormStatus): FormPatch
  {
    EmptyFormPatch.(status := Some(status))
  }

  /** `{ ...story, ...changes }`. */
  function PatchStory(s: Story, p: StoryPatch): (r: Story)
    ensures p == EmptyStoryPatch ==> r == s
    ensures r.id == if p.id.Some? then p.id else s.id
    ensures r.title == if p.title.Some? then p.title.value else s.title
    ensures r.happenedAt == if p.happenedAt.Some? then p.happenedAt.value else s.happenedAt
    ensures r.detail == if p.detail.Some? then p.detail.value else s.detail
    ensures r.tagIds == if p.tagIds.Some? then p.tagIds.value else s.tagIds
    ensures r.color == if p.color.Some? then p.color.value else s.color
    ensures r.isArchived == if p.isArchived.Some? then p.isArchived.value else s.isArchived
    ensures r.version == if p.version.Some? then p.version else s.version
    ensures r.createAt == if p.createAt.Some? then p.createAt else s.createAt
    ensures r.updatedAt == if p.updatedAt.Some? then p.updatedAt else s.updatedAt
  {
    Story(
      Overlay(s.id, p.id),
      Overlay(Some(s.title), p.title).value,
      Overlay(Some(s.happenedAt), p.happenedAt).value,
      Overlay(Some(s.detail), p.detail).value,
      Overlay(Some(s.tagIds), p.tagIds).value,
      Overlay(Some(s.color), p.color).value,
      Overlay(Some(s.isArchived), p.isArchived).value,
      Overlay(s.version, p.version),
      Overlay(s.createAt, p.createAt),
      Overlay(s.updatedAt, p.updatedAt))
  }

  /** `{ ...state, ...payload }`. */
  function PatchForm(s: FormState, p: FormPatch): (r: FormState)
    ensures p == EmptyFormPatch ==> r == s
    ensures r.titleValidity == if p.titleValidity.Some? then p.titleValidity.value else s.titleValidity
    ensures r.timeValidity == if p.timeValidity.Some? then p.timeValidity.value else s.timeValidity
    ensures r.detailValidity == if p.detailValidity.Some? then p.detailValidity.value else s.detailValidity
    ensures r.colorValidity == if p.colorValidity.Some? then p.colorValidity.value else s.colorValidity
    ensures r.story == if p.story.Some? then p.story.value else s.story
    ensures r.status == if p.status.Some? then p.status.value else s.status
  {
    FormState(
      Overlay(Some(s.titleValidity), p.titleValidity).value,
      Overlay(Some(s.timeValidity), p.timeValidity).value,
      Overlay(Some(s.detailValidity), p.detailValidity).value,
      Overlay(Some(s.colorValidity), p.colorValidity).value,
      Overlay(Some(s.story), p.story).value,
      Overlay(Some(s.status), p.status).value)
  }

  /** The reducer: `update` merges into the state, `updateStory` into the story only. */
  function Reduce(state: FormState, action: Action): (r: FormState)
    ensures action.Validate? || action.Unknown? ==> r == state
    ensures action.UpdateStory? ==> r == state.(story := PatchStory(state.story, action.changes))
    ensures action.Update? ==> r == PatchForm(state, action.form)
  {
    match action
    case Update(p) => PatchForm(state, p)
    case UpdateStory(p) => state.(story := PatchStory(state.story, p))
    case Validate(_) => state
    case Unknown => state
  }

  const Fine: FieldValidity := FieldValidity(true, None)

  /** The initial state; `now` is the time the form module is loaded. */
  function InitialFormState(now: int): (s: FormState)
    ensures s.titleValidity == Fine && s.timeValidity == Fine && s.detailValidity == Fine && s.colorValidity == Fine
    ensures s.status == Ready
    ensures s.story == Story(None, "", now, "", [], "", false, None, None, None)
  {
    FormState(Fine, Fine, Fine, Fine, Story(None, "", now, "", [], "", false, None, None, None), Ready)
  }

  /** `validate`: valid, or invalid with "value is missing" when the value is missing, else invalid without message. */
  function Validate(v: Validity.ValidityState): (r: FieldValidity)
    ensures r.valid <==> v.valid
    ensures r.error.Some? <==> !v.valid && v.valueMissing
    ensures r.error.Some? ==> r.error.value == "value is missing"
  {
    if v.valid then FieldValidity(true, None)
    else if v.valueMissing then FieldValidity(false, Some("value is missing"))
    else FieldValidity(false, None)
  }

  /** A field's validity and the message mapping agree on whether there is something to say. */
  lemma ValidateAgreesWithMessages(v: Validity.ValidityState)
    ensures Validate(v).valid <==> Validity.MapValidityToMessages(v).None?
  {
  }

  /** The invalid handler of the title field sets the title's validity. */
  function TitleInvalid(v: Validity.ValidityState): FormPatch
  {
    EmptyFormPatch.(titleValidity := Some(Validate(v)))
  }

  /** The invalid handler of the detail field also sets the title's validity. */
  function DetailInvalid(v: Validity.ValidityState): FormPatch
  {
    EmptyFormPatch.(titleValidity := Some(Validate(v)))
  }

  /** An invalid detail never marks the detail field: its validity stays what it was. */
  lemma DetailInvalidMarksTitle(state: FormState, v: Validity.ValidityState)
    ensures Reduce(state, Update(DetailInvalid(v))).detailValidity == state.detailValidity
    ensures Reduce(state, Update(DetailInvalid(v))).titleValidity == Validate(v)
  {
  }

  // Colour string

  const HexDigits: string := "0123456789abcdef"

  /** `n.toString(16)`: lowercase hexadecimal without leading zeros ("0" for zero). */
  function ToHex(n: nat): (h: string)
    ensures |h| >= 1
    ensures forall i :: 0 <= i < |h| ==> h[i] in HexDigits
    decreases n
  {
    if n < 16 then [HexDigits[n]] else ToHex(n / 16) + [HexDigits[n % 16]]
  }

  /** The value of a hexadecimal digit. */
  function DigitValue(c: char): nat
  {
    if '0' <= c <= '9' then (c - '0') as nat
    else if 'a' <= c <= 'f' then (c - 'a') as nat + 10
    else 0
  }

  /** The value of a string of hexadecimal digits. */
  function ParseHex(h: string): nat
  {
    if h == [] then 0 else 16 * ParseHex(h[..|h| - 1]) + DigitValue(h[|h| - 1])
  }

  lemma DigitRoundTrip(d: nat)
    requires d < 16
    ensures DigitValue(HexDigits[d]) == d
  {
  }

  /** Reading back the hexadecimal of a number gives the number. */
  lemma {:induction false} HexRoundTrip(n: nat)
    ensures ParseHex(ToHex(n)) == n
    decreases n
  {
    DigitRoundTrip(n % 16);
    if n >= 16 {
      HexRoundTrip(n / 16);
      var h := ToHex(n);
      assert h[..|h| - 1] == ToHex(n / 16);
    }
  }

  /** Numbers below 16 take one digit, numbers from 16 to 255 take two. */
  lemma HexLength(n: nat)
    requires n <= 255
    ensures |ToHex(n)| == if n < 16 then 1 else 2
  {
  }

  /** The reducer of the colour string: append the next component's hexadecimal. */
  function AppendHex(result: string, components: seq<nat>): (r: string)
    ensures |r| >= |result| + |components|
    ensures r[..|result|] == result
    decreases |components|
  {
    if components == [] then result
    else
      var next := result + ToHex(components[0]);
      var r := AppendHex(next, components[1..]);
      assert r[..|result|] == r[..|next|][..|result|];
      r
  }

  /** `"#"` followed by the hexadecimal of red, green and blue. */
  function ColorString(red: nat, green: nat, blue: nat): (c: string)
    ensures |c| >= 4 && c[0] == '#'
  {
    var c := AppendHex("#", [red, green, blue]);
    assert c[..1] == "#";
    c
  }

  /** The colour string is the three hexadecimal strings after `#`, in order. */
  lemma ColorStringConcat(red: nat, green: nat, blue: nat)
    ensures ColorString(red, green, blue) == "#" + ToHex(red) + ToHex(green) + ToHex(blue)
  {
    assert [red, green, blue][1..] == [green, blue];
    assert [green, blue][1..] == [blue];
    assert [blue][1..] == [];
    assert AppendHex("#", [red, green, blue]) == AppendHex("#" + ToHex(red), [green, blue]);
    assert AppendHex("#" + ToHex(red), [green, blue]) == AppendHex("#" + ToHex(red) + ToHex(green), [blue]);
  }

  /** Numbers from 16 to 255 take their two digits from the sixteens and the units. */
  lemma TwoDigitHex(n: nat)
    requires 16 <= n <= 255
    ensures ToHex(n) == [HexDigits[n / 16], HexDigits[n % 16]]
  {
    assert ToHex(n / 16) == [HexDigits[n / 16]];
  }

  /** For components from 0 to 255 the colour string is 4 to 7 characters long. */
  lemma {:induction false} ColorStringLength(red: nat, green: nat, blue: nat)
    requires red <= 255 && green <= 255 && blue <= 255
    ensures 4 <= |ColorString(red, green, blue)| <= 7
  {
    ColorStringConcat(red, green, blue);
    HexLength(red);
    HexLength(green);
    HexLength(blue);
  }

  /** The hexadecimal of the components used below. */
  lemma {:induction false} SampleHex()
    ensures ToHex(0) == "0" && ToHex(1) == "1" && ToHex(3) == "3"
    ensures ToHex(18) == "12" && ToHex(35) == "23"
  {
    assert HexDigits[0] == '0' && HexDigits[1] == '1' && HexDigits[2] == '2' && HexDigits[3] == '3';
    TwoDigitHex(18);
    TwoDigitHex(35);
  }

  /** Without padding two colours share a string: (1, 35, 0) and (18, 3, 0) both give "#1230". */
  lemma {:induction false} ColorStringNotInjective()
    ensures ColorString(1, 35, 0) == "#1230" && ColorString(18, 3, 0) == "#1230"
  {
    SampleHex();
    ColorStringConcat(1, 35, 0);
    ColorStringConcat(18, 3, 0);
  }

  // Tag checkboxes

  /** `filter(id => id !== x)`: the ids other than `x`, in order. */
  function Without(ids: seq<int>, x: int): (r: seq<int>)
    ensures x !in r
    ensures |r| <= |ids|
    ensures forall y :: y in r ==> y in ids
  {
    if ids == [] then []
    else if ids[0] == x then Without(ids[1..], x)
    else [ids[0]] + Without(ids[1..], x)
  }

  /** The tag ids after a checkbox change: checking appends, unchecking removes every occurrence. */
  function ToggleTag(ids: seq<int>, x: int, checked: bool): (r: seq<int>)
    ensures checked ==> r == ids + [x]
    ensures !checked ==> x !in r
  {
    if checked then ids + [x] else Without(ids, x)
  }

  /** Unchecking keeps every other id as many times as it occurred. */
  lemma {:induction false} WithoutKeepsOthers(ids: seq<int>, x: int)
    ensures multiset(Without(ids, x)) == multiset(ids)[x := 0]
  {
    if ids != [] {
      WithoutKeepsOthers(ids[1..], x);
      assert ids == [ids[0]] + ids[1..];
    }
  }

  /** Unchecking keeps the order: it distributes over concatenation. */
  lemma {:induction false} WithoutConcat(a: seq<int>, b: seq<int>, x: int)
    ensures Without(a + b, x) == Without(a, x) + Without(b, x)
  {
    if a != [] {
      WithoutConcat(a[1..], b, x);
      assert (a + b)[1..] == a[1..] + b;
    } else {
      assert a + b == b;
    }
  }

  /** Unchecking an id that is not there changes nothing. */
  lemma {:induction false} WithoutAbsent(ids: seq<int>, x: int)
    requires x !in ids
    ensures Without(ids, x) == ids
  {
    if ids != [] {
      WithoutAbsent(ids[1..], x);
      assert ids == [ids[0]] + ids[1..];
    }
  }

  /** Checking an id already present adds a second copy; unchecking then removes both. */
  lemma {:induction false} CheckTwiceThenUncheck(ids: seq<int>, x: int)
    requires x in ids
    ensures multiset(ToggleTag(ids, x, true))[x] == multiset(ids)[x] + 1
    ensures ToggleTag(ToggleTag(ids, x, true), x, false) == Without(ids, x)
  {
    WithoutConcat(ids, [x], x);
    assert Without([x], x) == [];
    assert Without(ids, x) + [] == Without(ids, x);
  }

  // Submitting and deleting

  datatype Navigation = Stay | ToRoot | ToStory(id: Option<int>)

  /** The thunk the form dispatches, if any. */
  datatype Command = NoCommand | InsertStoryThunk(story: Story) | UpdateStoryThunk(story: Story) | DeleteStoryThunk(story: Story)

  datatype Effect = Effect(state: FormState, command: Command, navigation: Navigation)

  /**
   * What `checkValidity()` does to the state when the form is invalid: it
   * fires `invalid` at each invalid field in document order, the title and
   * then the detail, and each handler sets the title's validity.
   */
  function AfterInvalidEvents(state: FormState, title: Validity.ValidityState, detail: Validity.ValidityState): FormState
  {
    var afterTitle := if title.valid then state else Reduce(state, Update(TitleInvalid(title)));
    if detail.valid then afterTitle else Reduce(afterTitle, Update(DetailInvalid(detail)))
  }

  /**
   * `handleSubmit`.  The form is valid when the title, the detail and the
   * other fields (`othersValid`) are.  An invalid form dispatches nothing,
   * but its invalid handlers record the validity of the title or detail.
   * Otherwise `submitting`, then update (when the route names a story) or
   * insert, then navigate.  Awaiting the dispatched thunk does not throw
   * when it rejects; only an exception from the dispatch itself
   * (`dispatchThrows`) sends the form back to `ready`, without navigating.
   */
  function Submit(state: FormState, title: Validity.ValidityState, detail: Validity.ValidityState, othersValid: bool,
                  hasStoryId: bool, dispatchThrows: bool): (e: Effect)
    ensures var formValid := title.valid && detail.valid && othersValid;
      && (!formValid ==> e.command == NoCommand && e.navigation == Stay)
      && (!formValid ==> e.state == state.(titleValidity := e.state.titleValidity))
      && (!formValid ==> e.state.titleValidity == (if !detail.valid then Validate(detail)
                                                     else if !title.valid then Validate(title)
                                                     else state.titleValidity))
      && (formValid && hasStoryId ==> e.command == UpdateStoryThunk(state.story))
      && (formValid && !hasStoryId ==> e.command == InsertStoryThunk(state.story))
      && (formValid && dispatchThrows ==> e.state.status == Ready && e.navigation == Stay)
      && (formValid && !dispatchThrows ==> e.state.status == Submitting)
      && (formValid && !dispatchThrows ==> e.navigation == if hasStoryId then ToStory(state.story.id) else ToRoot)
      && (formValid ==> e.state == state.(status := e.state.status))
  {
    if !(title.valid && detail.valid && othersValid) then Effect(AfterInvalidEvents(state, title, detail), NoCommand, Stay)
    else
      var submitting := Reduce(state, Update(StatusPatch(Submitting)));
      var command := if hasStoryId then UpdateStoryThunk(state.story) else InsertStoryThunk(state.story);
      if dispatchThrows then Effect(Reduce(submitting, Update(StatusPatch(Ready))), command, Stay)
      else Effect(submitting, command, if hasStoryId then ToStory(state.story.id) else ToRoot)
  }

  /**
   * Submitting without a title marks the title "value is missing"; but when
   * the detail is invalid too, its handler runs last and overwrites the
   * title's validity with the detail's.
   */
  lemma {:induction false} MissingTitleOnSubmit(state: FormState, title: Validity.ValidityState, detail: Validity.ValidityState,
                                                hasStoryId: bool, dispatchThrows: bool)
    requires !title.valid && title.valueMissing
    ensures detail.valid ==>
      Submit(state, title, detail, true, hasStoryId, dispatchThrows).state.titleValidity == FieldValidity(false, Some("value is missing"))
    ensures !detail.valid && !detail.valueMissing ==>
      Submit(state, title, detail, true, hasStoryId, dispatchThrows).state.titleValidity == FieldValidity(false, None)
    ensures Submit(state, title, detail, true, hasStoryId, dispatchThrows).state.detailValidity == state.detailValidity
  {
    var e := Submit(state, title, detail, true, hasStoryId, dispatchThrows);
    assert e.state.titleValidity == if !detail.valid then Validate(detail) else Validate(title);
  }

  /** `handleDelete`: `deleting`, dispatch the delete, go to the root; back to `ready` if the dispatch throws. */
  function Delete(state: FormState, dispatchThrows: bool): (e: Effect)
    ensures e.command == DeleteStoryThunk(state.story)
    ensures e.state.status == if dispatchThrows then Ready else Deleting
    ensures e.navigation == if dispatchThrows then Stay else ToRoot
    ensures e.state == state.(status := e.state.status)
  {
    var deleting := Reduce(state, Update(StatusPatch(Deleting)));
    if dispatchThrows then Effect(Reduce(deleting, Update(StatusPatch(Ready))), DeleteStoryThunk(state.story), Stay)
    else Effect(deleting, DeleteStoryThunk(state.story), ToRoot)
  }

  /** The patch of a loaded story: every property, the optional ones only where the story has them. */
  function PatchOf(s: Story): StoryPatch
  {
    StoryPatch(s.id, Some(s.title), Some(s.happenedAt), Some(s.detail), Some(s.tagIds),
      Some(s.color), Some(s.isArchived), s.version, s.createAt, s.updatedAt)
  }

  /** The story-load effect: once loading is over, the loaded story (if any) is merged into the form's story. */
  function OnStoryLoaded(state: FormState, isLoading: bool, story: Option<Story>): (r: FormState)
    ensures isLoading || story.None? ==> r == state
  {
    if isLoading then state
    else Reduce(state, UpdateStory(if story.Some? then PatchOf(story.value) else EmptyStoryPatch))
  }

  /** A loaded story replaces the form's story, keeping only the optional properties it lacks. */
  lemma LoadedStoryReplaces(state: FormState, story: Story)
    ensures OnStoryLoaded(state, false, Some(story)).story == MergeStory(state.story, story)
    ensures OnStoryLoaded(state, false, Some(story)) == state.(story := MergeStory(state.story, story))
  {
  }
}
