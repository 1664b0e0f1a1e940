/**
 * The tag form: its reducer and initial state, the effect that loads the
 * selected tag, the reaction to the tag slice's status, and the submit
 * choice between inserting and updating.
 */
module TagForm {

  import opened Entities

  datatype FormState = FormState(
    isNameInvalid: bool,
    isDescriptionInvalid: bool,
    isColorInvalid: bool,
    tag: Tag,
    showErrorSnackbar: bool)

  /** A payload of `updateState`: the form-state properties it sets. */
  datatype FormPatch = FormPatch(
    isNameInvalid: Option<bool>,
    isDescriptionInvalid: Option<bool>,
    isColorInvalid: Option<bool>,
    tag: Option<Tag>,
    showErrorSnackbar: Option<bool>)

  /** A payload of `updateTag`: the tag properties the form edits. */
  datatype TagPatch = TagPatch(name: Option<string>, description: Option<string>, color: Option<string>)

  datatype Action = UpdateState(form: FormPatch) | UpdateTag(changes: TagPatch) | Error(message: string) | Unknown

  /** `{ ...state, ...payload }`. */
  function PatchForm(s: FormState, p: FormPatch): (r: FormState)
    ensures r.isNameInvalid == if p.isNameInvalid.Some? then p.isNameInvalid.value else s.isNameInvalid
    ensures r.isDescriptionInvalid == if p.isDescriptionInvalid.Some? then p.isDescriptionInvalid.value else s.isDescriptionInvalid
    ensures r.isColorInvalid == if p.isColorInvalid.Some? then p.isColorInvalid.value else s.isColorInvalid
    ensures r.tag == if p.tag.Some? then p.tag.value else s.tag
    ensures r.showErrorSnackbar == if p.showErrorSnackbar.Some? then p.showErrorSnackbar.value else s.showErrorSnackbar
  {
    FormState(
      Overlay(Some(s.isNameInvalid), p.isNameInvalid).value,
      Overlay(Some(s.isDescriptionInvalid), p.isDescriptionInvalid).value,
      Overlay(Some(s.isColorInvalid), p.isColorInvalid).value,
      Overlay(Some(s.tag), p.tag).value,
      Overlay(Some(s.showErrorSnackbar), p.showErrorSnackbar).value)
  }

  /** `{ ...tag, ...changes }`. */
  function PatchTag(t: Tag, p: TagPatch): (r: Tag)
    ensures r.(name := t.name, description := t.description, color := t.color) == t
    ensures r.name == if p.name.Some? then p.name.value else t.name
    ensures r.description == if p.description.Some? then p.description.value else t.description
    ensures r.color == if p.color.Some? then p.color.value else t.color
  {
    t.(name := Overlay(Some(t.name), p.name).value,
       description := Overlay(Some(t.description), p.description).value,
       color := Overlay(Some(t.color), p.color).value)
  }

  /** The reducer: `updateState` merges into the state, `updateTag` into the tag only. */
  function Reduce(state: FormState, action: Action): (r: FormState)
    ensures action.Error? || action.Unknown? ==> r == state
    ensures action.UpdateTag? ==> r == state.(tag := PatchTag(state.tag, action.changes))
    ensures action.UpdateState? ==> r == PatchForm(state, action.form)
  {
    match action
    case UpdateState(p) => PatchForm(state, p)
    case UpdateTag(p) => state.(tag := PatchTag(state.tag, p))
    case Error(_) => state
    case Unknown => state
  }

  const EmptyTag: Tag := Tag(None, "", "", "", None, None, None)

  function InitialFormState(): (s: FormState)
    ensures !s.isNameInvalid && !s.isDescriptionInvalid && !s.isColorInvalid && !s.showErrorSnackbar
    ensures s.tag.name == "" && s.tag.description == "" && s.tag.color == "" && s.tag.id.None?
  {
    FormState(false, false, false, EmptyTag, false)
  }

  /** The patch that sets every property of the form state. */
  function FullPatch(s: FormState): FormPatch
  {
    FormPatch(Some(s.isNameInvalid), Some(s.isDescriptionInvalid), Some(s.isColorInvalid), Some(s.tag), Some(s.showErrorSnackbar))
  }

  /** The selected-tag effect: the initial state, holding a copy of the selected tag if there is one. */
  function OnSelectedTag(state: FormState, selected: Option<Tag>): (r: FormState)
    ensures selected.None? ==> r == InitialFormState()
    ensures selected.Some? ==> r == InitialFormState().(tag := selected.value)
  {
    if selected.None? then Reduce(state, UpdateState(FullPatch(InitialFormState())))
    else Reduce(state, UpdateState(FullPatch(InitialFormState().(tag := selected.value))))
  }

  /** Loading a tag forgets everything the form held before. */
  lemma SelectedTagForgetsState(a: FormState, b: FormState, selected: Option<Tag>)
    ensures OnSelectedTag(a, selected) == OnSelectedTag(b, selected)
    ensures !OnSelectedTag(a, selected).showErrorSnackbar
  {
  }

  /** The tag slice's status, as the string the form compares. */
  function StatusName(s: Status): string
  {
    match s
    case Idle => "idle"
    case Loading => "loading"
    case Succeeded => "succeeded"
    case Failed => "failed"
  }

  datatype Reaction = Navigate | ShowSnackbar | Nothing

  /** The status effect: navigate after "inserted", "updated" or "deleted", show the snackbar after "failed". */
  function StatusReaction(status: string): (r: Reaction)
    ensures r == Navigate <==> status in {"inserted", "updated", "deleted"}
    ensures r == ShowSnackbar <==> status == "failed"
  {
    if status == "inserted" || status == "updated" || status == "deleted" then Navigate
    else if status == "failed" then ShowSnackbar
    else Nothing
  }

  /** The state after the status effect. */
  function OnStatus(state: FormState, status: string): (r: FormState)
    ensures StatusReaction(status) == ShowSnackbar ==> r == state.(showErrorSnackbar := true)
    ensures StatusReaction(status) != ShowSnackbar ==> r == state
  {
    if StatusReaction(status) == ShowSnackbar
    then Reduce(state, UpdateState(FormPatch(None, None, None, None, Some(true))))
    else state
  }

  /**
   * The tag slice never holds a status the form navigates on: the form
   * never leaves by itself, and shows the snackbar exactly when the slice
   * failed.
   */
  lemma SliceStatusNeverNavigates(s: Status)
    ensures StatusReaction(StatusName(s)) != Navigate
    ensures StatusReaction(StatusName(s)) == ShowSnackbar <==> s == Failed
  {
  }

  /** What submitting dispatches. */
  datatype Command = NoCommand | InsertTagThunk(tag: Tag) | UpdateTagThunk(tag: Tag)

  /** What submitting leaves: the form state after any invalid handlers, and the dispatched command. */
  datatype SubmitEffect = SubmitEffect(state: FormState, command: Command)

  /**
   * `handleSubmit`.  The form is valid when the name, the description and
   * the other fields (`othersValid`) are.  An invalid form dispatches
   * nothing, but `checkValidity()` fires `invalid` at the invalid name and
   * description, whose handlers set `isNameInvalid` and
   * `isDescriptionInvalid`.  A valid form inserts when no tag is selected and
   * updates otherwise, leaving the state alone.
   */
  function Submit(state: FormState, nameValid: bool, descriptionValid: bool, othersValid: bool, selected: Option<Tag>): (e: SubmitEffect)
    ensures var formValid := nameValid && descriptionValid && othersValid;
      && (!formValid <==> e.command == NoCommand)
      && (formValid && selected.None? ==> e.command == InsertTagThunk(state.tag))
      && (formValid && selected.Some? ==> e.command == UpdateTagThunk(state.tag))
      && (formValid ==> e.state == state)
      && e.state.isNameInvalid == (!nameValid || state.isNameInvalid)
      && e.state.isDescriptionInvalid == (!descriptionValid || state.isDescriptionInvalid)
      && e.state == state.(isNameInvalid := e.state.isNameInvalid, isDescriptionInvalid := e.state.isDescriptionInvalid)
  {
    if !(nameValid && descriptionValid && othersValid) then
      var afterName :=
        if nameValid then state else Reduce(state, UpdateState(FormPatch(Some(true), None, None, None, None)));
      var afterDescription :=
        if descriptionValid then afterName else Reduce(afterName, UpdateState(FormPatch(None, Some(true), None, None, None)));
      SubmitEffect(afterDescription, NoCommand)
    else if selected.None? then SubmitEffect(state, InsertTagThunk(state.tag))
    else SubmitEffect(state, UpdateTagThunk(state.tag))
  }

  /**
   * Once an invalid submit has marked the name, editing the tag, the status
   * effect and further submits keep it marked; only loading a selected tag
   * clears it.
   */
  lemma {:induction false} NameInvalidSticks(state: FormState, p: TagPatch, status: string,
                                            nameValid: bool, descriptionValid: bool, othersValid: bool,
                                            selected: Option<Tag>)
    requires state.isNameInvalid
    ensures Reduce(state, UpdateTag(p)).isNameInvalid
    ensures OnStatus(state, status).isNameInvalid
    ensures Submit(state, nameValid, descriptionValid, othersValid, selected).state.isNameInvalid
    ensures !OnSelectedTag(state, selected).isNameInvalid
  {
  }

  /** Editing the selected tag and submitting updates it under the selected tag's id. */
  lemma EditedTagKeepsId(state: FormState, t: Tag, p: TagPatch)
    ensures Submit(Reduce(OnSelectedTag(state, Some(t)), UpdateTag(p)), true, true, true, Some(t)).command.tag.id == t.id
  {
  }
}
