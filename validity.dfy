/**
 * Mapping the constraint-validation state of an input element to the
 * message shown for it: nothing for a valid input, otherwise the message of
 * the first failed constraint.
 */
module Validity {

  import opened Entities

  /** The browser's validity state of an input: `valid` and the seven constraint flags read here. */
  datatype ValidityState = ValidityState(
    valid: bool,
    valueMissing: bool,
    tooLong: bool,
    tooShort: bool,
    rangeOverflow: bool,
    rangeUnderflow: bool,
    patternMismatch: bool,
    typeMismatch: bool)

  /** A message for the i18n layer: an id and a default text. */
  datatype MessageDescriptor = MessageDescriptor(id: string, defaultMessage: string)

  const UnknownMessage: string := "Unkown."

  /** The constraint flags, in the order they are checked. */
  function Flags(v: ValidityState): (fs: seq<bool>)
    ensures |fs| == 7
  {
    [v.valueMissing, v.tooLong, v.tooShort, v.rangeOverflow, v.rangeUnderflow, v.patternMismatch, v.typeMismatch]
  }

  /** The default text of each constraint, in the same order. */
  const FlagMessages: seq<string> := [
    "Value is missing.",
    "The length of the input is too long.",
    "The length of the input is too short.",
    "The value is greater than the maximum.",
    "The value is less than the minimum.",
    "The value is incorrect.",
    "The format is incorrect."]

  /** The index of the first `true` in `fs`, or `|fs|` when there is none. */
  function FirstSet(fs: seq<bool>): (i: nat)
    ensures i <= |fs|
    ensures i < |fs| ==> fs[i]
    ensures forall j :: 0 <= j < i ==> !fs[j]
  {
    if fs == [] then 0
    else if fs[0] then 0
    else
      var i := 1 + FirstSet(fs[1..]);
      assert forall j :: 1 <= j < |fs| ==> fs[j] == fs[1..][j - 1];
      i
  }

  /** The message of the constraint at `i`, or the fallback past the last one. */
  function MessageAt(i: nat): string
  {
    if i < |FlagMessages| then FlagMessages[i] else UnknownMessage
  }

  /** The mapping, a chain of tests in the order of `Flags`. */
  function MapValidityToMessages(v: ValidityState): (r: Option<MessageDescriptor>)
    ensures r.None? <==> v.valid
    ensures r.Some? ==> r.value.id == ""
    ensures !v.valid && v.valueMissing ==> r == Some(MessageDescriptor("", "Value is missing."))
    ensures !v.valid && v.typeMismatch ==> r.value.defaultMessage != UnknownMessage
    ensures r.Some? && r.value.defaultMessage == UnknownMessage <==>
      !v.valid && !v.valueMissing && !v.tooLong && !v.tooShort && !v.rangeOverflow &&
      !v.rangeUnderflow && !v.patternMismatch && !v.typeMismatch
  {
    if v.valid then None
    else if v.valueMissing then Some(MessageDescriptor("", "Value is missing."))
    else if v.tooLong then Some(MessageDescriptor("", "The length of the input is too long."))
    else if v.tooShort then Some(MessageDescriptor("", "The length of the input is too short."))
    else if v.rangeOverflow then Some(MessageDescriptor("", "The value is greater than the maximum."))
    else if v.rangeUnderflow then Some(MessageDescriptor("", "The value is less than the minimum."))
    else if v.patternMismatch then Some(MessageDescriptor("", "The value is incorrect."))
    else if v.typeMismatch then Some(MessageDescriptor("", "The format is incorrect."))
    else Some(MessageDescriptor("", UnknownMessage))
  }

  /**
   * The chain picks the message of the first failed constraint, whatever
   * the later flags say: it agrees with the table-driven definition.
   */
  lemma {:induction false} FirstFailedConstraintWins(v: ValidityState)
    ensures MapValidityToMessages(v) ==
      if v.valid then None else Some(MessageDescriptor("", MessageAt(FirstSet(Flags(v)))))
  {
    if !v.valid {
      var fs := Flags(v);
      assert fs[0] == v.valueMissing && fs[1] == v.tooLong && fs[2] == v.tooShort;
      assert fs[3] == v.rangeOverflow && fs[4] == v.rangeUnderflow;
      assert fs[5] == v.patternMismatch && fs[6] == v.typeMismatch;
      var i := FirstSet(fs);
      if v.valueMissing { assert i == 0; }
      else if v.tooLong { assert i == 1; }
      else if v.tooShort { assert i == 2; }
      else if v.rangeOverflow { assert i == 3; }
      else if v.rangeUnderflow { assert i == 4; }
      else if v.patternMismatch { assert i == 5; }
      else if v.typeMismatch { assert i == 6; }
      else { assert i == 7; }
    }
  }

  /**
   * Once a flag is set, the flags after it do not matter: two invalid states
   * that agree on the flags up to and including the first set one get the
   * same message.
   */
  lemma {:induction false} LaterFlagsIgnored(v: ValidityState, w: ValidityState)
    ensures var i := FirstSet(Flags(v));
      !v.valid && !w.valid && i < 7 && Flags(w)[..i + 1] == Flags(v)[..i + 1] ==>
        MapValidityToMessages(w) == MapValidityToMessages(v)
  {
    var fs, gs := Flags(v), Flags(w);
    var i := FirstSet(fs);
    if !v.valid && !w.valid && i < 7 && gs[..i + 1] == fs[..i + 1] {
      assert forall j :: 0 <= j <= i ==> gs[j] == gs[..i + 1][j] == fs[..i + 1][j] == fs[j];
      assert FirstSet(gs) == i;
      FirstFailedConstraintWins(v);
      FirstFailedConstraintWins(w);
    }
  }
}
