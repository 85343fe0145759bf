/**
 * The two-step registration form: the step index, the advance guard over
 * the per-field `isDirty`/`invalid` flags, the back button, the Enter key,
 * submission at the second step, the year choices and the panel offsets.
 *
 * The flags are what the form library reports for each field; the model
 * takes them as inputs (see `Form.Edit`) instead of recomputing them.
 */
module RegisterForm {
  import opened Wrappers
  import opened RegisterSchema
  import Decimal

  /** `formStep`: 0 shows the identity fields, 1 shows the year. */
  type StepIndex = s: int | 0 <= s <= 1

  /** The state the form library reports for one field. */
  datatype FieldState = FieldState(isDirty: bool, invalid: bool)

  /** The state of `f`; a field with no entry is reported clean and valid. */
  function StateOf(states: map<Field, FieldState>, f: Field): FieldState
  {
    if f in states then states[f] else FieldState(false, false)
  }

  /** The four checks of the advance handler: every identity field dirty and not invalid. */
  predicate ReadyToAdvance(states: map<Field, FieldState>)
  {
    forall f :: f in IdentityFields ==> StateOf(states, f).isDirty && !StateOf(states, f).invalid
  }

  /** The step after the advance handler has run. */
  function AdvanceStep(step: StepIndex, states: map<Field, FieldState>): StepIndex
  {
    if ReadyToAdvance(states) then 1 else step
  }

  /** The form's default values: four empty strings, no year. */
  const DefaultDraft: Draft := Draft("", "", "", "", None)

  /** The toast variant; the form only uses the default one. */
  datatype Variant = Default

  datatype Toast = Toast(title: string, description: string, variant: Variant)

  /** The notification shown when a submission passes validation. */
  const SuccessToast: Toast := Toast("회원가입 성공", "회원가입에 성공했습니다.", Default)

  /** What a press of the submit control did. */
  datatype SubmitOutcome =
    | NotOffered                               // no submit control at this step
    | Rejected(errors: map<Field, Message>)    // validation failed; `onSubmit` did not run
    | Submitted                                // validation passed; `onSubmit` ran

  /** `d` with the value of field `f` replaced by `v` (a chosen year becomes present). */
  function WithValue(d: Draft, f: Field, v: string): (r: Draft)
    ensures forall g :: g != f ==> SameValue(r, d, g)
    ensures match f
      case Email => r.email == v
      case Name => r.name == v
      case Password => r.password == v
      case PasswordCheck => r.passwordCheck == v
      case Year => r.year == Some(v)
  {
    match f
    case Email => d.(email := v)
    case Name => d.(name := v)
    case Password => d.(password := v)
    case PasswordCheck => d.(passwordCheck := v)
    case Year => d.(year := Some(v))
  }

  class Form {
    var step: StepIndex
    var values: Draft
    var fieldStates: map<Field, FieldState>
    /** Notifications raised so far, oldest first. */
    var toasts: seq<Toast>

    /** A fresh form: first step, default values, every field clean. */
    constructor ()
      ensures step == 0 && values == DefaultDraft && fieldStates == map[] && toasts == []
    {
      step := 0;
      values := DefaultDraft;
      fieldStates := map[];
      toasts := [];
    }

    /** The user edits field `f`; `st` is the state the form library then reports for it. */
    method Edit(f: Field, v: string, st: FieldState)
      modifies this
      ensures values == WithValue(old(values), f, v)
      ensures fieldStates == old(fieldStates)[f := st]
      ensures step == old(step) && toasts == old(toasts)
    {
      values := WithValue(values, f, v);
      fieldStates := fieldStates[f := st];
    }

    /** The advance handler: go to step 1 only if every identity field is dirty and valid. */
    method Advance()
      modifies this
      ensures step == AdvanceStep(old(step), old(fieldStates))
      ensures values == old(values) && fieldStates == old(fieldStates) && toasts == old(toasts)
    {
      var emailState := StateOf(fieldStates, Email);
      var nameState := StateOf(fieldStates, Name);
      var passwordState := StateOf(fieldStates, Password);
      var passwordCheckState := StateOf(fieldStates, PasswordCheck);

      if !emailState.isDirty || emailState.invalid { return; }
      if !nameState.isDirty || nameState.invalid { return; }
      if !passwordState.isDirty || passwordState.invalid { return; }
      if !passwordCheckState.isDirty || passwordCheckState.invalid { return; }

      step := 1;
    }

    /** The back button: return to step 0 without any check. */
    method Retreat()
      modifies this
      ensures step == 0
      ensures values == old(values) && fieldStates == old(fieldStates) && toasts == old(toasts)
    {
      step := 0;
    }

    /** A key released inside the form: Enter runs the advance handler, at either step. */
    method KeyUp(key: string)
      modifies this
      ensures step == if key == "Enter" then AdvanceStep(old(step), old(fieldStates)) else old(step)
      ensures values == old(values) && fieldStates == old(fieldStates) && toasts == old(toasts)
    {
      if key == "Enter" {
        Advance();
      }
    }

    /**
     * The submit control, present only at step 1: validate every field against
     * the whole schema, and on success raise the success notification.
     */
    method Submit(isEmail: string -> bool) returns (outcome: SubmitOutcome)
      modifies this
      ensures outcome != NotOffered <==> ControlsAt(step).submit
      ensures outcome == Submitted <==> step == 1 && Validate(values, isEmail).Ok?
      ensures outcome.Rejected? ==> Validate(values, isEmail) == Err(outcome.errors)
      ensures toasts == old(toasts) + (if outcome == Submitted then [SuccessToast] else [])
      ensures step == old(step) && values == old(values) && fieldStates == old(fieldStates)
    {
      if step != 1 {
        return NotOffered;
      }
      match Validate(values, isEmail)
      case Ok(_) =>
        toasts := toasts + [SuccessToast];
        outcome := Submitted;
      case Err(errors) =>
        outcome := Rejected(errors);
    }
  }

  // ---------------------------------------------------------------------
  // Properties of the step controller
  // ---------------------------------------------------------------------

  /** Advancing needs exactly: each of the four identity fields dirty and not invalid. */
  lemma AdvanceGuard(step: StepIndex, states: map<Field, FieldState>)
    ensures AdvanceStep(step, states) == 1 <==>
      step == 1 ||
      (StateOf(states, Email) == FieldState(true, false) &&
       StateOf(states, Name) == FieldState(true, false) &&
       StateOf(states, Password) == FieldState(true, false) &&
       StateOf(states, PasswordCheck) == FieldState(true, false))
  {
  }

  /** A field never edited blocks advancing, whatever its value: the guard reads flags only. */
  lemma UntouchedFieldBlocks(step: StepIndex, states: map<Field, FieldState>, f: Field)
    requires f in IdentityFields && !StateOf(states, f).isDirty
    ensures AdvanceStep(step, states) == step
  {
  }

  /** The advance handler never leaves step 1, and running it twice is running it once. */
  lemma AdvanceIdempotent(step: StepIndex, states: map<Field, FieldState>)
    ensures AdvanceStep(1, states) == 1
    ensures AdvanceStep(AdvanceStep(step, states), states) == AdvanceStep(step, states)
  {
  }

  /**
   * A fresh form cannot advance, and each of its four default values fails
   * its own rule; `year` starts missing.
   */
  lemma InitialForm(isEmail: string -> bool)
    ensures AdvanceStep(0, map[]) == 0
    ensures forall f :: f in IdentityFields ==> OwnIssues(DefaultDraft, f, isEmail) != []
    ensures OwnIssues(DefaultDraft, Year, isEmail) == [YearRequired]
  {
  }

  // ---------------------------------------------------------------------
  // What is shown at each step
  // ---------------------------------------------------------------------

  /** Which controls are on screen, and whether the year panel is hidden. */
  datatype Controls = Controls(back: bool, next: bool, submit: bool, yearPanelHidden: bool)

  function ControlsAt(step: StepIndex): Controls
  {
    Controls(step != 0, step != 1, step == 1, step == 0)
  }

  /**
   * At every step exactly one of "next" and "submit" is offered, "back" is
   * offered exactly when "submit" is, and the year panel is hidden exactly
   * when "next" is offered.
   */
  lemma ControlsPartition(step: StepIndex)
    ensures ControlsAt(step).next != ControlsAt(step).submit
    ensures ControlsAt(step).back == ControlsAt(step).submit
    ensures ControlsAt(step).yearPanelHidden == ControlsAt(step).next
  {
  }

  /** Horizontal offset, in percent, of the identity panel. */
  function IdentityPanelOffset(step: StepIndex): int
  {
    -(step * 100)
  }

  /** Horizontal offset, in percent, of the year panel. */
  function YearPanelOffset(step: StepIndex): int
  {
    100 - step * 100
  }

  /** The year panel sits one panel width to the right of the identity panel. */
  lemma PanelOffsets(step: StepIndex)
    ensures YearPanelOffset(step) - IdentityPanelOffset(step) == 100
    ensures step == 0 ==> IdentityPanelOffset(step) == 0 && YearPanelOffset(step) == 100
    ensures step == 1 ==> IdentityPanelOffset(step) == -100 && YearPanelOffset(step) == 0
  {
  }

  // ---------------------------------------------------------------------
  // The year choices
  // ---------------------------------------------------------------------

  /** One entry of the year list: its key, the value it selects, and the text shown for it. */
  datatype YearOption = YearOption(key: nat, value: string, text: string)

  /** A 100-element list filled with 2023, mapped with its index to `year - 10 + idx`. */
  function YearOptions(): seq<YearOption>
  {
    var filled := seq(100, _ => 2023);
    seq(|filled|, idx requires 0 <= idx < |filled| =>
      var year := filled[idx] - 10 + idx;
      YearOption(idx, Decimal.FromNat(year), Decimal.FromNat(year) + "년"))
  }

  /**
   * The list holds 100 choices; choice `i` selects the numeral of 2013 + i,
   * so the values read back as strictly increasing years from 2013 to 2112,
   * they are pairwise distinct, and each passes the `year` rule.
   */
  lemma YearOptionsSpec()
    ensures |YearOptions()| == 100
    ensures forall i :: 0 <= i < 100 ==>
      YearOptions()[i].key == i &&
      Decimal.AllDigits(YearOptions()[i].value) &&
      Decimal.ToNat(YearOptions()[i].value) == 2013 + i &&
      YearIssues(Some(YearOptions()[i].value)) == []
    ensures forall i, j :: 0 <= i < j < 100 ==> YearOptions()[i].value != YearOptions()[j].value
  {
    var opts := YearOptions();
    forall i | 0 <= i < 100
      ensures Decimal.AllDigits(opts[i].value) && Decimal.ToNat(opts[i].value) == 2013 + i
    {
      Decimal.ToNatFromNat(2013 + i);
    }
    forall i, j | 0 <= i < j < 100 ensures opts[i].value != opts[j].value {
      Decimal.FromNatInjective(2013 + i, 2013 + j);
    }
  }

  /** A string is a year choice exactly when it is the numeral of a year from 2013 to 2112. */
  lemma YearOptionMembership(v: string)
    ensures (exists i :: 0 <= i < |YearOptions()| && YearOptions()[i].value == v) <==>
      (exists y: nat :: 2013 <= y <= 2112 && Decimal.FromNat(y) == v)
  {
    var opts := YearOptions();
    if exists y: nat :: 2013 <= y <= 2112 && Decimal.FromNat(y) == v {
      var y: nat :| 2013 <= y <= 2112 && Decimal.FromNat(y) == v;
      assert opts[y - 2013].value == v;
    }
    if exists i :: 0 <= i < |opts| && opts[i].value == v {
      var i :| 0 <= i < |opts| && opts[i].value == v;
      var y: nat := 2013 + i;
      assert Decimal.FromNat(y) == v;
    }
  }
}
