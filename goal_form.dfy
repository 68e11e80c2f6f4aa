/** The form that creates or edits a goal: name, target amount, deadline day and icon. It
    opens on the goal being edited (or on empty fields), refuses a submission without a name,
    a positive target or a deadline, and submits the edited goal with only the form's fields
    replaced and the deadline moved to noon of the chosen day. */
module GoalForm {
  import opened Wrappers
  import opened Text
  import opened Calendar
  import opened Model

  /** The icon a goal gets when none was chosen (a money bag). */
  const DefaultIcon: string := "\U{1F4B0}"

  /** The form's fields: the target is the text of the amount input; the deadline is the day
      chosen in the date input, if any. */
  datatype GoalFormState = GoalFormState(
    name: string, target: string, deadline: Option<Date>, icon: string, customIcon: Option<string>)

  /** `icon || '💰'`. */
  function IconOrDefault(icon: string): string
  {
    if icon == "" then DefaultIcon else icon
  }

  /** The form as it opens: on the fields of the goal being edited, or empty. The deadline input
      takes the date part of the stored deadline. */
  function InitialState(initial: Option<Goal>): GoalFormState
  {
    match initial
    case None => GoalFormState("", "0.00", None, DefaultIcon, None)
    case Some(g) =>
      GoalFormState(g.name, ToFixed2(g.targetAmount), Some(StartOfDay(g.deadline)), IconOrDefault(g.icon), g.customIcon)
  }

  /** A new form has no name, a target of zero, no deadline and the default icon. */
  lemma InitialStateNew()
    ensures var f := InitialState(None);
      f.name == "" && ParseFixed2(f.target) == 0 && f.deadline.None? && f.icon == DefaultIcon
  {
    UnsignedZero();
  }

  /** A form on a goal shows its name, its target read back exactly, its deadline's day and its
      icon. */
  lemma InitialStateEdit(g: Goal)
    ensures var f := InitialState(Some(g));
      && f.name == g.name
      && ParseFixed2(f.target) == g.targetAmount
      && f.deadline.Some? && DayNumber(f.deadline.value) == DayNumber(g.deadline)
      && f.icon != "" && (g.icon != "" ==> f.icon == g.icon)
      && f.customIcon == g.customIcon
  {
    ToFixed2RoundTrip(g.targetAmount);
  }

  lemma UnsignedZero()
    ensures ParseFixed2("0.00") == 0
  {
    assert DigitChar(0) == '0';
    assert NatToString(0) == "0";
    assert FormatCents(0) == "0.00";
    UnsignedRoundTrip(0);
  }

  /** `handleAmountChange`: the target shows the typed digits read as cents. */
  function AmountChange(f: GoalFormState, raw: string): (f': GoalFormState)
    ensures ParseFixed2(f'.target) == CentsFromInput(raw)
    ensures f'.name == f.name && f'.deadline == f.deadline && f'.icon == f.icon && f'.customIcon == f.customIcon
  {
    AmountInputParses(raw);
    f.(target := AmountInput(raw))
  }

  /** `new Date(day + 'T12:00:00')`: noon of the chosen day. */
  function Noon(d: Date): Date
  {
    Civil(d.year, d.month, d.day, 12 * 3600)
  }

  const InvalidMessage: string := "Preencha todos os campos corretamente."

  /** What the form hands on: the goal being edited with the form's fields written over it, or
      the fields of a new goal. */
  datatype GoalData =
    | Edited(goal: Goal)
    | Draft(name: string, targetAmount: int, deadline: Date, icon: string, customIcon: Option<string>)

  datatype Submission = Invalid | Save(data: GoalData)

  /** `handleSubmit`. */
  function Submit(f: GoalFormState, initial: Option<Goal>): Submission
  {
    var parsed := ParseFixed2(f.target);
    if f.name == "" || parsed <= 0 || f.deadline.None? then Invalid
    else
      var deadline := Noon(f.deadline.value);
      match initial
      case Some(g) =>
        Save(Edited(g.(name := f.name, targetAmount := parsed, deadline := deadline, icon := f.icon, customIcon := f.customIcon)))
      case None => Save(Draft(f.name, parsed, deadline, f.icon, f.customIcon))
  }

  /** A submission is refused exactly when the name is empty, the target is not positive or no
      deadline was chosen; otherwise it edits the goal the form was opened on, if any. */
  lemma SubmitRefusal(f: GoalFormState, initial: Option<Goal>)
    ensures var r := Submit(f, initial);
      && (r == Invalid <==> f.name == "" || ParseFixed2(f.target) <= 0 || f.deadline.None?)
      && (r.Save? ==> (r.data.Edited? <==> initial.Some?))
  {
  }

  /** An edited goal keeps its id, balance, creation date and AI fields, and takes the form's
      name, target, icons and the chosen day at noon. */
  lemma SubmitEdit(f: GoalFormState, g: Goal)
    requires Submit(f, Some(g)).Save?
    ensures var e := Submit(f, Some(g)).data.goal;
      && e.id == g.id && e.currentAmount == g.currentAmount && e.creationDate == g.creationDate
      && e.isAiGenerated == g.isAiGenerated && e.aiBreakdown == g.aiBreakdown && e.aiSources == g.aiSources
      && e.name == f.name && e.targetAmount == ParseFixed2(f.target) && e.targetAmount > 0
      && e.icon == f.icon && e.customIcon == f.customIcon
      && DayNumber(e.deadline) == DayNumber(f.deadline.value) && e.deadline.sec == 12 * 3600
  {
  }

  /** Without a goal to edit, the form submits its own fields for a new goal, the target
      positive and the deadline at noon of the chosen day. */
  lemma SubmitDraft(f: GoalFormState)
    requires Submit(f, None).Save?
    ensures var d := Submit(f, None).data;
      && d.Draft? && d.name == f.name && d.name != "" && d.targetAmount == ParseFixed2(f.target) && d.targetAmount > 0
      && d.icon == f.icon && d.customIcon == f.customIcon
      && DayNumber(d.deadline) == DayNumber(f.deadline.value) && d.deadline.sec == 12 * 3600
  {
  }

  /** Opening the form on a goal with a name and a positive target and submitting it untouched
      gives the goal back, except that its deadline moves to noon of the same day and an empty
      icon becomes the default one. */
  lemma ReopenRoundTrip(g: Goal)
    requires g.name != "" && g.targetAmount > 0
    ensures Submit(InitialState(Some(g)), Some(g))
            == Save(Edited(g.(deadline := Noon(g.deadline), icon := IconOrDefault(g.icon))))
  {
    ToFixed2RoundTrip(g.targetAmount);
  }

  /** `handleDelete`: the id of the goal whose deletion is asked for; nothing without a goal. */
  function DeleteRequest(initial: Option<Goal>): (r: Option<nat>)
    ensures r.None? <==> initial.None?
    ensures r.Some? ==> r.value == initial.value.id
  {
    match initial
    case None => None
    case Some(g) => Some(g.id)
  }
}
