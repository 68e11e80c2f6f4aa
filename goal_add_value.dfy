/** The form that moves money into or out of a goal: an amount typed as digits, a sign toggle
    and an optional description. A zero amount is refused, a withdrawal may not exceed what the
    goal holds, and an empty description is replaced by a default that names the direction. */
module GoalAddValue {
  import opened Seqs
  import opened Text
  import opened Calendar
  import opened Model
  import opened FinanceData
  import Goals

  /** The form's fields: the amount as displayed, the sign toggle and the description. */
  datatype AddValueForm = AddValueForm(amount: string, isNegative: bool, description: string)

  /** A fresh form shows '0.00', a deposit, and no description. */
  const InitialForm: AddValueForm := AddValueForm("0.00", false, "")

  /** `handleAmountChange`: the display is the typed digits read as cents, to two decimals. */
  function AmountChange(f: AddValueForm, raw: string): (f': AddValueForm)
    ensures CentsFromInput(f'.amount) == CentsFromInput(raw)
    ensures f'.isNegative == f.isNegative && f'.description == f.description
  {
    f.(amount := AmountInput(raw))
  }

  /** `toggleSign`. */
  function ToggleSign(f: AddValueForm): (f': AddValueForm)
    ensures f'.isNegative == !f.isNegative
    ensures f'.amount == f.amount && f'.description == f.description
  {
    f.(isNegative := !f.isNegative)
  }

  /** The amount field always holds some amount of cents written to two decimals, so reading it
      back as digits gives the number `parseFloat` reads, in cents. */
  ghost predicate Displayed(f: AddValueForm)
  {
    exists c: nat :: f.amount == FormatCents(c)
  }

  lemma InitialFormDisplayed()
    ensures Displayed(InitialForm)
    ensures CentsFromInput(InitialForm.amount) == 0
  {
    assert DigitChar(0) == '0';
    assert NatToString(0) == "0";
    assert FormatCents(0) == "0.00";
    CentsRoundTrip(0);
  }

  lemma AmountChangeDisplayed(f: AddValueForm, raw: string)
    ensures Displayed(AmountChange(f, raw))
  {
    assert AmountChange(f, raw).amount == FormatCents(CentsFromInput(raw));
  }

  const InvalidValueMessage: string := "Informe um valor válido."
  const WithdrawalDefault: string := "Retirada da meta"
  const DepositDefault: string := "Aporte na meta"

  /** Why a submission is refused: a zero amount, or a withdrawal beyond the goal's balance
      (whose message quotes that balance). */
  datatype Refusal = InvalidValue | InsufficientBalance(balance: int)

  datatype Outcome =
    | Refused(reason: Refusal)
    | Submitted(goalId: nat, value: int, description: string)

  /** `handleSubmit`: the amount read back, signed by the toggle; checks in the source's
      order; then the trimmed description or the default for the direction. */
  function Submit(goal: Goal, f: AddValueForm): Outcome
  {
    var v: int := CentsFromInput(f.amount);
    var finalVal := if f.isNegative then -v else v;
    if v == 0 then Refused(InvalidValue)
    else if f.isNegative && v > goal.currentAmount then Refused(InsufficientBalance(goal.currentAmount))
    else
      var d := Trim(f.description);
      Submitted(goal.id, finalVal, if d != [] then d else if f.isNegative then WithdrawalDefault else DepositDefault)
  }

  /** A zero amount is refused and nothing else is; a withdrawal beyond the goal's balance is
      refused; otherwise the goal receives the amount, negated for a withdrawal, with the trimmed
      description or, when that is blank, the default naming the direction. */
  lemma SubmitSpec(goal: Goal, f: AddValueForm)
    ensures var r := Submit(goal, f); var v: int := CentsFromInput(f.amount);
      && (r == Refused(InvalidValue) <==> v == 0)
      && (r.Refused? && r.reason.InsufficientBalance? <==> v != 0 && f.isNegative && v > goal.currentAmount)
      && (r.Submitted? <==> v != 0 && (!f.isNegative || v <= goal.currentAmount))
      && (r.Submitted? ==>
            && r.goalId == goal.id
            && r.value == (if f.isNegative then -v else v) && r.value != 0
            && (IsBlank(f.description) ==> r.description == (if f.isNegative then WithdrawalDefault else DepositDefault))
            && (!IsBlank(f.description) ==> r.description == Trim(f.description)))
  {
    TrimEmptyIffBlank(f.description);
  }

  /** The goal table after an accepted movement: a withdrawal never leaves the goal below zero,
      and a deposit never leaves a goal that was not negative below zero. */
  lemma SubmitKeepsBalance(goals: seq<Goal>, goal: Goal, f: AddValueForm)
    requires DistinctGoalIds(goals) && goal in goals
    requires Submit(goal, f).Submitted?
    ensures var r := CreditGoal(goals, goal.id, Submit(goal, f).value);
      forall i :: 0 <= i < |goals| && goals[i].id == goal.id ==>
        && r[i].currentAmount == goal.currentAmount + Submit(goal, f).value
        && (f.isNegative || goal.currentAmount >= 0 ==> r[i].currentAmount >= 0)
  {
    CreditGoalSpec(goals, goal.id, Submit(goal, f).value);
    var j :| 0 <= j < |goals| && goals[j] == goal;
    forall i | 0 <= i < |goals| && goals[i].id == goal.id ensures goals[i] == goal {
      assert i == j;
    }
  }

  /** No character of `s` starts `sub`, so `sub` does not occur in `s`. */
  lemma NotContainedWithoutFirst(s: string, sub: string)
    requires sub != [] && sub[0] !in s
    ensures !Contains(s, sub)
  {
    forall i | 0 <= i <= |s| - |sub| ensures !OccursAt(s, sub, i) {
      assert s[i..i + |sub|][0] == s[i];
    }
  }

  /** A movement submitted with a blank description appears in the history as a withdrawal
      when it was one and as a deposit otherwise: the default descriptions never read as a
      change of the target. */
  lemma DefaultDescriptionKind(goal: Goal, f: AddValueForm, id: nat, now: Date)
    requires Submit(goal, f).Submitted? && IsBlank(f.description)
    ensures var r := Submit(goal, f);
      Goals.KindOf(GoalTransaction(id, r.goalId, r.value, now, r.description))
        == if f.isNegative then Goals.Withdrawal else Goals.Deposit
  {
    SubmitSpec(goal, f);
    WithdrawalDefaultNotUpdate();
    DepositDefaultNotUpdate();
  }

  /** Neither default description mentions the target. */
  lemma WithdrawalDefaultNotUpdate()
    ensures !Contains(WithdrawalDefault, Goals.TargetUpdateMarker)
  {
    NotContainedWithoutFirst(WithdrawalDefault, Goals.TargetUpdateMarker);
  }

  lemma DepositDefaultNotUpdate()
    ensures !Contains(DepositDefault, Goals.TargetUpdateMarker)
  {
    NotContainedWithoutFirst(DepositDefault, Goals.TargetUpdateMarker);
  }
}
