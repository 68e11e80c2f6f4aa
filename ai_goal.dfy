/** The four-step wizard that plans a goal with the AI: (1) name, deadline and description;
    (2) answers to the questions the model asks back; (3) the model's estimate; (4) the goal to
    save, seeded with the name and the estimated total. The calls to the model are parameters:
    `ask` gives the model's reply to the description, `estimate` its reply to the prompt. */
module AIGoal {
  import opened Wrappers
  import opened Text
  import opened Calendar
  import Gemini
  import GoalForm

  /** `toFixed(2)` in cents: the nearest whole number of cents, halves rounded up. */
  function RoundCents(x: real): (r: int)
    ensures r as real - 0.5 <= x * 100.0 < r as real + 0.5
    ensures x >= 0.0 ==> r >= 0
  {
    (x * 100.0 + 0.5).Floor
  }

  const AdditionalInfo: string := "\n\nInformações adicionais:\n"
  const NotInformed: string := "Não informado"

  /** `answers[q] || 'Não informado'`: an empty or missing answer reads as not informed. */
  function AnswerFor(answers: map<string, string>, q: string): (a: string)
    ensures a != ""
    ensures q in answers && answers[q] != "" ==> a == answers[q]
    ensures !(q in answers && answers[q] != "") ==> a == NotInformed
  {
    if q in answers && answers[q] != "" then answers[q] else NotInformed
  }

  /** The prompt line for one question. */
  function QuestionLine(answers: map<string, string>, q: string): string
  {
    "- " + q + ": " + AnswerFor(answers, q) + "\n"
  }

  /** The lines for the questions, in order. */
  function Lines(questions: seq<string>, answers: map<string, string>): string
  {
    if questions == [] then ""
    else Lines(questions[..|questions| - 1], answers) + QuestionLine(answers, questions[|questions| - 1])
  }

  /** The prompt sent for the estimate: the description, the heading, one line per question. */
  function Prompt(description: string, questions: seq<string>, answers: map<string, string>): string
  {
    description + AdditionalInfo + Lines(questions, answers)
  }

  /** The loop of `handleClarificationSubmit` that appends one line per question. */
  method BuildPrompt(description: string, questions: seq<string>, answers: map<string, string>)
    returns (p: string)
    ensures p == Prompt(description, questions, answers)
  {
    var head := description + AdditionalInfo;
    var lines := "";
    var i := 0;
    while i < |questions|
      invariant 0 <= i <= |questions|
      invariant lines == Lines(questions[..i], answers)
    {
      LinesStep(questions, answers, i);
      lines := lines + QuestionLine(answers, questions[i]);
      i := i + 1;
    }
    assert questions[..|questions|] == questions;
    p := head + lines;
  }

  /** One more question adds its line at the end. */
  lemma LinesStep(questions: seq<string>, answers: map<string, string>, i: nat)
    requires i < |questions|
    ensures Lines(questions[..i + 1], answers) == Lines(questions[..i], answers) + QuestionLine(answers, questions[i])
  {
    var q := questions[..i + 1];
    assert q[..|q| - 1] == questions[..i];
  }

  /** The lines of a prefix of the questions start the lines of all of them. */
  lemma {:induction false} LinesPrefix(questions: seq<string>, answers: map<string, string>, j: nat)
    requires j <= |questions|
    ensures StartsWith(Lines(questions, answers), Lines(questions[..j], answers))
    decreases |questions|
  {
    if j == |questions| {
      assert questions[..j] == questions;
    } else {
      var init := questions[..|questions| - 1];
      LinesPrefix(init, answers, j);
      assert init[..j] == questions[..j];
      StartsWithAppend(Lines(init, answers), QuestionLine(answers, questions[|questions| - 1]),
                       Lines(questions[..j], answers));
    }
  }

  lemma StartsWithAppend(s: string, t: string, prefix: string)
    requires StartsWith(s, prefix)
    ensures StartsWith(s + t, prefix)
  {
    assert (s + t)[..|prefix|] == s[..|prefix|];
  }

  /** What follows a prefix of the tail sits right after the head and that prefix. */
  lemma OccursAfter(head: string, tail: string, before: string, sub: string)
    requires StartsWith(tail, before + sub)
    ensures OccursAt(head + tail, sub, |head| + |before|)
  {
    var k := |head| + |before|;
    assert (head + tail)[k..k + |sub|] == tail[|before|..|before| + |sub|];
    assert tail[|before|..|before| + |sub|] == (before + sub)[|before|..];
  }

  /** The prompt starts with the description and the heading, and holds, for every question in
      order, the line with that question and its answer (or 'Não informado'). */
  lemma PromptSpec(description: string, questions: seq<string>, answers: map<string, string>, i: int)
    requires 0 <= i < |questions|
    ensures var p := Prompt(description, questions, answers);
      && StartsWith(p, description + AdditionalInfo)
      && OccursAt(p, QuestionLine(answers, questions[i]),
                  |description + AdditionalInfo| + |Lines(questions[..i], answers)|)
  {
    var head := description + AdditionalInfo;
    var all := Lines(questions, answers);
    LinesPrefix(questions, answers, i + 1);
    LinesStep(questions, answers, i);
    OccursAfter(head, all, Lines(questions[..i], answers), QuestionLine(answers, questions[i]));
    assert (head + all)[..|head|] == head;
  }

  /** What the finished wizard hands to `addGoal`. */
  datatype AIGoalData = AIGoalData(
    name: string, targetAmount: int, currentAmount: int, icon: string, customIcon: Option<string>,
    deadline: Date, isAiGenerated: bool, aiBreakdown: string, aiSources: seq<string>)

  /** `handleSaveGoal`: refused with a notice, abandoned because the deadline field holds no
      date (building the ISO string throws and the error is only logged), or saved. */
  datatype SaveOutcome = Rejected | Failed | Saved(data: AIGoalData)

  const RejectedMessage: string := "Preencha os campos corretamente."

  /** `handleSaveGoal` on the fields of step 4: the amount read back, checked before the
      deadline is built. */
  function SaveGoal(finalName: string, finalAmount: string, date: Option<Date>, icon: string,
                    customIcon: Option<string>, response: Gemini.Estimate): SaveOutcome
  {
    var parsed := ParseFixed2(finalAmount);
    if finalName == "" || parsed <= 0 then Rejected
    else if date.None? then Failed
    else Saved(AIGoalData(finalName, parsed, 0, icon, customIcon, GoalForm.Noon(date.value),
                          true, response.breakdown, response.sources))
  }

  /** A save is refused exactly when the name is empty or the amount is not positive; it fails
      exactly when those are fine and the deadline is missing; otherwise the new goal is the AI
      goal with the fields of step 4, nothing saved yet, and the deadline at noon of the day. */
  lemma SaveGoalSpec(finalName: string, finalAmount: string, date: Option<Date>, icon: string,
                     customIcon: Option<string>, response: Gemini.Estimate)
    ensures var r := SaveGoal(finalName, finalAmount, date, icon, customIcon, response);
      && (r == Rejected <==> finalName == "" || ParseFixed2(finalAmount) <= 0)
      && (r == Failed <==> finalName != "" && ParseFixed2(finalAmount) > 0 && date.None?)
      && (r.Saved? ==>
            && r.data.name == finalName && r.data.targetAmount == ParseFixed2(finalAmount)
            && r.data.targetAmount > 0 && r.data.currentAmount == 0
            && r.data.isAiGenerated && r.data.aiBreakdown == response.breakdown
            && r.data.aiSources == response.sources
            && r.data.icon == icon && r.data.customIcon == customIcon
            && DayNumber(r.data.deadline) == DayNumber(date.value) && r.data.deadline.sec == 12 * 3600)
  {
  }

  /** Saving step 4 as it is seeded: the target is the estimate rounded to cents, and the
      goal is refused exactly when the name is empty or the estimate rounds to nothing. */
  lemma SeededSave(name: string, date: Option<Date>, icon: string, customIcon: Option<string>,
                   response: Gemini.Estimate)
    ensures var r := SaveGoal(name, ToFixed2(RoundCents(response.totalAmount)), date, icon, customIcon, response);
      && (r == Rejected <==> name == "" || RoundCents(response.totalAmount) <= 0)
      && (r.Saved? ==> r.data.targetAmount == RoundCents(response.totalAmount))
  {
    ToFixed2RoundTrip(RoundCents(response.totalAmount));
  }

  /** When the estimate call fails its total is zero, so step 4 as seeded cannot be saved
      until an amount is typed. */
  lemma FailedEstimateRejected(name: string, date: Option<Date>, icon: string, customIcon: Option<string>)
    ensures var e := Gemini.EstimateFrom(None);
      SaveGoal(name, ToFixed2(RoundCents(e.totalAmount)), date, icon, customIcon, e) == Rejected
  {
    var e := Gemini.EstimateFrom(None);
    assert RoundCents(e.totalAmount) == 0;
    SeededSave(name, date, icon, customIcon, e);
  }

  /** The wizard's fields at one moment. */
  datatype WizardState = WizardState(
    step: int, name: string, date: Option<Date>, description: string,
    questions: seq<string>, answers: map<string, string>, aiResponse: Gemini.Estimate,
    finalName: string, finalAmount: string, icon: string, customIcon: Option<string>)

  /** The wizard's state. `date` is the day in the date input, if it holds one. */
  class AIGoalWizard {
    var step: int
    var name: string
    var date: Option<Date>
    var description: string
    var questions: seq<string>
    var answers: map<string, string>
    var aiResponse: Gemini.Estimate
    var finalName: string
    var finalAmount: string
    var icon: string
    var customIcon: Option<string>

    function State(): WizardState
      reads this
    {
      WizardState(step, name, date, description, questions, answers, aiResponse,
                  finalName, finalAmount, icon, customIcon)
    }

    /** The wizard is on one of its four steps, and on the last the amount field holds an
        amount written to two decimals. */
    ghost predicate Valid()
      reads this
    {
      && 1 <= step <= 4
      && (step == 4 ==> ToFixed2(ParseFixed2(finalAmount)) == finalAmount)
    }

    /** The wizard opens on step 1 with empty fields, no estimate, '0' as the amount and the
        money bag as the icon. */
    constructor ()
      ensures Valid()
      ensures State() == WizardState(1, "", None, "", [], map[], Gemini.Estimate("", 0.0, []),
                                     "", "0", GoalForm.DefaultIcon, None)
    {
      step := 1;
      name := "";
      date := None;
      description := "";
      questions := [];
      answers := map[];
      aiResponse := Gemini.Estimate("", 0.0, []);
      finalName := "";
      finalAmount := "0";
      icon := GoalForm.DefaultIcon;
      customIcon := None;
    }

    method EditName(v: string)
      modifies this
      requires Valid() && step == 1
      ensures Valid() && State() == old(State()).(name := v)
    {
      name := v;
    }

    method EditDescription(v: string)
      modifies this
      requires Valid() && step == 1
      ensures Valid() && State() == old(State()).(description := v)
    {
      description := v;
    }

    /** The date input of steps 1 and 4. */
    method EditDate(d: Option<Date>)
      modifies this
      requires Valid() && (step == 1 || step == 4)
      ensures Valid() && State() == old(State()).(date := d)
    {
      date := d;
    }

    /** `handleInitialSubmit`: the form does not submit while a required field is empty;
        otherwise the questions are those drawn from the model's reply and step 2 opens. */
    method SubmitInitial(ask: string -> Option<string>)
      modifies this
      requires Valid() && step == 1
      ensures Valid()
      ensures name == "" || old(date).None? || description == "" ==> State() == old(State())
      ensures name != "" && old(date).Some? && description != "" ==>
                State() == old(State()).(step := 2, questions := Gemini.ClarifyingQuestions(ask(description)))
    {
      if name != "" && date.Some? && description != "" {
        questions := Gemini.ClarifyingQuestions(ask(description));
        step := 2;
      }
    }

    /** Typing the answer to one question of step 2. */
    method EditAnswer(q: string, a: string)
      modifies this
      requires Valid() && step == 2
      ensures Valid() && State() == old(State()).(answers := old(answers)[q := a])
    {
      answers := answers[q := a];
    }

    /** `handleClarificationSubmit`: the prompt is built from the description and the
        answers, the estimate is read from the model's reply to it, and step 3 opens. */
    method SubmitClarification(estimate: string -> Option<(string, seq<string>)>) returns (prompt: string)
      modifies this
      requires Valid() && step == 2
      ensures Valid()
      ensures prompt == Prompt(description, questions, answers)
      ensures State() == old(State()).(step := 3, aiResponse := Gemini.EstimateFrom(estimate(prompt)))
    {
      prompt := BuildPrompt(description, questions, answers);
      aiResponse := Gemini.EstimateFrom(estimate(prompt));
      step := 3;
    }

    /** The button of step 3 that accepts the estimate: step 4 opens on the name of step 1 and
        the estimated total rounded to cents. */
    method Proceed()
      modifies this
      requires Valid() && step == 3
      ensures Valid()
      ensures State() == old(State()).(step := 4, finalName := old(name),
                                       finalAmount := ToFixed2(RoundCents(old(aiResponse).totalAmount)))
      ensures ParseFixed2(finalAmount) == RoundCents(aiResponse.totalAmount) && finalAmount != ""
    {
      step := 4;
      finalName := name;
      finalAmount := ToFixed2(RoundCents(aiResponse.totalAmount));
      ToFixed2RoundTrip(RoundCents(aiResponse.totalAmount));
    }

    /** The back buttons of steps 2, 3 and 4: the previous step, every field kept. */
    method Back()
      modifies this
      requires Valid() && 2 <= step
      ensures Valid() && State() == old(State()).(step := old(step) - 1)
    {
      step := step - 1;
    }

    method EditFinalName(v: string)
      modifies this
      requires Valid() && step == 4
      ensures Valid() && State() == old(State()).(finalName := v)
    {
      finalName := v;
    }

    /** `handleAmountChange`: the amount shows the typed digits read as cents. */
    method AmountChange(raw: string)
      modifies this
      requires Valid() && step == 4
      ensures Valid() && State() == old(State()).(finalAmount := AmountInput(raw))
      ensures ParseFixed2(finalAmount) == CentsFromInput(raw)
    {
      AmountInputParses(raw);
      finalAmount := AmountInput(raw);
    }

    method ChooseIcon(emoji: string)
      modifies this
      requires Valid() && step == 4
      ensures Valid() && State() == old(State()).(icon := emoji)
    {
      icon := emoji;
    }

    /** `handleFileUpload`: the uploaded image, as a data URL, becomes the custom icon. */
    method UploadIcon(dataUrl: string)
      modifies this
      requires Valid() && step == 4
      ensures Valid() && State() == old(State()).(customIcon := Some(dataUrl))
    {
      customIcon := Some(dataUrl);
    }

    /** 'Usar emojis': the custom icon is dropped. */
    method UseEmojis()
      modifies this
      requires Valid() && step == 4
      ensures Valid() && State() == old(State()).(customIcon := None)
    {
      customIcon := None;
    }

    /** `handleSaveGoal` on the wizard's fields; the wizard itself is left as it is. */
    method Save() returns (r: SaveOutcome)
      requires Valid() && step == 4
      ensures r == SaveGoal(finalName, finalAmount, date, icon, customIcon, aiResponse)
      ensures r == Rejected <==> finalName == "" || ParseFixed2(finalAmount) <= 0
      ensures r.Saved? ==> r.data.targetAmount == ParseFixed2(finalAmount) && r.data.currentAmount == 0
                           && ToFixed2(r.data.targetAmount) == finalAmount
    {
      SaveGoalSpec(finalName, finalAmount, date, icon, customIcon, aiResponse);
      r := SaveGoal(finalName, finalAmount, date, icon, customIcon, aiResponse);
    }
  }
}
