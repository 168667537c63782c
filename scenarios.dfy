/** Three walks through the wizard, driven only through the `Session`
    interface: answering unblocks Next and reveals a branched question, a
    hidden last question is reached before the form submits, and a group is
    shown and gated as one step. */
module Scenarios {
  import opened Wrappers
  import opened Registration
  import opened Wizard

  /** A required question with no rule. */
  function First(): Question {
    Question("q1", Text, "Q1", true, None, None, None, None, None)
  }

  /** An optional question shown only when q1 is exactly "x". */
  function Branched(): Question {
    Question("q2", Text, "Q2", false, None, None, None, None,
             Some(Branching([BranchingCondition("q1", Equals, Single("x"))], Show)))
  }

  function BranchedForm(): RegistrationForm {
    RegistrationForm("branched", "Branched", None, Published, None, [First(), Branched()], [], map[])
  }

  /** Next is blocked until q1 has an answer; answering "x" opens it and the
      next step shows q2. */
  method RevealBranchedQuestion() returns (before: StepView, answered: StepView, next: StepView)
    ensures before.questions == [First()] && !before.canProceed && before.backDisabled
    ensures answered.canProceed && !answered.isLastStep
    ensures next.questions == [Branched()] && next.isLastStep && !next.backDisabled
  {
    var session := new Session(BranchedForm());
    before := session.Render();
    session.HandleResponse("q1", Single("x"));
    answered := session.Render();
    assert ShouldShowQuestion(Branched(), session.responses) by {
      assert EvaluateCondition(Branched().branching.value.conditions[0], session.responses);
    }
    var submitted := session.HandleNext();
    next := session.Render();
  }

  /** With q1 = "y" the rule hides q2, but it is the last question: the first
      Next moves onto it, and the session's display, in which setters take
      effect at once, shows it anyway; the second Next submits, with the
      answers unchanged. */
  method HiddenLastQuestion() returns (firstNext: Option<Answers>, shown: StepView, secondNext: Option<Answers>)
    ensures firstNext.None?
    ensures shown.questions == [Branched()] && shown.isLastStep
    ensures !ShouldShowQuestion(Branched(), map["q1" := Single("y")])
    ensures secondNext == Some(map["q1" := Single("y")])
  {
    var session := new Session(BranchedForm());
    session.HandleResponse("q1", Single("y"));
    assert !ShouldShowQuestion(Branched(), session.responses) by {
      assert !EvaluateCondition(Branched().branching.value.conditions[0], session.responses);
    }
    firstNext := session.HandleNext();
    shown := session.Render();
    secondNext := session.HandleNext();
  }

  /** Two questions in group g1, the first required. */
  function Member(id: string, required: bool): Question {
    Question(id, Text, id, required, None, None, None, Some("g1"), None)
  }

  function GroupedForm(): RegistrationForm {
    RegistrationForm("grouped", "Grouped", None, Published, None,
                     [Member("q3", true), Member("q4", false)],
                     [QuestionGroup("g1", "Group 1", None, Grid, Some(2))], map[])
  }

  /** Both members are displayed together under their group, and Next opens
      once the required one is answered. */
  method GroupedStep() returns (before: StepView, after: StepView)
    ensures before.questions == [Member("q3", true), Member("q4", false)] && !before.canProceed
    ensures before.group == Some(QuestionGroup("g1", "Group 1", None, Grid, Some(2)))
    ensures after.questions == before.questions && after.canProceed
  {
    var session := new Session(GroupedForm());
    var questions := GroupedForm().questions;
    assert questions[1..] == [Member("q4", false)];
    assert questions[1..][1..] == [];
    assert QuestionsInGroup(questions, "g1") == questions;
    assert VisibleQuestions([Member("q4", false)], map[]) == [Member("q4", false)];
    assert VisibleQuestions(questions, map[]) == questions;
    before := session.Render();
    session.HandleResponse("q3", Single("Ada"));
    assert VisibleQuestions([Member("q4", false)], session.responses) == [Member("q4", false)];
    assert VisibleQuestions(questions, session.responses) == questions;
    after := session.Render();
  }
}
