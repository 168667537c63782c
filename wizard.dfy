/** The respondent wizard of src/components/registration/RegistrationForm.tsx:
    branching conditions, the show/hide rule, the forward/backward scans that
    skip hidden questions, what the current step displays, the required-answer
    gate, and the session (a step pointer plus the answers) that the Next,
    Back and answer handlers update. */
module Wizard {
  import opened Wrappers
  import opened Seqs
  import opened Strings
  import opened Registration
  import opened QuestionStep

  // ----- Condition evaluation -----

  /** An answer or a comparison value as one string: a list is joined with
      "," and no space. */
  function Flatten(v: AnswerValue): string {
    match v
    case Single(s) => s
    case Multiple(xs) => Join(xs, ",")
  }

  /** `evaluateCondition(condition)` against the current responses. */
  function EvaluateCondition(condition: BranchingCondition, responses: Answers): (holds: bool)
    ensures !IsAnswered(responses, condition.questionId) ==> !holds
  {
    if !IsAnswered(responses, condition.questionId) then false
    else
      var responseStr := Flatten(responses[condition.questionId]);
      var conditionValue := Flatten(condition.value);
      match condition.operator
      case Equals => responseStr == conditionValue
      case NotEquals => responseStr != conditionValue
      case Contains => Includes(ToLower(responseStr), ToLower(conditionValue))
      case NotContains => !Includes(ToLower(responseStr), ToLower(conditionValue))
      case OtherOperator(_) => true
  }

  /** For an answered question the operators pair up: `not_equals` is the
      negation of `equals`, `not_contains` of `contains`, and an unknown
      operator always holds. */
  lemma OperatorsOnAnsweredQuestion(c: BranchingCondition, responses: Answers, unknown: string)
    requires IsAnswered(responses, c.questionId)
    ensures EvaluateCondition(c.(operator := NotEquals), responses) == !EvaluateCondition(c.(operator := Equals), responses)
    ensures EvaluateCondition(c.(operator := NotContains), responses) == !EvaluateCondition(c.(operator := Contains), responses)
    ensures EvaluateCondition(c.(operator := OtherOperator(unknown)), responses)
  {
  }

  /** `equals` is exact equality of the flattened strings. */
  lemma EqualsComparesFlattened(c: BranchingCondition, responses: Answers)
    requires IsAnswered(responses, c.questionId) && c.operator == Equals
    ensures EvaluateCondition(c, responses) <==> Flatten(responses[c.questionId]) == Flatten(c.value)
  {
  }

  /** `contains` is a substring test on the lower-cased flattened strings. */
  lemma ContainsIsLowerCaseSubstring(c: BranchingCondition, responses: Answers)
    requires IsAnswered(responses, c.questionId) && c.operator == Contains
    ensures EvaluateCondition(c, responses) ==>
      exists i: nat :: OccursAt(ToLower(Flatten(responses[c.questionId])), ToLower(Flatten(c.value)), i)
    ensures (exists i: nat :: OccursAt(ToLower(Flatten(responses[c.questionId])), ToLower(Flatten(c.value)), i)) ==>
      EvaluateCondition(c, responses)
  {
    var hay, needle := ToLower(Flatten(responses[c.questionId])), ToLower(Flatten(c.value));
    assert EvaluateCondition(c, responses) == Includes(hay, needle);
    IncludesIffOccurs(hay, needle);
  }

  /** `contains` and `not_contains` ignore the letter case of the comparison
      value and of a single-string answer. */
  lemma ContainsIgnoresCase(c: BranchingCondition, responses: Answers, s: string)
    requires c.operator == Contains || c.operator == NotContains
    requires c.questionId in responses && responses[c.questionId] == Single(s)
    ensures EvaluateCondition(c.(value := Single(ToLower(Flatten(c.value)))), responses) == EvaluateCondition(c, responses)
    ensures EvaluateCondition(c, responses[c.questionId := Single(ToLower(s))]) == EvaluateCondition(c, responses)
  {
    ToLowerIsLower(Flatten(c.value));
    ToLowerIsLower(s);
    assert ToLower(s) == "" <==> s == "";
  }

  /** The evaluator sees an answer only through its truthiness and its
      flattened text: a list answer and the joined single string agree. */
  lemma EvaluationSeesFlattenedText(c: BranchingCondition, responses: Answers, other: Answers)
    requires IsAnswered(responses, c.questionId) && IsAnswered(other, c.questionId)
    requires Flatten(responses[c.questionId]) == Flatten(other[c.questionId])
    ensures EvaluateCondition(c, responses) == EvaluateCondition(c, other)
  {
  }

  /** Worked cases: `equals` is case-sensitive, `contains` is not, and an
      empty multiselect (truthy, joined to "") equals the empty string. */
  lemma ConditionExamples()
    ensures !EvaluateCondition(BranchingCondition("q1", Equals, Single("yes")), map["q1" := Single("Yes")])
    ensures EvaluateCondition(BranchingCondition("q1", Contains, Single("yes")), map["q1" := Single("Yes")])
    ensures EvaluateCondition(BranchingCondition("q1", Equals, Single("a,b")), map["q1" := Multiple(["a", "b"])])
    ensures EvaluateCondition(BranchingCondition("q1", Equals, Single("")), map["q1" := Multiple([])])
    ensures !EvaluateCondition(BranchingCondition("q1", NotEquals, Single("x")), map["q1" := Single("")])
  {
    assert ToLower("Yes") == "yes";
    assert ToLower("yes") == "yes";
    assert Includes("yes", "yes");
    assert Join(["a", "b"], ",") == "a,b";
  }

  // ----- Visibility -----

  /** `conditions.every(evaluateCondition)`. */
  predicate AllConditionsMet(conditions: seq<BranchingCondition>, responses: Answers) {
    forall i :: 0 <= i < |conditions| ==> EvaluateCondition(conditions[i], responses)
  }

  /** `shouldShowQuestion(question)`. */
  function ShouldShowQuestion(q: Question, responses: Answers): (visible: bool)
    ensures q.branching.None? || |q.branching.value.conditions| == 0 ==> visible
  {
    if q.branching.None? || |q.branching.value.conditions| == 0 then true
    else
      var allConditionsMet := AllConditionsMet(q.branching.value.conditions, responses);
      if q.branching.value.action == Show then allConditionsMet else !allConditionsMet
  }

  /** With at least one condition, `show` means visible iff all conditions
      hold, and `hide` means visible iff not all of them hold. */
  lemma VisibilityByAction(q: Question, responses: Answers)
    requires q.branching.Some? && |q.branching.value.conditions| > 0
    ensures q.branching.value.action == Show ==>
      (ShouldShowQuestion(q, responses) <==> AllConditionsMet(q.branching.value.conditions, responses))
    ensures q.branching.value.action == Hide ==>
      (ShouldShowQuestion(q, responses) <==> !AllConditionsMet(q.branching.value.conditions, responses))
  {
  }

  /** Flipping the action of a non-empty rule flips the visibility. */
  lemma ShowAndHideAreComplements(q: Question, responses: Answers)
    requires q.branching.Some? && |q.branching.value.conditions| > 0
    ensures ShouldShowQuestion(q.(branching := Some(q.branching.value.(action := Show))), responses) !=
            ShouldShowQuestion(q.(branching := Some(q.branching.value.(action := Hide))), responses)
  {
  }

  /** A rule with a condition on an unanswered (or non-existent) question
      falls back to its default: a `show` rule hides, a `hide` rule shows. */
  lemma UnansweredReferenceFallsBack(q: Question, responses: Answers, i: nat)
    requires q.branching.Some? && i < |q.branching.value.conditions|
    requires !IsAnswered(responses, q.branching.value.conditions[i].questionId)
    ensures ShouldShowQuestion(q, responses) <==> q.branching.value.action == Hide
  {
    assert !EvaluateCondition(q.branching.value.conditions[i], responses);
  }

  /** Answering a question that no condition of `q` refers to leaves the
      visibility of `q` unchanged. */
  lemma VisibilityIgnoresUnreferencedAnswers(q: Question, responses: Answers, questionId: string, value: AnswerValue)
    requires q.branching.Some? ==>
      forall i :: 0 <= i < |q.branching.value.conditions| ==> q.branching.value.conditions[i].questionId != questionId
    ensures ShouldShowQuestion(q, responses[questionId := value]) == ShouldShowQuestion(q, responses)
  {
    if q.branching.Some? {
      var conditions := q.branching.value.conditions;
      forall i | 0 <= i < |conditions|
        ensures EvaluateCondition(conditions[i], responses[questionId := value]) == EvaluateCondition(conditions[i], responses)
      {
        assert conditions[i].questionId != questionId;
      }
    }
  }

  /** The visible questions of a list, in order. */
  function VisibleQuestions(questions: seq<Question>, responses: Answers): seq<Question> {
    Filter(questions, (q: Question) => ShouldShowQuestion(q, responses))
  }

  // ----- Navigation -----

  datatype Direction = Forward | Backward

  /** `getNextVisibleStep(current, direction)`: scan from `current` in the
      given direction for a visible question; clamp at the last index going
      forward and at 0 going backward. */
  function NextVisibleStep(questions: seq<Question>, responses: Answers, current: int, direction: Direction): (next: int)
    requires -1 <= current <= |questions|
    ensures direction == Forward ==>
      (if current < |questions| - 1 then current < next < |questions| else next == |questions| - 1)
    ensures direction == Backward ==>
      (if current > 0 then 0 <= next < current else next == 0)
    decreases if direction == Forward then |questions| - current else current + 1
  {
    match direction
    case Forward =>
      if current >= |questions| - 1 then |questions| - 1
      else if ShouldShowQuestion(questions[current + 1], responses) then current + 1
      else NextVisibleStep(questions, responses, current + 1, Forward)
    case Backward =>
      if current <= 0 then 0
      else if ShouldShowQuestion(questions[current - 1], responses) then current - 1
      else NextVisibleStep(questions, responses, current - 1, Backward)
  }

  /** Going forward from before the last index lands on the first visible
      question after `current`, or on the last index when there is none
      (even if that question is hidden). */
  lemma {:induction false} ForwardScanFindsFirstVisible(questions: seq<Question>, responses: Answers, current: int)
    requires -1 <= current < |questions| - 1
    ensures var next := NextVisibleStep(questions, responses, current, Forward);
      && (forall j :: current < j < next ==> !ShouldShowQuestion(questions[j], responses))
      && (next < |questions| - 1 ==> ShouldShowQuestion(questions[next], responses))
    decreases |questions| - current
  {
    if !ShouldShowQuestion(questions[current + 1], responses) && current + 1 < |questions| - 1 {
      ForwardScanFindsFirstVisible(questions, responses, current + 1);
    }
  }

  /** Going backward from after index 0 lands on the nearest visible question
      before `current`, or on index 0 when there is none. */
  lemma {:induction false} BackwardScanFindsNearestVisible(questions: seq<Question>, responses: Answers, current: int)
    requires 0 < current <= |questions|
    ensures var next := NextVisibleStep(questions, responses, current, Backward);
      && (forall j :: next < j < current ==> !ShouldShowQuestion(questions[j], responses))
      && (next > 0 ==> ShouldShowQuestion(questions[next], responses))
    decreases current
  {
    if !ShouldShowQuestion(questions[current - 1], responses) && current - 1 > 0 {
      BackwardScanFindsNearestVisible(questions, responses, current - 1);
    }
  }

  /** Where the pointer can be: an index of the list, or -1/0 for a form
      without questions (a forward scan from 0 yields -1 there). */
  predicate PointerInRange(count: nat, step: int) {
    if count == 0 then -1 <= step <= 0 else 0 <= step < count
  }

  /** Both scans keep the pointer in range. */
  lemma ScansStayInRange(questions: seq<Question>, responses: Answers, step: int, direction: Direction)
    requires PointerInRange(|questions|, step)
    ensures PointerInRange(|questions|, NextVisibleStep(questions, responses, step, direction))
  {
  }

  /** The forward scan returns the pointer itself exactly when the pointer is
      on the last index: that is when Next submits. */
  lemma ForwardStaysExactlyAtLastIndex(questions: seq<Question>, responses: Answers, step: int)
    requires PointerInRange(|questions|, step)
    ensures NextVisibleStep(questions, responses, step, Forward) == step <==> step == |questions| - 1
  {
  }

  // ----- What the current step displays -----

  /** Where `getCurrentQuestions` leaves the pointer: a hidden current
      question moves it forward. */
  function SnappedStep(questions: seq<Question>, responses: Answers, step: int): (snapped: int)
    requires PointerInRange(|questions|, step)
    ensures PointerInRange(|questions|, snapped)
    ensures snapped != step ==> |questions| > 0 && !ShouldShowQuestion(questions[step], responses) && step < snapped
  {
    if |questions| > 0 && !ShouldShowQuestion(questions[step], responses)
    then NextVisibleStep(questions, responses, step, Forward)
    else step
  }

  /** `getCurrentQuestions()`: the questions the step at `step` displays. */
  function CurrentQuestions(questions: seq<Question>, responses: Answers, step: int): (display: seq<Question>)
    requires PointerInRange(|questions|, step)
    ensures display == [] <==> |questions| == 0
    ensures forall q | q in display :: q in questions
  {
    if |questions| == 0 then []
    else if !ShouldShowQuestion(questions[step], responses) then
      [questions[NextVisibleStep(questions, responses, step, Forward)]]
    else if !HasGroup(questions[step]) then [questions[step]]
    else
      var inGroup := QuestionsInGroup(questions, questions[step].group.value);
      assert questions[step] in questions;
      assert questions[step] in inGroup;
      assert questions[step] in VisibleQuestions(inGroup, responses);
      VisibleQuestions(inGroup, responses)
  }

  /** A visible ungrouped question is displayed alone; a visible grouped one
      brings every visible question of its group, from the whole list and in
      list order and as often as it occurs there, itself included. */
  lemma DisplayOfVisibleQuestion(questions: seq<Question>, responses: Answers, step: int)
    requires PointerInRange(|questions|, step) && |questions| > 0
    requires ShouldShowQuestion(questions[step], responses)
    ensures !HasGroup(questions[step]) ==> CurrentQuestions(questions, responses, step) == [questions[step]]
    ensures HasGroup(questions[step]) ==>
      var display := CurrentQuestions(questions, responses, step);
      && (forall q :: q in display <==>
            q in questions && q.group == questions[step].group && ShouldShowQuestion(q, responses))
      && IsSubsequence(display, questions)
      && questions[step] in display
      && (forall q :: multiset(display)[q] ==
            if q.group == questions[step].group && ShouldShowQuestion(q, responses) then multiset(questions)[q] else 0)
  {
    if HasGroup(questions[step]) {
      var g := questions[step].group.value;
      var inGroup := QuestionsInGroup(questions, g);
      var visible := (q: Question) => ShouldShowQuestion(q, responses);
      QuestionsInGroupSpec(questions, g);
      FilterIsSubsequence(inGroup, visible);
      SubsequenceTransitive(VisibleQuestions(inGroup, responses), inGroup, questions);
      assert questions[step] in questions;
      forall q ensures multiset(VisibleQuestions(inGroup, responses))[q] ==
          if q.group == questions[step].group && ShouldShowQuestion(q, responses) then multiset(questions)[q] else 0
      {
        FilterCounts(inGroup, visible, q);
      }
    }
  }

  /** A hidden current question is replaced by the single question the
      forward scan lands on, whatever its group, and the pointer moves there. */
  lemma DisplayOfHiddenQuestion(questions: seq<Question>, responses: Answers, step: int)
    requires PointerInRange(|questions|, step) && |questions| > 0
    requires !ShouldShowQuestion(questions[step], responses)
    ensures var next := SnappedStep(questions, responses, step);
      && CurrentQuestions(questions, responses, step) == [questions[next]]
      && (step < |questions| - 1 ==> step < next)
      && (step == |questions| - 1 ==> next == step)
      && (next < |questions| - 1 ==> ShouldShowQuestion(questions[next], responses))
      && (forall j :: step < j < next ==> !ShouldShowQuestion(questions[j], responses))
  {
    if step < |questions| - 1 {
      ForwardScanFindsFirstVisible(questions, responses, step);
    }
  }

  /** The display of an empty form is empty. */
  lemma DisplayOfEmptyForm(responses: Answers, step: int)
    requires PointerInRange(0, step)
    ensures CurrentQuestions([], responses, step) == []
  {
  }

  /** Snapping the pointer a second time does not move it again. */
  lemma SnapIsIdempotent(questions: seq<Question>, responses: Answers, step: int)
    requires PointerInRange(|questions|, step)
    ensures PointerInRange(|questions|, SnappedStep(questions, responses, step))
    ensures SnappedStep(questions, responses, SnappedStep(questions, responses, step)) == SnappedStep(questions, responses, step)
  {
    if |questions| > 0 && !ShouldShowQuestion(questions[step], responses) && step < |questions| - 1 {
      ForwardScanFindsFirstVisible(questions, responses, step);
    }
  }

  /** Reading the display again at the snapped pointer gives the same
      questions, except when the snap landed on a visible grouped question:
      then the second read shows its whole group. */
  lemma RereadKeepsDisplayUnlessSnappedIntoGroup(questions: seq<Question>, responses: Answers, step: int)
    requires PointerInRange(|questions|, step)
    requires |questions| > 0 && !ShouldShowQuestion(questions[step], responses) ==>
      var next := SnappedStep(questions, responses, step);
      !(ShouldShowQuestion(questions[next], responses) && HasGroup(questions[next]))
    ensures PointerInRange(|questions|, SnappedStep(questions, responses, step))
    ensures CurrentQuestions(questions, responses, SnappedStep(questions, responses, step)) ==
            CurrentQuestions(questions, responses, step)
  {
    SnapIsIdempotent(questions, responses, step);
  }

  /** A form where the second read differs: question 0 is hidden (its rule
      needs an answer that is missing), the snap lands on question 1 and the
      first read shows it alone, the read from the snapped pointer shows its
      group [1, 2]. */
  lemma SnapIntoGroupExample()
    ensures var hidden := Question("q0", Text, "Q0", false, None, None, None, None,
                                   Some(Branching([BranchingCondition("missing", Equals, Single("x"))], Show)));
      var first := Question("q1", Text, "Q1", false, None, None, None, Some("g"), None);
      var second := Question("q2", Text, "Q2", false, None, None, None, Some("g"), None);
      var questions := [hidden, first, second];
      && SnappedStep(questions, map[], 0) == 1
      && CurrentQuestions(questions, map[], 0) == [first]
      && CurrentQuestions(questions, map[], 1) == [first, second]
  {
    var hidden := Question("q0", Text, "Q0", false, None, None, None, None,
                           Some(Branching([BranchingCondition("missing", Equals, Single("x"))], Show)));
    var first := Question("q1", Text, "Q1", false, None, None, None, Some("g"), None);
    var second := Question("q2", Text, "Q2", false, None, None, None, Some("g"), None);
    var questions := [hidden, first, second];
    assert !ShouldShowQuestion(hidden, map[]) by {
      assert !EvaluateCondition(hidden.branching.value.conditions[0], map[]);
    }
    assert questions[1..] == [first, second];
    assert [first, second][1..] == [second];
    assert [second][1..] == [];
    assert QuestionsInGroup([second], "g") == [second] + QuestionsInGroup([], "g");
    assert QuestionsInGroup([first, second], "g") == [first] + QuestionsInGroup([second], "g");
    assert QuestionsInGroup(questions, "g") == QuestionsInGroup([first, second], "g");
    assert VisibleQuestions([second], map[]) == [second];
    assert VisibleQuestions([first, second], map[]) == [first, second];
  }

  /** `form.groups.find(g => g.id === id)`. */
  function FindGroup(groups: seq<QuestionGroup>, id: string): (found: Option<QuestionGroup>)
    ensures found.Some? ==> exists k :: (0 <= k < |groups| && groups[k] == found.value && found.value.id == id &&
      forall j :: 0 <= j < k ==> groups[j].id != id)
    ensures found.None? <==> forall k :: 0 <= k < |groups| ==> groups[k].id != id
  {
    if groups == [] then None
    else if groups[0].id == id then Some(groups[0])
    else
      var rest := FindGroup(groups[1..], id);
      assert rest.Some? ==> exists k :: (0 <= k < |groups[1..]| && groups[1..][k] == rest.value &&
        forall j :: 0 <= j < k ==> groups[1..][j].id != id);
      if rest.Some? then
        var k :| 0 <= k < |groups[1..]| && groups[1..][k] == rest.value &&
          forall j :: 0 <= j < k ==> groups[1..][j].id != id;
        assert groups[k + 1] == rest.value;
        assert forall j :: 0 <= j < k + 1 ==> groups[j].id != id by {
          forall j | 0 <= j < k + 1 ensures groups[j].id != id {
            if j > 0 { assert groups[j] == groups[1..][j - 1]; }
          }
        }
        rest
      else
        assert forall k :: 0 <= k < |groups| ==> groups[k].id != id by {
          forall k | 0 <= k < |groups| ensures groups[k].id != id {
            if k > 0 { assert groups[k] == groups[1..][k - 1]; }
          }
        }
        rest
  }

  /** `getCurrentGroup()`: the first group whose id the current question
      names; none when the question is ungrouped, the pointer is off the
      list, or the id dangles. */
  function CurrentGroup(form: RegistrationForm, step: int): (group: Option<QuestionGroup>)
    ensures group.Some? ==>
      0 <= step < |form.questions| && form.questions[step].group == Some(group.value.id) && group.value in form.groups
    ensures group.None? <==>
      !(0 <= step < |form.questions| && HasGroup(form.questions[step])) ||
      (forall k :: 0 <= k < |form.groups| ==> form.groups[k].id != form.questions[step].group.value)
  {
    if 0 <= step < |form.questions| && HasGroup(form.questions[step])
    then FindGroup(form.groups, form.questions[step].group.value)
    else None
  }

  // ----- The gate on Next -----

  /** `canProceed`: every displayed required question has a truthy answer. */
  predicate CanProceed(display: seq<Question>, responses: Answers) {
    forall i :: 0 <= i < |display| ==> !display[i].required || IsAnswered(responses, display[i].id)
  }

  /** Next is blocked exactly by a displayed required question whose answer
      is missing or the empty string; any list answer, even [], counts. */
  lemma BlockedExactlyByUnansweredRequired(display: seq<Question>, responses: Answers)
    ensures !CanProceed(display, responses) <==>
      exists i :: 0 <= i < |display| && display[i].required &&
        (display[i].id !in responses || responses[display[i].id] == Single(""))
  {
  }

  /** Giving the one blocking question a truthy answer opens the gate, and a
      truthy answer never closes it. */
  lemma AnsweringUnblocks(display: seq<Question>, responses: Answers, questionId: string, value: AnswerValue)
    requires IsTruthy(value)
    requires forall i :: 0 <= i < |display| && display[i].required && !IsAnswered(responses, display[i].id) ==>
      display[i].id == questionId
    ensures CanProceed(display, responses[questionId := value])
  {
  }

  /** While Next is open no displayed required question shows its message,
      and a required question that shows its message keeps Next closed. */
  lemma ValidationMessageMarksBlocker(display: seq<Question>, responses: Answers, i: nat)
    requires i < |display| && display[i].required && HasValidationMessage(display[i])
    ensures ShowsValidationMessage(display[i], responses) <==>
      !CanProceed([display[i]], responses)
    ensures ShowsValidationMessage(display[i], responses) ==> !CanProceed(display, responses)
  {
    assert [display[i]][0] == display[i];
  }

  // ----- The session -----

  /** What one render of the wizard exposes to the page. */
  datatype StepView = StepView(
    questions: seq<Question>,
    group: Option<QuestionGroup>,
    canProceed: bool,
    backDisabled: bool,
    isLastStep: bool)

  /** One respondent's pass through a form: the `currentStep` and
      `responses` state of the component. */
  class Session {
    const form: RegistrationForm
    var currentStep: int
    var responses: Answers

    ghost predicate Valid()
      reads this
    {
      PointerInRange(|form.questions|, currentStep)
    }

    constructor (form: RegistrationForm)
      ensures Valid()
      ensures this.form == form && currentStep == 0 && responses == map[]
    {
      this.form := form;
      currentStep := 0;
      responses := map[];
    }

    /** `getNextVisibleStep`: the scanning loop. */
    method GetNextVisibleStep(current: int, direction: Direction) returns (next: int)
      requires -1 <= current <= |form.questions|
      ensures next == NextVisibleStep(form.questions, responses, current, direction)
    {
      var maxStep := |form.questions| - 1;
      var nextStep := current;
      while if direction == Forward then nextStep < maxStep else nextStep > 0
        invariant -1 <= nextStep <= |form.questions|
        invariant NextVisibleStep(form.questions, responses, nextStep, direction) ==
                  NextVisibleStep(form.questions, responses, current, direction)
        decreases if direction == Forward then maxStep - nextStep else nextStep
      {
        nextStep := if direction == Forward then nextStep + 1 else nextStep - 1;
        if ShouldShowQuestion(form.questions[nextStep], responses) {
          return nextStep;
        }
      }
      return if direction == Forward then maxStep else 0;
    }

    /** `getCurrentQuestions()`, with its write of the pointer. */
    method GetCurrentQuestions() returns (display: seq<Question>)
      requires Valid()
      modifies this
      ensures Valid() && responses == old(responses)
      ensures currentStep == SnappedStep(form.questions, responses, old(currentStep))
      ensures display == CurrentQuestions(form.questions, responses, old(currentStep))
    {
      if |form.questions| == 0 {
        return [];
      }
      var currentQuestion := form.questions[currentStep];
      if !ShouldShowQuestion(currentQuestion, responses) {
        var nextStep := GetNextVisibleStep(currentStep, Forward);
        currentStep := nextStep;
        return [form.questions[nextStep]];
      }
      if !HasGroup(currentQuestion) {
        return [currentQuestion];
      }
      return VisibleQuestions(QuestionsInGroup(form.questions, currentQuestion.group.value), responses);
    }

    /** `isLastStep`: the Next button reads "Submit". */
    function IsLastStep(): (last: bool)
      reads this
      requires Valid()
      ensures last <==> NextVisibleStep(form.questions, responses, currentStep, Forward) == currentStep
    {
      ForwardStaysExactlyAtLastIndex(form.questions, responses, currentStep);
      currentStep == |form.questions| - 1
    }

    /** `handleResponse(questionId, value)`: upsert one answer. */
    method HandleResponse(questionId: string, value: AnswerValue)
      modifies this
      ensures responses == old(responses)[questionId := value]
      ensures currentStep == old(currentStep)
    {
      responses := responses[questionId := value];
    }

    /** `handleNext()`: advance, or hand the answers to `onSubmit` when the
      scan cannot move (the returned value is that call's argument). */
    method HandleNext() returns (submitted: Option<Answers>)
      requires Valid()
      modifies this
      ensures Valid() && responses == old(responses)
      ensures submitted.Some? <==>
        NextVisibleStep(form.questions, responses, old(currentStep), Forward) == old(currentStep)
      ensures submitted.Some? <==> old(currentStep) == |form.questions| - 1
      ensures submitted.Some? ==> submitted.value == responses && currentStep == old(currentStep)
      ensures submitted.None? ==> currentStep == NextVisibleStep(form.questions, responses, old(currentStep), Forward)
    {
      ForwardStaysExactlyAtLastIndex(form.questions, responses, currentStep);
      ScansStayInRange(form.questions, responses, currentStep, Forward);
      var nextStep := GetNextVisibleStep(currentStep, Forward);
      if nextStep != currentStep {
        currentStep := nextStep;
        submitted := None;
      } else {
        submitted := Some(responses);
      }
    }

    /** `handleBack()`: move back; never submits. */
    method HandleBack()
      requires Valid()
      modifies this
      ensures Valid() && responses == old(responses)
      ensures currentStep == NextVisibleStep(form.questions, responses, old(currentStep), Backward)
    {
      ScansStayInRange(form.questions, responses, currentStep, Backward);
      var prevStep := GetNextVisibleStep(currentStep, Backward);
      currentStep := prevStep;
    }

    /** One render pass: the display (which may move the pointer for the
      next pass), and the group, the gate and the two button states as this
      pass computes them, from the pointer it started with. */
    method Render() returns (view: StepView)
      requires Valid()
      modifies this
      ensures Valid() && responses == old(responses)
      ensures currentStep == SnappedStep(form.questions, responses, old(currentStep))
      ensures view.questions == CurrentQuestions(form.questions, responses, old(currentStep))
      ensures view.group == CurrentGroup(form, old(currentStep))
      ensures view.canProceed == CanProceed(view.questions, responses)
      ensures view.backDisabled == (old(currentStep) == 0)
      ensures view.isLastStep == (old(currentStep) == |form.questions| - 1)
    {
      var renderedStep := currentStep;
      var isLastStep := IsLastStep();
      var currentQuestions := GetCurrentQuestions();
      var currentGroup := CurrentGroup(form, renderedStep);
      view := StepView(currentQuestions, currentGroup, CanProceed(currentQuestions, responses),
                       renderedStep == 0, isLastStep);
    }
  }
}
