/** The form definition types (src/types/registration.ts) and the notions of
    "has an answer" and "belongs to a group" that the engine and the editor
    share. */
module Registration {
  import opened Wrappers
  import opened Seqs

  datatype QuestionType = Text | Select | Multiselect | Date | Email | Phone

  datatype FormStatus = Draft | Scheduled | Published

  datatype GroupLayout = Vertical | Horizontal | Grid

  /** The four operators of the type, plus whatever else a stored form may
      carry in that field (the evaluator has a default branch for it). */
  datatype Operator = Equals | Contains | NotEquals | NotContains | OtherOperator(name: string)

  /** `string | string[]`: an answer, or a condition's comparison value. */
  datatype AnswerValue = Single(text: string) | Multiple(items: seq<string>)

  datatype BranchingCondition = BranchingCondition(questionId: string, operator: Operator, value: AnswerValue)

  datatype AnswerOption = AnswerOption(id: string, labelText: string, value: string)

  datatype Validation = Validation(
    pattern: Option<string>,
    message: Option<string>,
    minLength: Option<int>,
    maxLength: Option<int>)

  datatype BranchAction = Show | Hide

  datatype Branching = Branching(conditions: seq<BranchingCondition>, action: BranchAction)

  datatype Question = Question(
    id: string,
    qtype: QuestionType,
    labelText: string,
    required: bool,
    placeholder: Option<string>,
    options: Option<seq<AnswerOption>>,
    validation: Option<Validation>,
    group: Option<string>,
    branching: Option<Branching>)

  datatype QuestionGroup = QuestionGroup(
    id: string,
    title: string,
    description: Option<string>,
    layout: GroupLayout,
    columns: Option<int>)

  datatype LogoSource = Url | Upload

  datatype LogoPosition = Left | Center | Right

  datatype Logo = Logo(source: LogoSource, src: string, width: Option<int>, height: Option<int>, position: LogoPosition)

  /** A theme entry: a CSS-ish setting string, or the logo object. */
  datatype ThemeValue = Setting(text: string) | LogoSetting(logo: Logo)

  /** A theme is a record whose keys may be missing in stored data, so it is a
      map from property name to value; object spread is map union. */
  type Theme = map<string, ThemeValue>

  datatype RegistrationForm = RegistrationForm(
    id: string,
    title: string,
    description: Option<string>,
    status: FormStatus,
    scheduledDate: Option<string>,
    questions: seq<Question>,
    groups: seq<QuestionGroup>,
    theme: Theme)

  /** `Record<string, string | string[]>`: the answers collected so far. */
  type Answers = map<string, AnswerValue>

  /** JavaScript truthiness of an answer: the empty string is falsy, every
      array (even an empty one) is truthy. */
  predicate IsTruthy(v: AnswerValue) {
    v.Multiple? || v.text != ""
  }

  /** `responses[id]` is truthy. */
  predicate IsAnswered(responses: Answers, id: string) {
    id in responses && IsTruthy(responses[id])
  }

  /** `question.group` is truthy: present and not the empty string. */
  predicate HasGroup(q: Question) {
    q.group.Some? && q.group.value != ""
  }

  /** `questions.filter(q => q.group === groupId)`. */
  function QuestionsInGroup(questions: seq<Question>, groupId: string): seq<Question> {
    Filter(questions, (q: Question) => q.group == Some(groupId))
  }

  /** The questions of a group are exactly those that name it, in list order. */
  lemma QuestionsInGroupSpec(questions: seq<Question>, groupId: string)
    ensures forall q :: q in QuestionsInGroup(questions, groupId) <==> q in questions && q.group == Some(groupId)
    ensures IsSubsequence(QuestionsInGroup(questions, groupId), questions)
    ensures forall q :: multiset(QuestionsInGroup(questions, groupId))[q] ==
                        (if q.group == Some(groupId) then multiset(questions)[q] else 0)
  {
    var p := (q: Question) => q.group == Some(groupId);
    FilterIsSubsequence(questions, p);
    forall q
      ensures multiset(QuestionsInGroup(questions, groupId))[q] ==
              (if q.group == Some(groupId) then multiset(questions)[q] else 0)
    {
      FilterCounts(questions, p, q);
    }
  }
}
