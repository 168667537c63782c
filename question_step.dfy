/** The pure logic of one wizard step (src/components/registration/QuestionStep.tsx):
    the multiselect toggle, the checkbox state, the grid class name, which
    input a question renders as, and when its validation message shows. */
module QuestionStep {
  import opened Wrappers
  import opened Seqs
  import opened Strings
  import opened Registration

  /** The cast `values[questionId] as string[]` matches the stored answer: it
      is a list, or falsy or missing (where `|| []` takes over). */
  predicate HoldsList(values: Answers, questionId: string) {
    questionId !in values || values[questionId].Multiple? || values[questionId] == Single("")
  }

  /** `(values[questionId] as string[]) || []`. */
  function SelectedValues(values: Answers, questionId: string): seq<string>
    requires HoldsList(values, questionId)
  {
    if questionId in values && values[questionId].Multiple? then values[questionId].items else []
  }

  /** The new list `handleMultiSelect` computes from the current one. */
  function ToggleOption(current: seq<string>, optionValue: string): seq<string> {
    if optionValue in current then Filter(current, (v: string) => v != optionValue)
    else current + [optionValue]
  }

  /** Toggling a selected value removes every occurrence of it and keeps every
      other element, as often as it was there and in its order. */
  lemma ToggleRemovesValue(current: seq<string>, optionValue: string)
    requires optionValue in current
    ensures optionValue !in ToggleOption(current, optionValue)
    ensures multiset(ToggleOption(current, optionValue)) == multiset(current)[optionValue := 0]
    ensures IsSubsequence(ToggleOption(current, optionValue), current)
  {
    var p := (v: string) => v != optionValue;
    FilterIsSubsequence(current, p);
    forall x ensures multiset(ToggleOption(current, optionValue))[x] == multiset(current)[optionValue := 0][x] {
      FilterCounts(current, p, x);
    }
  }

  /** Toggling an unselected value appends it after the others. */
  lemma ToggleAppendsValue(current: seq<string>, optionValue: string)
    requires optionValue !in current
    ensures |ToggleOption(current, optionValue)| == |current| + 1
    ensures ToggleOption(current, optionValue)[..|current|] == current
    ensures ToggleOption(current, optionValue)[|current|] == optionValue
  {
  }

  /** Selecting and then deselecting a value gives back the original list. */
  lemma ToggleTwiceRestores(current: seq<string>, optionValue: string)
    requires optionValue !in current
    ensures ToggleOption(ToggleOption(current, optionValue), optionValue) == current
  {
    var p := (v: string) => v != optionValue;
    FilterConcat(current, [optionValue], p);
    FilterKeepsAll(current, p);
  }

  /** Deselecting and then reselecting a value moves it, once, to the end. */
  lemma ToggleTwiceMovesToEnd(current: seq<string>, optionValue: string)
    requires optionValue in current
    ensures ToggleOption(ToggleOption(current, optionValue), optionValue) ==
            Filter(current, (v: string) => v != optionValue) + [optionValue]
  {
  }

  /** `handleMultiSelect(questionId, optionValue)`: the answer it hands to
      `onChange`. */
  function HandleMultiSelect(values: Answers, questionId: string, optionValue: string): AnswerValue
    requires HoldsList(values, questionId)
  {
    Multiple(ToggleOption(SelectedValues(values, questionId), optionValue))
  }

  /** The checkbox state of one option of a multiselect question. */
  predicate IsSelected(values: Answers, questionId: string, optionValue: string)
    requires HoldsList(values, questionId)
  {
    optionValue in SelectedValues(values, questionId)
  }

  /** Clicking an option flips its own checkbox and no other. */
  lemma MultiSelectFlipsOnlyItsOption(values: Answers, questionId: string, optionValue: string)
    requires HoldsList(values, questionId)
    ensures var after := values[questionId := HandleMultiSelect(values, questionId, optionValue)];
      && HoldsList(after, questionId)
      && (IsSelected(after, questionId, optionValue) <==> !IsSelected(values, questionId, optionValue))
      && forall other :: other != optionValue ==>
           (IsSelected(after, questionId, other) <==> IsSelected(values, questionId, other))
  {
  }

  /** `group.columns || 2`. */
  function EffectiveColumns(g: QuestionGroup): int {
    if g.columns.Some? && g.columns.value != 0 then g.columns.value else 2
  }

  /** `getGridColumns()`: the Tailwind column class of a step's group. */
  function GetGridColumns(group: Option<QuestionGroup>): (cls: string)
    ensures cls == "" <==> group.None? || group.value.layout != Grid
  {
    if group.None? || group.value.layout != Grid then ""
    else "grid-cols-" + IntToString(EffectiveColumns(group.value))
  }

  /** A grid group without a column count gets two columns. */
  lemma GridColumnsDefault(g: QuestionGroup)
    requires g.layout == Grid && (g.columns.None? || g.columns == Some(0))
    ensures GetGridColumns(Some(g)) == "grid-cols-2"
  {
  }

  /** A grid group with a positive column count: the class is the prefix
      followed by exactly that count's digits. */
  lemma GridColumnsReadBack(g: QuestionGroup, n: nat)
    requires g.layout == Grid && g.columns == Some(n) && n != 0
    ensures var cls := GetGridColumns(Some(g));
      && |cls| > 10 && cls[..10] == "grid-cols-"
      && (forall i :: 10 <= i < |cls| ==> IsDigit(cls[i]))
      && DecimalValue(cls[10..]) == n
  {
    var cls := GetGridColumns(Some(g));
    assert cls[10..] == NatToString(n);
    NatToStringRoundTrip(n);
  }

  /** What `renderInput` draws for a question. */
  datatype InputWidget =
    | TextInput(inputType: string, pattern: Option<string>)
    | DateInput
    | NoOptionsNotice
    | Dropdown(choices: seq<AnswerOption>)
    | CheckboxList(choices: seq<AnswerOption>)

  /** The type's name as the source spells it. */
  function TypeName(t: QuestionType): string {
    match t
    case Text => "text"
    case Select => "select"
    case Multiselect => "multiselect"
    case Date => "date"
    case Email => "email"
    case Phone => "phone"
  }

  function PatternOf(q: Question): Option<string> {
    if q.validation.Some? then q.validation.value.pattern else None
  }

  /** `renderInput(question)` together with `renderSelectOptions`. */
  function RenderInput(q: Question): (w: InputWidget)
    ensures w.TextInput? <==> q.qtype == Text || q.qtype == Email || q.qtype == Phone
    ensures w.TextInput? ==> w.inputType == (if q.qtype == Phone then "tel" else TypeName(q.qtype))
    ensures w.TextInput? ==> w.pattern == PatternOf(q)
    ensures w.DateInput? <==> q.qtype == Date
    ensures w.NoOptionsNotice? <==>
      (q.qtype == Select || q.qtype == Multiselect) && (q.options.None? || |q.options.value| == 0)
    ensures w.Dropdown? ==> q.qtype == Select && q.options == Some(w.choices)
    ensures w.CheckboxList? ==> q.qtype == Multiselect && q.options == Some(w.choices)
  {
    match q.qtype
    case Text => TextInput(TypeName(q.qtype), PatternOf(q))
    case Email => TextInput(TypeName(q.qtype), PatternOf(q))
    case Phone => TextInput("tel", PatternOf(q))
    case Date => DateInput
    case Select =>
      if q.options.None? || |q.options.value| == 0 then NoOptionsNotice else Dropdown(q.options.value)
    case Multiselect =>
      if q.options.None? || |q.options.value| == 0 then NoOptionsNotice else CheckboxList(q.options.value)
  }

  /** Every text-like input gets one of the three HTML input types. */
  lemma TextInputTypes(q: Question)
    requires RenderInput(q).TextInput?
    ensures RenderInput(q).inputType == "text" || RenderInput(q).inputType == "email" || RenderInput(q).inputType == "tel"
  {
  }

  predicate HasValidationMessage(q: Question) {
    q.validation.Some? && q.validation.value.message.Some? && q.validation.value.message.value != ""
  }

  /** `question.validation?.message && !values[question.id]`. */
  predicate ShowsValidationMessage(q: Question, values: Answers) {
    HasValidationMessage(q) && !IsAnswered(values, q.id)
  }
}
