/** The authoring operations of src/components/admin/FormEditor.tsx: new
    questions and groups with their defaults, partial updates, removal, the
    drag reorder, the bulk add from newline-separated text, and the option
    label edit. */
module Editor {
  import opened Wrappers
  import opened Seqs
  import opened Strings
  import opened Registration
  import QuestionStep
  import Wizard

  // ----- New questions -----

  /** `createQuestion(label)` with the id it draws and the editor's group
      picker value; the empty picker means "no group". */
  function CreateQuestion(labelText: string, freshId: string, selectedGroup: string): (q: Question)
    ensures q.id == freshId && q.labelText == labelText
    ensures q.qtype == Text && !q.required
    ensures q.branching == Some(Branching([], Show))
    ensures q.group == if selectedGroup == "" then None else Some(selectedGroup)
    ensures q.options == Some([]) && q.placeholder == Some("")
    ensures q.validation == Some(Validation(None, Some(""), None, None))
  {
    Question(freshId, Text, labelText, false, Some(""), Some([]),
             Some(Validation(None, Some(""), None, None)),
             if selectedGroup == "" then None else Some(selectedGroup),
             Some(Branching([], Show)))
  }

  /** A fresh question is shown to every respondent, never holds up Next,
      shows no validation message, and renders as a plain text input. */
  lemma CreatedQuestionIsOpen(labelText: string, freshId: string, selectedGroup: string, responses: Answers)
    ensures var q := CreateQuestion(labelText, freshId, selectedGroup);
      && Wizard.ShouldShowQuestion(q, responses)
      && Wizard.CanProceed([q], responses)
      && !QuestionStep.ShowsValidationMessage(q, responses)
      && QuestionStep.RenderInput(q) == QuestionStep.TextInput("text", None)
  {
  }

  // ----- Question updates -----

  /** `Partial<Question>` as `updateQuestion` receives it: `None` leaves a
      field alone; the optional fields take `Some(None)` to clear them. */
  datatype QuestionPatch = QuestionPatch(
    id: Option<string>,
    qtype: Option<QuestionType>,
    labelText: Option<string>,
    required: Option<bool>,
    placeholder: Option<Option<string>>,
    options: Option<Option<seq<AnswerOption>>>,
    validation: Option<Option<Validation>>,
    group: Option<Option<string>>,
    branching: Option<Option<Branching>>)

  const EmptyQuestionPatch := QuestionPatch(None, None, None, None, None, None, None, None, None)

  /** `{ ...question, ...updates }`. */
  function ApplyQuestionPatch(q: Question, patch: QuestionPatch): (r: Question)
    ensures r.id == patch.id.GetOr(q.id) && r.qtype == patch.qtype.GetOr(q.qtype)
    ensures r.labelText == patch.labelText.GetOr(q.labelText) && r.required == patch.required.GetOr(q.required)
    ensures r.placeholder == patch.placeholder.GetOr(q.placeholder) && r.options == patch.options.GetOr(q.options)
    ensures r.validation == patch.validation.GetOr(q.validation) && r.group == patch.group.GetOr(q.group)
    ensures r.branching == patch.branching.GetOr(q.branching)
  {
    Question(patch.id.GetOr(q.id), patch.qtype.GetOr(q.qtype), patch.labelText.GetOr(q.labelText),
             patch.required.GetOr(q.required), patch.placeholder.GetOr(q.placeholder),
             patch.options.GetOr(q.options), patch.validation.GetOr(q.validation),
             patch.group.GetOr(q.group), patch.branching.GetOr(q.branching))
  }

  /** The empty patch changes nothing, and a patch applied twice acts once. */
  lemma QuestionPatchLaws(q: Question, patch: QuestionPatch)
    ensures ApplyQuestionPatch(q, EmptyQuestionPatch) == q
    ensures ApplyQuestionPatch(ApplyQuestionPatch(q, patch), patch) == ApplyQuestionPatch(q, patch)
  {
  }

  /** `updateQuestion(index, updates)` on the list: only element `index`
      changes, and only in the patched fields. */
  function UpdateQuestionAt(questions: seq<Question>, index: nat, patch: QuestionPatch): (r: seq<Question>)
    requires index < |questions|
    ensures |r| == |questions| && r[index] == ApplyQuestionPatch(questions[index], patch)
    ensures forall j :: 0 <= j < |questions| && j != index ==> r[j] == questions[j]
  {
    questions[index := ApplyQuestionPatch(questions[index], patch)]
  }

  /** `removeQuestion(index)`: `splice(index, 1)`, which does nothing for an
      index past the end. */
  function RemoveQuestionAt(questions: seq<Question>, index: nat): (r: seq<Question>)
    ensures index < |questions| ==>
      |r| == |questions| - 1 &&
      (forall k :: 0 <= k < |r| ==> r[k] == if k < index then questions[k] else questions[k + 1]) &&
      multiset(r) + multiset{questions[index]} == multiset(questions)
    ensures index >= |questions| ==> r == questions
  {
    if index < |questions| then RemoveAt(questions, index) else questions
  }

  // ----- The drag reorder -----

  /** `handleDragOver(index)` on the list: nothing while no drag is on or
      when hovering the dragged row itself, otherwise the dragged question
      moves to the hovered index. */
  function DragOver(questions: seq<Question>, draggedIndex: Option<nat>, index: nat): (r: seq<Question>)
    requires draggedIndex.Some? ==> draggedIndex.value < |questions|
    requires index < |questions|
    ensures draggedIndex.None? || draggedIndex.value == index ==> r == questions
    ensures |r| == |questions| && multiset(r) == multiset(questions)
    ensures draggedIndex.Some? ==> r[index] == questions[draggedIndex.value]
  {
    if draggedIndex.None? || draggedIndex.value == index then questions
    else Move(questions, draggedIndex.value, index)
  }

  /** Dragging a question onto another row and straight back onto its old
      row restores the list. */
  lemma DragThereAndBack(questions: seq<Question>, from: nat, to: nat)
    requires from < |questions| && to < |questions|
    ensures DragOver(DragOver(questions, Some(from), to), Some(to), from) == questions
  {
    if from != to {
      MoveBack(questions, from, to);
    }
  }

  /** Rows between the two positions shift by one towards the old position,
      the rest stay. */
  lemma DragShiftsBetween(questions: seq<Question>, from: nat, to: nat, k: nat)
    requires from < |questions| && to < |questions| && k < |questions|
    ensures DragOver(questions, Some(from), to)[k] ==
      if k == to then questions[from]
      else if from < to && from <= k < to then questions[k + 1]
      else if to < from && to < k <= from then questions[k - 1]
      else questions[k]
  {
    if from != to {
      MoveShifts(questions, from, to, k);
    }
  }

  // ----- Bulk add -----

  /** `lines.map(label => label.trim())`. */
  function TrimAll(lines: seq<string>): (r: seq<string>)
    ensures |r| == |lines| && forall k :: 0 <= k < |lines| ==> r[k] == Trim(lines[k])
  {
    seq(|lines|, k requires 0 <= k < |lines| => Trim(lines[k]))
  }

  /** After trimming, no line starts or ends with whitespace, and a line that
      was already trimmed is kept as it is. */
  lemma TrimAllTrims(lines: seq<string>)
    ensures forall k :: 0 <= k < |lines| ==> IsTrimmed(TrimAll(lines)[k])
    ensures forall k :: 0 <= k < |lines| && IsTrimmed(lines[k]) ==> TrimAll(lines)[k] == lines[k]
  {
    forall k | 0 <= k < |lines| ensures IsTrimmed(TrimAll(lines)[k]) {
      TrimIsTrimmed(lines[k]);
    }
  }

  /** The labels `addMultipleQuestions` reads from the text area. */
  function ParseLabels(text: string): seq<string> {
    Filter(TrimAll(Split(text, '\n')), (line: string) => |line| > 0)
  }

  /** Every label is a non-empty line with no whitespace at either end and
      no line break. */
  lemma LabelsAreTrimmedLines(text: string)
    ensures forall l | l in ParseLabels(text) ::
      l != "" && '\n' !in l && !IsWhitespace(l[0]) && !IsWhitespace(l[|l| - 1])
  {
    forall l | l in ParseLabels(text)
      ensures l != "" && '\n' !in l && !IsWhitespace(l[0]) && !IsWhitespace(l[|l| - 1])
    {
      LabelIsTrimmedLine(text, l);
    }
  }

  /** One label is the trimmed form of one of the lines, and not empty. */
  lemma LabelIsTrimmedLine(text: string, l: string)
    requires l in ParseLabels(text)
    ensures l != "" && '\n' !in l && !IsWhitespace(l[0]) && !IsWhitespace(l[|l| - 1])
  {
    var lines := Split(text, '\n');
    var trimmed := TrimAll(lines);
    assert l in trimmed && |l| > 0;
    var k := IndexOf(trimmed, l);
    TrimmedLine(lines[k]);
  }

  /** Trimming a line without a break gives a trimmed text without a break. */
  lemma TrimmedLine(line: string)
    requires '\n' !in line
    ensures '\n' !in Trim(line)
    ensures Trim(line) != [] ==> !IsWhitespace(Trim(line)[0]) && !IsWhitespace(Trim(line)[|Trim(line)| - 1])
  {
    var i, j := TrimBounds(line);
    TrimIsTrimmed(line);
    assert forall c | c in line[i..j] :: c in line;
  }

  /** The labels are the trimmed lines in order, each non-empty one as often
      as it occurs and the empty ones dropped. */
  lemma LabelsCountTrimmedLines(text: string)
    ensures IsSubsequence(ParseLabels(text), TrimAll(Split(text, '\n')))
    ensures forall l: string :: multiset(ParseLabels(text))[l] ==
                                (if l != "" then multiset(TrimAll(Split(text, '\n')))[l] else 0)
  {
    var trimmed := TrimAll(Split(text, '\n'));
    var nonEmpty := (line: string) => |line| > 0;
    FilterIsSubsequence(trimmed, nonEmpty);
    forall l: string ensures multiset(ParseLabels(text))[l] == if l != "" then multiset(trimmed)[l] else 0 {
      FilterCounts(trimmed, nonEmpty, l);
    }
  }

  /** There are labels exactly when some line is not blank, and each line
      that is not blank gives a label. */
  lemma LabelsOfNonBlankLines(text: string)
    ensures forall k :: 0 <= k < |Split(text, '\n')| && Trim(Split(text, '\n')[k]) != "" ==>
      Trim(Split(text, '\n')[k]) in ParseLabels(text)
    ensures ParseLabels(text) == [] <==> forall k :: 0 <= k < |Split(text, '\n')| ==> Trim(Split(text, '\n')[k]) == ""
  {
    var lines := Split(text, '\n');
    var trimmed := TrimAll(lines);
    forall k | 0 <= k < |lines| && Trim(lines[k]) != ""
      ensures Trim(lines[k]) in ParseLabels(text)
    {
      assert trimmed[k] in trimmed;
    }
    if ParseLabels(text) != [] {
      var l := ParseLabels(text)[0];
      assert l in ParseLabels(text);
      var k :| 0 <= k < |trimmed| && trimmed[k] == l;
    }
  }

  /** Each label is a non-empty trimmed line with no line break and no
      whitespace at either end; the labels keep the order of the lines, and
      no non-blank line is dropped: each non-empty trimmed line is a label as
      often as it occurs among the trimmed lines. */
  lemma ParseLabelsSpec(text: string)
    ensures var labels := ParseLabels(text);
      && (forall l | l in labels :: l != "" && '\n' !in l && !IsWhitespace(l[0]) && !IsWhitespace(l[|l| - 1]))
      && IsSubsequence(labels, TrimAll(Split(text, '\n')))
      && (forall k :: 0 <= k < |Split(text, '\n')| && Trim(Split(text, '\n')[k]) != "" ==>
            Trim(Split(text, '\n')[k]) in labels)
      && (forall l: string :: multiset(labels)[l] ==
            if l != "" then multiset(TrimAll(Split(text, '\n')))[l] else 0)
  {
    LabelsAreTrimmedLines(text);
    LabelsCountTrimmedLines(text);
    LabelsOfNonBlankLines(text);
  }

  /** The text is blank exactly when each of its lines is. */
  lemma BlankTextHasBlankLines(text: string)
    ensures Trim(text) == "" <==> forall k :: 0 <= k < |Split(text, '\n')| ==> Trim(Split(text, '\n')[k]) == ""
  {
    var lines := Split(text, '\n');
    JoinSplit(text, '\n');
    JoinOfBlankPieces(lines, '\n');
    TrimEmptyIffBlank(text);
    forall k | 0 <= k < |lines| ensures Trim(lines[k]) == "" <==> AllWhitespace(lines[k]) {
      TrimEmptyIffBlank(lines[k]);
    }
  }

  /** The Add Questions button is disabled exactly when parsing finds no
      label, so the early return in `addMultipleQuestions` is only reached
      by a click on a disabled button. */
  lemma NoLabelsIffBlankText(text: string)
    ensures ParseLabels(text) == [] <==> Trim(text) == ""
  {
    LabelsOfNonBlankLines(text);
    BlankTextHasBlankLines(text);
  }

  /** One new question per label, in order, with the ids drawn for them. */
  function NewQuestions(labels: seq<string>, freshIds: seq<string>, selectedGroup: string): (r: seq<Question>)
    requires |freshIds| == |labels|
    ensures |r| == |labels|
    ensures forall k :: 0 <= k < |labels| ==> r[k] == CreateQuestion(labels[k], freshIds[k], selectedGroup)
  {
    seq(|labels|, k requires 0 <= k < |labels| => CreateQuestion(labels[k], freshIds[k], selectedGroup))
  }

  // ----- Groups -----

  /** `addGroup()`'s new group. */
  function NewGroup(freshId: string): (g: QuestionGroup)
    ensures g.id == freshId && g.title == "New Group" && g.description.None?
    ensures g.layout == Vertical && g.columns == Some(2)
  {
    QuestionGroup(freshId, "New Group", None, Vertical, Some(2))
  }

  /** A group added under a fresh id is the one the wizard's lookup finds
      under that id, every other id finds what it found before, and the new
      group lays its questions out stacked, with no grid class. */
  lemma {:induction false} AddedGroupIsFound(groups: seq<QuestionGroup>, freshId: string, id: string)
    requires forall k :: 0 <= k < |groups| ==> groups[k].id != freshId
    ensures Wizard.FindGroup(groups + [NewGroup(freshId)], freshId) == Some(NewGroup(freshId))
    ensures id != freshId ==> Wizard.FindGroup(groups + [NewGroup(freshId)], id) == Wizard.FindGroup(groups, id)
    ensures QuestionStep.GetGridColumns(Some(NewGroup(freshId))) == ""
  {
    var added := groups + [NewGroup(freshId)];
    if groups != [] {
      AddedGroupIsFound(groups[1..], freshId, id);
      assert added[1..] == groups[1..] + [NewGroup(freshId)];
    }
  }

  /** `Partial<QuestionGroup>`. */
  datatype GroupPatch = GroupPatch(
    id: Option<string>,
    title: Option<string>,
    description: Option<Option<string>>,
    layout: Option<GroupLayout>,
    columns: Option<Option<int>>)

  /** `{ ...group, ...updates }`. */
  function ApplyGroupPatch(g: QuestionGroup, patch: GroupPatch): (r: QuestionGroup)
    ensures r.id == patch.id.GetOr(g.id) && r.title == patch.title.GetOr(g.title)
    ensures r.description == patch.description.GetOr(g.description)
    ensures r.layout == patch.layout.GetOr(g.layout) && r.columns == patch.columns.GetOr(g.columns)
  {
    QuestionGroup(patch.id.GetOr(g.id), patch.title.GetOr(g.title), patch.description.GetOr(g.description),
                  patch.layout.GetOr(g.layout), patch.columns.GetOr(g.columns))
  }

  /** `updateGroup(groupId, updates)`: every group with the id is patched,
      the others stay. */
  function UpdateGroups(groups: seq<QuestionGroup>, groupId: string, patch: GroupPatch): (r: seq<QuestionGroup>)
    ensures |r| == |groups|
    ensures forall k :: 0 <= k < |groups| ==>
      r[k] == if groups[k].id == groupId then ApplyGroupPatch(groups[k], patch) else groups[k]
  {
    if groups == [] then []
    else [if groups[0].id == groupId then ApplyGroupPatch(groups[0], patch) else groups[0]] +
         UpdateGroups(groups[1..], groupId, patch)
  }

  /** The question half of `removeGroup(groupId)`: its members become
      ungrouped. */
  function UnassignGroup(questions: seq<Question>, groupId: string): (r: seq<Question>)
    ensures |r| == |questions|
    ensures forall k :: 0 <= k < |questions| ==>
      r[k] == if questions[k].group == Some(groupId) then questions[k].(group := None) else questions[k]
  {
    if questions == [] then []
    else [if questions[0].group == Some(groupId) then questions[0].(group := None) else questions[0]] +
         UnassignGroup(questions[1..], groupId)
  }

  /** The group half of `removeGroup(groupId)`. */
  function DropGroup(groups: seq<QuestionGroup>, groupId: string): seq<QuestionGroup> {
    Filter(groups, (g: QuestionGroup) => g.id != groupId)
  }

  /** After removing a group no question is left in it, and every question
      keeps its place and everything but its group. */
  lemma UnassignGroupSpec(questions: seq<Question>, groupId: string)
    ensures QuestionsInGroup(UnassignGroup(questions, groupId), groupId) == []
    ensures forall k :: 0 <= k < |questions| ==>
      UnassignGroup(questions, groupId)[k].(group := questions[k].group) == questions[k]
  {
    QuestionsInGroupSpec(UnassignGroup(questions, groupId), groupId);
  }

  /** The group list loses exactly the groups with the removed id, the rest
      kept as often as they occurred and in order. */
  lemma DropGroupSpec(groups: seq<QuestionGroup>, groupId: string)
    ensures forall g :: g in DropGroup(groups, groupId) <==> g in groups && g.id != groupId
    ensures IsSubsequence(DropGroup(groups, groupId), groups)
    ensures forall g: QuestionGroup | g.id != groupId :: multiset(DropGroup(groups, groupId))[g] == multiset(groups)[g]
  {
    var p := (g: QuestionGroup) => g.id != groupId;
    FilterIsSubsequence(groups, p);
    forall g: QuestionGroup | g.id != groupId ensures multiset(DropGroup(groups, groupId))[g] == multiset(groups)[g] {
      FilterCounts(groups, p, g);
    }
  }

  /** A removed group is no longer found for any question, so the wizard shows
      no group header for its former members. */
  lemma RemovedGroupIsNotFound(groups: seq<QuestionGroup>, groupId: string)
    ensures Wizard.FindGroup(DropGroup(groups, groupId), groupId).None?
  {
    var dropped := DropGroup(groups, groupId);
    forall k | 0 <= k < |dropped| ensures dropped[k].id != groupId {
      assert dropped[k] in dropped;
    }
  }

  // ----- Option labels -----

  /** Typing `text` into option `optionIndex`'s label: the label becomes the
      text, the value its lower-case form, and nothing else changes. */
  function EditOptionLabel(options: seq<AnswerOption>, optionIndex: nat, text: string): (r: seq<AnswerOption>)
    requires optionIndex < |options|
    ensures |r| == |options|
    ensures r[optionIndex] == options[optionIndex].(labelText := text, value := ToLower(text))
    ensures forall k :: 0 <= k < |options| && k != optionIndex ==> r[k] == options[k]
  {
    options[optionIndex := options[optionIndex].(labelText := text, value := ToLower(text))]
  }

  /** An edited option's value has no upper-case letter and is the label
      up to case, so lower-casing it again changes nothing. */
  lemma EditedValueIsLowerCase(options: seq<AnswerOption>, optionIndex: nat, text: string)
    requires optionIndex < |options|
    ensures var v := EditOptionLabel(options, optionIndex, text)[optionIndex].value;
      && |v| == |text|
      && (forall k :: 0 <= k < |v| ==> !IsUpperAscii(v[k]))
      && ToLower(v) == v
  {
    ToLowerIsLower(text);
  }

  // ----- The editor's state -----

  /** The editor component: the two lists it edits through its parent (held
      here as the lists the editor hands to `onChange`/`onGroupsChange`) and
      its own UI state. */
  class FormEditor {
    var questions: seq<Question>
    var groups: seq<QuestionGroup>
    var draggedIndex: Option<nat>
    var isDragging: bool
    var expandedQuestion: Option<string>
    var isAddingMultiple: bool
    var multipleQuestions: string
    var isAddingGroup: bool
    var selectedGroup: string

    constructor (questions: seq<Question>, groups: seq<QuestionGroup>)
      ensures this.questions == questions && this.groups == groups
      ensures draggedIndex.None? && !isDragging && expandedQuestion.None?
      ensures !isAddingMultiple && multipleQuestions == "" && !isAddingGroup && selectedGroup == ""
    {
      this.questions := questions;
      this.groups := groups;
      draggedIndex := None;
      isDragging := false;
      expandedQuestion := None;
      isAddingMultiple := false;
      multipleQuestions := "";
      isAddingGroup := false;
      selectedGroup := "";
    }

    /** `addGroup()`. */
    method AddGroup(freshId: string)
      modifies this
      ensures groups == old(groups) + [NewGroup(freshId)] && !isAddingGroup
      ensures questions == old(questions) && draggedIndex == old(draggedIndex) && selectedGroup == old(selectedGroup)
      ensures expandedQuestion == old(expandedQuestion) && multipleQuestions == old(multipleQuestions)
      ensures isDragging == old(isDragging) && isAddingMultiple == old(isAddingMultiple)
    {
      groups := groups + [NewGroup(freshId)];
      isAddingGroup := false;
    }

    /** `updateGroup(groupId, updates)`. */
    method UpdateGroup(groupId: string, patch: GroupPatch)
      modifies this`groups
      ensures groups == UpdateGroups(old(groups), groupId, patch)
    {
      groups := UpdateGroups(groups, groupId, patch);
    }

    /** `removeGroup(groupId)`. */
    method RemoveGroup(groupId: string)
      modifies this`questions, this`groups
      ensures questions == UnassignGroup(old(questions), groupId)
      ensures groups == DropGroup(old(groups), groupId)
    {
      questions := UnassignGroup(questions, groupId);
      groups := DropGroup(groups, groupId);
    }

    /** `addQuestion()`: append a default question and expand it. */
    method AddQuestion(freshId: string)
      modifies this`questions, this`expandedQuestion
      ensures questions == old(questions) + [CreateQuestion("New Question", freshId, selectedGroup)]
      ensures expandedQuestion == Some(freshId)
    {
      var newQuestion := CreateQuestion("New Question", freshId, selectedGroup);
      questions := questions + [newQuestion];
      expandedQuestion := Some(newQuestion.id);
    }

    /** `addMultipleQuestions()`, given one fresh id per label it will
      create. */
    method AddMultipleQuestions(freshIds: seq<string>)
      requires |freshIds| == |ParseLabels(multipleQuestions)|
      modifies this`questions, this`multipleQuestions, this`isAddingMultiple
      ensures var labels := ParseLabels(old(multipleQuestions));
        if labels == [] then
          questions == old(questions) && multipleQuestions == old(multipleQuestions) &&
          isAddingMultiple == old(isAddingMultiple)
        else
          questions == old(questions) + NewQuestions(labels, freshIds, selectedGroup) &&
          multipleQuestions == "" && !isAddingMultiple
    {
      var labels := ParseLabels(multipleQuestions);
      if |labels| == 0 {
        return;
      }
      var newQuestions := NewQuestions(labels, freshIds, selectedGroup);
      questions := questions + newQuestions;
      multipleQuestions := "";
      isAddingMultiple := false;
    }

    /** `updateQuestion(index, updates)`. */
    method UpdateQuestion(index: nat, patch: QuestionPatch)
      requires index < |questions|
      modifies this`questions
      ensures questions == UpdateQuestionAt(old(questions), index, patch)
    {
      questions := UpdateQuestionAt(questions, index, patch);
    }

    /** `removeQuestion(index)`: also collapses the expanded question. */
    method RemoveQuestion(index: nat)
      modifies this`questions, this`expandedQuestion
      ensures questions == RemoveQuestionAt(old(questions), index) && expandedQuestion.None?
    {
      questions := RemoveQuestionAt(questions, index);
      expandedQuestion := None;
    }

    /** `handleDragStart(index)`. */
    method HandleDragStart(index: nat)
      modifies this`draggedIndex, this`isDragging
      ensures draggedIndex == Some(index) && isDragging
    {
      draggedIndex := Some(index);
      isDragging := true;
    }

    /** `handleDragEnd()`. */
    method HandleDragEnd()
      modifies this`draggedIndex, this`isDragging
      ensures draggedIndex.None? && !isDragging
    {
      draggedIndex := None;
      isDragging := false;
    }

    /** `handleDragOver(index)`: reorder, then follow the dragged question to
      its new index. */
    method HandleDragOver(index: nat)
      requires draggedIndex.Some? ==> draggedIndex.value < |questions|
      requires index < |questions|
      modifies this`questions, this`draggedIndex
      ensures questions == DragOver(old(questions), old(draggedIndex), index)
      ensures draggedIndex == if old(draggedIndex).None? then None else Some(index)
    {
      if draggedIndex.None? || draggedIndex.value == index {
        return;
      }
      questions := Move(questions, draggedIndex.value, index);
      draggedIndex := Some(index);
    }

    /** The onChange of an option's label input. */
    method EditOption(index: nat, optionIndex: nat, text: string)
      requires index < |questions| && optionIndex < |questions[index].options.GetOr([])|
      modifies this`questions
      ensures questions == UpdateQuestionAt(old(questions), index,
        EmptyQuestionPatch.(options := Some(Some(EditOptionLabel(old(questions)[index].options.GetOr([]), optionIndex, text)))))
    {
      var newOptions := EditOptionLabel(questions[index].options.GetOr([]), optionIndex, text);
      UpdateQuestion(index, EmptyQuestionPatch.(options := Some(Some(newOptions))));
    }

    /** The group picker above the question list. */
    method SelectGroup(groupId: string)
      modifies this`selectedGroup
      ensures selectedGroup == groupId
    {
      selectedGroup := groupId;
    }

    /** The bulk-add text area. */
    method SetMultipleQuestions(text: string)
      modifies this`multipleQuestions
      ensures multipleQuestions == text
    {
      multipleQuestions := text;
    }

    /** `getQuestionsInGroup(groupId)`. */
    function GetQuestionsInGroup(groupId: string): (r: seq<Question>)
      reads this
      ensures forall q :: q in r <==> q in questions && q.group == Some(groupId)
      ensures IsSubsequence(r, questions)
      ensures forall q :: multiset(r)[q] == if q.group == Some(groupId) then multiset(questions)[q] else 0
    {
      QuestionsInGroupSpec(questions, groupId);
      QuestionsInGroup(questions, groupId)
    }
  }
}
