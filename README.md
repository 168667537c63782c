# Registration form engine — a Dafny model

This project models the core of a multi-step registration form builder
written in TypeScript and React:

- **The respondent wizard** (`src/components/registration/RegistrationForm.tsx`).
  It evaluates branching conditions against the answers given so far, decides
  which questions are visible, and scans forward and backward past hidden
  questions. It works out what the current step displays: one question, or
  every visible question of its group. It gates the Next button on required
  answers, and Next submits the answers once the last step is reached.
- **The step renderer's logic** (`src/components/registration/QuestionStep.tsx`):
  the multiselect toggle, checkbox state, the grid column class, which input a
  question renders as, and when a validation message shows.
- **The form list store** (`src/hooks/useFormStorage.ts`): the built-in
  default form, the initial load, and add / update / delete, with the default
  theme merged into added and updated forms.
- **The form editor's list operations** (`src/components/admin/FormEditor.tsx`):
  creating questions and groups with their defaults, partial updates,
  removing a question or a group (its questions become ungrouped), the drag
  reorder, bulk add from newline-separated text, and the rule that an
  option's value is its label in lower case.
- **The data types** of `src/types/registration.ts`.

Modules, one concept each:

| file | module | content |
|---|---|---|
| `wrappers.dfy` | `Wrappers` | `Option` |
| `seqs.dfy` | `Seqs` | `filter`, `splice` remove/insert/move on sequences, subsequence order |
| `strings.dfy` | `Strings` | `toLowerCase` (ASCII), `includes`, `split`/`join`, `trim`, decimal rendering |
| `registration.dfy` | `Registration` | the form types, answer truthiness, group membership |
| `question_step.dfy` | `QuestionStep` | the step renderer's logic |
| `wizard.dfy` | `Wizard` | conditions, visibility, navigation, the display, the `Session` class |
| `scenarios.dfy` | `Scenarios` | three end-to-end walks through a `Session` |
| `storage.dfy` | `Storage` | default form and theme, add/update/delete, the `FormStore` class |
| `editor.dfy` | `Editor` | editor list operations, the `FormEditor` class |

State that the source keeps in React hooks becomes classes. The wizard's
`currentStep` and `responses` are fields of `Wizard.Session`. The stored form
list is a field of `Storage.FormStore`. The editor's lists and UI state are
fields of `Editor.FormEditor`. A React setter is modelled as an immediate
field update. The editor's `questions`/`groups` props become fields, and each
of its `onChange`/`onGroupsChange` calls overwrites the matching field with
the list the editor hands over. The model states what the editor asks its
parent to store. How the parent merges two calls made in one handler is a
separate matter (see `Editor.FormEditor.RemoveGroup` under Left out).
`crypto.randomUUID()` becomes a fresh-id parameter. The parsed contents of
`localStorage` become an `Option` parameter of the store's constructor.

Every state-changing method is stated against a pure function of the old
state (`forms == UpdateForms(old(forms), id, patch)`), and the properties are
proved as lemmas about those functions. `Session.GetNextVisibleStep` keeps
the source's `while` loop and is proved equal to the recursive specification
`NextVisibleStep`.

Because a setter takes effect at once in this model, three behaviours of the
model are worth knowing. The first and the third come from the setter that
`getCurrentQuestions` calls during render, where React's own scheduling
behaves differently (see the React scheduling line under Left out). The
second involves no such setter:

- **A hidden last question is displayed.**
  `getNextVisibleStep` returns `maxStep` when no question after the pointer
  is visible, even when that last question is hidden. So with answers that
  hide the last question, the first Next from the step before moves the
  model's pointer onto it. The snap lands on the same index, and the model's
  display is the hidden question. In the model a second Next submits
  (`Scenarios.HiddenLastQuestion`). The form does not complete on the first
  Next, although that question is hidden.
- **An empty form takes two clicks.** With no questions,
  `getNextVisibleStep(0)` is `-1`, so the first Next moves the pointer to
  -1 and a second Next submits. The form does not complete on the first
  Next. `Wizard.PointerInRange` allows -1 for this reason.
- **A second read of the display can differ from the first.** When the
  pointer snaps past a hidden question onto a grouped one, the model's render
  pass shows only the question it landed on. The next pass, from the new
  pointer, shows the whole group (`Wizard.SnapIntoGroupExample`). Reading the
  display is therefore not idempotent in that case. In every other case it
  is (`Wizard.RereadKeepsDisplayUnlessSnappedIntoGroup`).

## Model

| member | source | states |
|---|---|---|
| Registration.IsTruthy | src/components/registration/RegistrationForm.tsx:20 | definition: JavaScript truthiness of an answer; the empty string is falsy, every other string and every list (even []) is truthy |
| Registration.IsAnswered | src/components/registration/RegistrationForm.tsx:185 | definition: `responses[id]` is present and truthy |
| Registration.HasGroup | src/components/registration/RegistrationForm.tsx:72 | definition: `question.group` is present and not the empty string |
| Registration.QuestionsInGroup | src/components/admin/FormEditor.tsx:148-150 | definition: `questions.filter(q => q.group === groupId)`; its properties are `QuestionsInGroupSpec` |
| Registration.QuestionsInGroupSpec | src/components/admin/FormEditor.tsx:148-150 | the questions of a group are exactly the list's questions naming it, in list order, each as often as in the list |
| Wizard.Flatten | src/components/registration/RegistrationForm.tsx:22-23 | definition: a string answer as it is, a list joined with "," and no space |
| Wizard.EvaluateCondition | src/components/registration/RegistrationForm.tsx:18-37 | a condition on a question whose answer is missing or the empty string never holds |
| Wizard.OperatorsOnAnsweredQuestion | src/components/registration/RegistrationForm.tsx:25-36 | for an answered question `not_equals` negates `equals`, `not_contains` negates `contains`, and an unknown operator holds |
| Wizard.EqualsComparesFlattened | src/components/registration/RegistrationForm.tsx:22-27 | `equals` is exact equality of the answer and the value, each with lists joined by "," |
| Wizard.ContainsIsLowerCaseSubstring | src/components/registration/RegistrationForm.tsx:30-31 | `contains` holds iff the lower-cased value occurs at some position of the lower-cased answer |
| Wizard.ContainsIgnoresCase | src/components/registration/RegistrationForm.tsx:30-33 | `contains`/`not_contains` give the same result after lower-casing the value or a single-string answer |
| Wizard.EvaluationSeesFlattenedText | src/components/registration/RegistrationForm.tsx:19-23 | two answered states whose answers join to the same text evaluate every condition alike |
| Wizard.ConditionExamples | src/components/registration/RegistrationForm.tsx:18-37 | "Yes" does not equal "yes" but contains it; ["a","b"] equals "a,b"; an empty selection equals "" |
| Wizard.AllConditionsMet | src/components/registration/RegistrationForm.tsx:44 | definition: `conditions.every(evaluateCondition)`, every condition of the list holds |
| Wizard.ShouldShowQuestion | src/components/registration/RegistrationForm.tsx:39-46 | a question without branching, or with no conditions, is visible |
| Wizard.VisibilityByAction | src/components/registration/RegistrationForm.tsx:44-45 | with conditions, `show` is visible iff all hold and `hide` is visible iff not all hold |
| Wizard.ShowAndHideAreComplements | src/components/registration/RegistrationForm.tsx:45 | flipping a non-empty rule's action flips the visibility |
| Wizard.UnansweredReferenceFallsBack | src/components/registration/RegistrationForm.tsx:19-20 | a rule referring to an unanswered question hides under `show` and shows under `hide` |
| Wizard.VisibilityIgnoresUnreferencedAnswers | src/components/registration/RegistrationForm.tsx:39-46 | answering a question no condition names leaves the visibility unchanged |
| Wizard.VisibleQuestions | src/components/registration/RegistrationForm.tsx:78 | definition: `.filter(shouldShowQuestion)`, the visible questions of a list in order; used with its counts by `DisplayOfVisibleQuestion` |
| Wizard.NextVisibleStep | src/components/registration/RegistrationForm.tsx:48-60 | forward from before the last index lands strictly after the pointer and inside the list, otherwise on the last index; backward from after 0 lands strictly before it, otherwise on 0 |
| Wizard.ForwardScanFindsFirstVisible | src/components/registration/RegistrationForm.tsx:52-59 | the forward scan lands on the first visible question after the pointer, skipping only hidden ones, or clamps to the last index |
| Wizard.BackwardScanFindsNearestVisible | src/components/registration/RegistrationForm.tsx:52-59 | the backward scan lands on the nearest visible question before the pointer, skipping only hidden ones, or clamps to 0 |
| Wizard.ScansStayInRange | src/components/registration/RegistrationForm.tsx:48-60 | both scans keep the pointer an index of the list (or -1/0 for an empty form) |
| Wizard.ForwardStaysExactlyAtLastIndex | src/components/registration/RegistrationForm.tsx:167-173 | the forward scan returns the pointer itself iff the pointer is on the last index |
| Wizard.SnappedStep | src/components/registration/RegistrationForm.tsx:65-69 | the pointer after `getCurrentQuestions` stays in range, and it moves only off a hidden question and only forward |
| Wizard.CurrentQuestions | src/components/registration/RegistrationForm.tsx:62-79 | the display is empty iff the form has no questions, and holds only questions of the form (its cases are stated by the `DisplayOf...` lemmas) |
| Wizard.DisplayOfVisibleQuestion | src/components/registration/RegistrationForm.tsx:72-78 | a visible ungrouped question is shown alone; a grouped one shows exactly the visible questions of its group, in list order and as often as in the list, itself included |
| Wizard.DisplayOfHiddenQuestion | src/components/registration/RegistrationForm.tsx:65-69 | a hidden current question is replaced by the single question the forward scan lands on, and the pointer moves there |
| Wizard.DisplayOfEmptyForm | src/components/registration/RegistrationForm.tsx:63 | a form without questions displays nothing |
| Wizard.SnapIsIdempotent | src/components/registration/RegistrationForm.tsx:66-69 | snapping the pointer a second time does not move it |
| Wizard.RereadKeepsDisplayUnlessSnappedIntoGroup | src/components/registration/RegistrationForm.tsx:62-79 | the display read again at the snapped pointer is unchanged unless the snap landed on a visible grouped question |
| Wizard.SnapIntoGroupExample | src/components/registration/RegistrationForm.tsx:66-78 | a three-question form where, with the setter taking effect at once, the snapped read is one question and the read from the snapped pointer shows its group of two |
| Wizard.FindGroup | src/components/registration/RegistrationForm.tsx:84 | the result is the first group with the id, or none iff no group has it |
| Wizard.CurrentGroup | src/components/registration/RegistrationForm.tsx:81-85 | a group is found only for an in-range grouped question and is a listed group with its id; none iff the pointer is off the list, the question is ungrouped, or the id dangles |
| Wizard.CanProceed | src/components/registration/RegistrationForm.tsx:184-186 | definition: every displayed required question is answered truthily; characterised by `BlockedExactlyByUnansweredRequired` |
| Wizard.BlockedExactlyByUnansweredRequired | src/components/registration/RegistrationForm.tsx:184-186 | Next is blocked iff some displayed required question has no answer or the empty string |
| Wizard.AnsweringUnblocks | src/components/registration/RegistrationForm.tsx:184-186 | a truthy answer to the only blocking question opens Next |
| Wizard.ValidationMessageMarksBlocker | src/components/registration/QuestionStep.tsx:179 | a required question with a message shows it iff it blocks Next, and then Next is blocked |
| Wizard.Session.constructor | src/components/registration/RegistrationForm.tsx:15-16 | a session starts at step 0 with no answers |
| Wizard.Session.GetNextVisibleStep | src/components/registration/RegistrationForm.tsx:48-60 | the loop returns exactly `NextVisibleStep` of the pointer and direction |
| Wizard.Session.GetCurrentQuestions | src/components/registration/RegistrationForm.tsx:62-79 | returns `CurrentQuestions` of the old pointer and moves the pointer to `SnappedStep`, answers unchanged |
| Wizard.Session.IsLastStep | src/components/registration/RegistrationForm.tsx:183 | the step is last iff the forward scan cannot move from it |
| Wizard.Session.HandleResponse | src/components/registration/RegistrationForm.tsx:163-165 | the answer map gains or overwrites that one entry; the pointer stays |
| Wizard.Session.HandleNext | src/components/registration/RegistrationForm.tsx:167-174 | submits the unchanged answers iff the pointer is on the last index, otherwise moves to the forward scan's result |
| Wizard.Session.HandleBack | src/components/registration/RegistrationForm.tsx:176-179 | moves to the backward scan's result and never submits |
| Wizard.Session.Render | src/components/registration/RegistrationForm.tsx:181-186 | one render pass: the display, group, gate, Back-disabled and Submit-label flags of the step it started on |
| Scenarios.RevealBranchedQuestion | src/components/registration/RegistrationForm.tsx:163-186 | Next is blocked on an unanswered required question, opens when it is answered "x", and the next step shows the question shown on "x" |
| Scenarios.HiddenLastQuestion | src/components/registration/RegistrationForm.tsx:52-59 | with the last question hidden and setters taking effect at once, the first Next moves onto it and the display shows it; the second Next submits the unchanged answers |
| Scenarios.GroupedStep | src/components/registration/RegistrationForm.tsx:76-85 | two questions of one group show together under that group, and Next opens once the required one is answered |
| QuestionStep.SelectedValues | src/components/registration/QuestionStep.tsx:59 | definition: `(values[questionId] as string[]) || []`, the stored list, or [] for a missing or empty answer |
| QuestionStep.ToggleOption | src/components/registration/QuestionStep.tsx:60-62 | definition: the list without the value if it holds it, else the list with the value appended; characterised by the `Toggle...` lemmas |
| QuestionStep.HandleMultiSelect | src/components/registration/QuestionStep.tsx:58-64 | definition: the list answer handed to `onChange`, the toggle of the current selection |
| QuestionStep.IsSelected | src/components/registration/QuestionStep.tsx:88 | definition: the option's value is in the current selection |
| QuestionStep.ToggleRemovesValue | src/components/registration/QuestionStep.tsx:60-61 | toggling a selected value removes all its occurrences and keeps every other element, same count, same order |
| QuestionStep.ToggleAppendsValue | src/components/registration/QuestionStep.tsx:62 | toggling an unselected value appends it after the others |
| QuestionStep.ToggleTwiceRestores | src/components/registration/QuestionStep.tsx:58-64 | selecting then deselecting a value gives back the list |
| QuestionStep.ToggleTwiceMovesToEnd | src/components/registration/QuestionStep.tsx:58-64 | deselecting then reselecting moves the value, once, to the end |
| QuestionStep.MultiSelectFlipsOnlyItsOption | src/components/registration/QuestionStep.tsx:58-64 | clicking an option flips its own checkbox (line 88) and no other |
| QuestionStep.EffectiveColumns | src/components/registration/QuestionStep.tsx:151 | definition: `group.columns || 2`, the column count when present and non-zero, else 2 |
| QuestionStep.GetGridColumns | src/components/registration/QuestionStep.tsx:149-152 | the class is empty iff there is no group or its layout is not grid |
| QuestionStep.GridColumnsDefault | src/components/registration/QuestionStep.tsx:151 | a grid group with no (or zero) columns gets "grid-cols-2" |
| QuestionStep.GridColumnsReadBack | src/components/registration/QuestionStep.tsx:151 | for n > 0 columns the class is "grid-cols-" followed by digits whose decimal value is n |
| QuestionStep.PatternOf | src/components/registration/QuestionStep.tsx:126 | definition: `question.validation?.pattern`, the pattern when there is a validation record that has one, else none |
| QuestionStep.RenderInput | src/components/registration/QuestionStep.tsx:114-147 | text/email/phone give a text input typed "text"/"email"/"tel" with the validation pattern; date gives a date input; select/multiselect give the "no options" notice iff options are missing or empty, else a dropdown/checkboxes over exactly the options |
| QuestionStep.TextInputTypes | src/components/registration/QuestionStep.tsx:121 | a text-like input is typed "text", "email" or "tel" |
| QuestionStep.HasValidationMessage | src/components/registration/QuestionStep.tsx:179 | definition: `question.validation?.message` is truthy, a validation record with a non-empty message |
| QuestionStep.ShowsValidationMessage | src/components/registration/QuestionStep.tsx:179 | definition: the question has a non-empty message and its answer is missing or the empty string |
| Storage.DefaultTheme | src/hooks/useFormStorage.ts:108-117 | definition: the ten theme settings with their default values |
| Storage.MergedTheme | src/hooks/useFormStorage.ts:131-145 | the merged theme has every default, stored and updated key; an updated key takes the update, else the stored value, else the default |
| Storage.MergeIsIdempotent | src/hooks/useFormStorage.ts:131-145 | merging the same theme update twice gives what merging it once gave |
| Storage.NewForm | src/hooks/useFormStorage.ts:100-120 | the new form has the fresh id, the draft's fields, status draft and empty lists when missing; its theme has exactly the default keys and the draft's keys, a draft key takes the draft's value, and every other default key its default value |
| Storage.ApplyPatch | src/hooks/useFormStorage.ts:128-146 | each field comes from the patch when present, else from the form; the theme is the three-way merge |
| Storage.UpdateForms | src/hooks/useFormStorage.ts:125-150 | same length; each form with the id is patched, every other form is unchanged |
| Storage.UpdateOfUnknownIdIsNoOp | src/hooks/useFormStorage.ts:126-148 | an update to an id no form has changes nothing |
| Storage.UpdatedFormHasFullTheme | src/hooks/useFormStorage.ts:131-145 | an updated form has every default theme key, the patch's theme values, and its own values for keys the patch lacks |
| Storage.UpdateIsIdempotent | src/hooks/useFormStorage.ts:125-150 | applying the same update twice equals applying it once |
| Storage.DeleteForms | src/hooks/useFormStorage.ts:156-158 | definition: `prev.filter(form => form.id !== id)`; characterised by `DeleteSpec` |
| Storage.DeleteSpec | src/hooks/useFormStorage.ts:156-158 | delete removes every form with the id, keeps every other form as often and in order, and changes nothing for an unknown id |
| Storage.DefaultForms | src/hooks/useFormStorage.ts:6-88 | definition: the built-in form list, written out; its shape is stated by the `Default...` lemmas |
| Storage.DefaultFormShape | src/hooks/useFormStorage.ts:6-88 | the built-in list is one published form with six questions, no groups and no theme |
| Storage.DefaultQuestionsDistinct | src/hooks/useFormStorage.ts:13-86 | the built-in question ids are distinct and all but "phone" are required |
| Storage.DefaultQuestionsShowOneByOne | src/hooks/useFormStorage.ts:13-86 | every built-in question is visible to everyone and displayed alone on its step |
| Storage.DefaultFormGetsThemeOnUpdate | src/hooks/useFormStorage.ts:131-145 | the first update of the built-in form without a theme gives it exactly the default theme |
| Storage.FreshIdAddressesOnlyNewForm | src/hooks/useFormStorage.ts:100-158 | after adding under a fresh id, update and delete by that id reach only the new form |
| Storage.FormStore.constructor | src/hooks/useFormStorage.ts:91-94 | the initial list is the stored list when there is one, else the built-in list |
| Storage.FormStore.AddForm | src/hooks/useFormStorage.ts:100-123 | returns `NewForm` of the draft and appends it to the list |
| Storage.FormStore.UpdateForm | src/hooks/useFormStorage.ts:125-150 | the list becomes `UpdateForms` of the old list |
| Storage.FormStore.DeleteForm | src/hooks/useFormStorage.ts:156-158 | the list becomes `DeleteForms` of the old list |
| Editor.CreateQuestion | src/components/admin/FormEditor.tsx:38-56 | a new question has the fresh id and label, type text, not required, empty conditions with action show, empty options and placeholder, an empty message, and the picked group or none for the empty picker |
| Editor.CreatedQuestionIsOpen | src/components/admin/FormEditor.tsx:38-56 | a new question is visible to everyone, never blocks Next, shows no message and renders as a plain text input |
| Editor.ApplyQuestionPatch | src/components/admin/FormEditor.tsx:107-110 | each field comes from the patch when present, else from the question |
| Editor.QuestionPatchLaws | src/components/admin/FormEditor.tsx:107-110 | the empty patch is the identity, and a patch applied twice acts once |
| Editor.UpdateQuestionAt | src/components/admin/FormEditor.tsx:105-112 | only element `index` changes, to the patched question; the length stays |
| Editor.RemoveQuestionAt | src/components/admin/FormEditor.tsx:114-117 | for an index in range the list loses exactly that element, the rest in order; past the end it is unchanged |
| Editor.DragOver | src/components/admin/FormEditor.tsx:132-142 | no change without a drag or on the dragged row; otherwise a permutation of the same length with the dragged question at the target |
| Editor.DragThereAndBack | src/components/admin/FormEditor.tsx:136-141 | dragging a question to a row and back restores the list |
| Editor.DragShiftsBetween | src/components/admin/FormEditor.tsx:136-138 | the rows between the two positions shift by one toward the old position, the others stay |
| Editor.TrimAll | src/components/admin/FormEditor.tsx:94 | each line is replaced by its trimmed form, one entry per line (definition; its own property is `TrimAllTrims`) |
| Editor.TrimAllTrims | src/components/admin/FormEditor.tsx:94 | after the map no line starts or ends with whitespace, and a line that was already trimmed is kept as it is |
| Editor.ParseLabels | src/components/admin/FormEditor.tsx:92-95 | definition: split on newlines, trim each line, keep the non-empty ones; characterised by `ParseLabelsSpec` |
| Editor.ParseLabelsSpec | src/components/admin/FormEditor.tsx:92-95 | every label is a non-empty line with no break and no whitespace at its ends, the labels keep the lines' order, and each non-empty trimmed line is a label exactly as often as it occurs |
| Editor.NoLabelsIffBlankText | src/components/admin/FormEditor.tsx:97 | parsing finds no label iff the trimmed text is empty, which is when the button is disabled (line 697) |
| Editor.NewQuestions | src/components/admin/FormEditor.tsx:99 | one default question per label, in order |
| Editor.NewGroup | src/components/admin/FormEditor.tsx:58-64 | a new group is titled "New Group", vertical, with two columns and no description |
| Editor.AddedGroupIsFound | src/components/admin/FormEditor.tsx:58-67 | a group added under a fresh id is what the wizard's lookup finds under that id, other ids find what they found before, and the new group has no grid class |
| Editor.ApplyGroupPatch | src/components/admin/FormEditor.tsx:71 | each field comes from the patch when present, else from the group |
| Editor.UpdateGroups | src/components/admin/FormEditor.tsx:69-74 | same length; each group with the id is patched, the others are unchanged |
| Editor.UnassignGroup | src/components/admin/FormEditor.tsx:78-80 | same length; the questions of the group lose their group and the others are unchanged |
| Editor.DropGroup | src/components/admin/FormEditor.tsx:82 | definition: `groups.filter(g => g.id !== groupId)`; characterised by `DropGroupSpec` |
| Editor.UnassignGroupSpec | src/components/admin/FormEditor.tsx:76-81 | no question is left in the removed group, and each keeps its place and all but its group |
| Editor.DropGroupSpec | src/components/admin/FormEditor.tsx:82 | the groups with the id are dropped, the others kept as often and in order |
| Editor.RemovedGroupIsNotFound | src/components/admin/FormEditor.tsx:82 | the wizard's group lookup finds no group under the removed id |
| Editor.EditOptionLabel | src/components/admin/FormEditor.tsx:398-405 | the edited option gets the label and its lower-case form as value; the other options are unchanged |
| Editor.EditedValueIsLowerCase | src/components/admin/FormEditor.tsx:403 | the edited value has the label's length, no upper-case letter, and is fixed by lower-casing |
| Editor.FormEditor.constructor | src/components/admin/FormEditor.tsx:28-35 | the editor starts with the given lists, no drag, nothing expanded and an empty text area and picker |
| Editor.FormEditor.AddGroup | src/components/admin/FormEditor.tsx:58-67 | appends `NewGroup` and closes the group form; nothing else changes |
| Editor.FormEditor.UpdateGroup | src/components/admin/FormEditor.tsx:69-74 | the groups become `UpdateGroups` of the old ones |
| Editor.FormEditor.RemoveGroup | src/components/admin/FormEditor.tsx:76-83 | the lists FormEditor hands to its two callbacks: questions become `UnassignGroup` and groups `DropGroup` of the old ones (what the parent stores is under Left out) |
| Editor.FormEditor.AddQuestion | src/components/admin/FormEditor.tsx:85-89 | appends a default "New Question" in the picked group and expands it |
| Editor.FormEditor.AddMultipleQuestions | src/components/admin/FormEditor.tsx:91-103 | with no labels nothing changes; otherwise one question per label is appended in order, the text area is cleared and closed |
| Editor.FormEditor.UpdateQuestion | src/components/admin/FormEditor.tsx:105-112 | the questions become `UpdateQuestionAt` of the old ones |
| Editor.FormEditor.RemoveQuestion | src/components/admin/FormEditor.tsx:114-119 | the questions become `RemoveQuestionAt` of the old ones and nothing is expanded |
| Editor.FormEditor.HandleDragStart | src/components/admin/FormEditor.tsx:121-125 | the drag starts at the index |
| Editor.FormEditor.HandleDragEnd | src/components/admin/FormEditor.tsx:127-130 | the drag ends |
| Editor.FormEditor.HandleDragOver | src/components/admin/FormEditor.tsx:132-142 | the questions become `DragOver` of the old ones, and the dragged index follows the question to the target |
| Editor.FormEditor.EditOption | src/components/admin/FormEditor.tsx:398-405 | the question's options become `EditOptionLabel` of the old ones, through `UpdateQuestionAt` |
| Editor.FormEditor.SelectGroup | src/components/admin/FormEditor.tsx:254-256 | the picker holds the chosen group id |
| Editor.FormEditor.SetMultipleQuestions | src/components/admin/FormEditor.tsx:680-682 | the text area holds the typed text |
| Editor.FormEditor.GetQuestionsInGroup | src/components/admin/FormEditor.tsx:148-150 | the result holds exactly the questions naming the group, as a subsequence of the list, each as often as in the list |
| Seqs.Filter | src/components/registration/RegistrationForm.tsx:76-78 | `filter` keeps exactly the elements that pass, never lengthening the list |
| Seqs.FilterIsSubsequence | src/hooks/useFormStorage.ts:157 | a filtered list keeps its elements' order |
| Seqs.FilterCounts | src/hooks/useFormStorage.ts:157 | a filter keeps each passing element as often as it occurred and drops the others |
| Seqs.RemoveAt | src/components/admin/FormEditor.tsx:116 | `splice(i, 1)` drops exactly element i, shifting the rest down |
| Seqs.InsertAt | src/components/admin/FormEditor.tsx:138 | `splice(i, 0, x)` puts x at i, shifting the rest up |
| Seqs.Move | src/components/admin/FormEditor.tsx:136-138 | the moved list is a permutation with the element at its target |
| Seqs.MoveShifts | src/components/admin/FormEditor.tsx:136-138 | where each element of a moved list comes from |
| Seqs.MoveBack | src/components/admin/FormEditor.tsx:136-138 | moving an element back to where it came from restores the list |
| Strings.ToLower | src/components/registration/RegistrationForm.tsx:31 | `toLowerCase` keeps the length and lower-cases each ASCII letter |
| Strings.ToLowerIsLower | src/components/registration/RegistrationForm.tsx:31 | a lower-cased string has no upper-case letter and lower-casing it again changes nothing |
| Strings.Includes | src/components/registration/RegistrationForm.tsx:31 | definition: `hay.includes(needle)`, the needle is a prefix of some suffix; characterised by `IncludesIffOccurs` |
| Strings.IncludesIffOccurs | src/components/registration/RegistrationForm.tsx:31 | `includes` holds iff the needle occurs at some position |
| Strings.Join | src/components/registration/RegistrationForm.tsx:22 | definition: `xs.join(sep)`, the pieces with the separator between consecutive ones; related to `Split` by `JoinSplit` and `SplitJoin` |
| Strings.Split | src/components/admin/FormEditor.tsx:93 | `split` gives at least one piece and no piece contains the separator |
| Strings.JoinSplit | src/components/admin/FormEditor.tsx:93 | joining the pieces of a split with the separator gives back the text |
| Strings.SplitJoin | src/components/admin/FormEditor.tsx:93 | splitting a join of separator-free pieces gives back the pieces |
| Strings.JoinOfBlankPieces | src/components/admin/FormEditor.tsx:92-95 | a join with a whitespace separator is blank iff every piece is |
| Strings.TrimStart | src/components/admin/FormEditor.tsx:94 | the start is cut to the first non-whitespace character, and only whitespace is cut |
| Strings.TrimEnd | src/components/admin/FormEditor.tsx:94 | the end is cut after the last non-whitespace character, and only whitespace is cut |
| Strings.Trim | src/components/admin/FormEditor.tsx:94 | definition: `trimEnd` after `trimStart`; characterised by `TrimSlice` and `TrimEmptyIffBlank` |
| Strings.TrimSlice | src/components/admin/FormEditor.tsx:94 | `trim` gives a slice of the input with whitespace cut off both ends and none left at either end |
| Strings.TrimEmptyIffBlank | src/components/admin/FormEditor.tsx:697 | the trimmed text is empty iff the text is all whitespace |
| Strings.NatToString | src/components/registration/QuestionStep.tsx:151 | the decimal rendering is non-empty digits with no leading zero |
| Strings.NatToStringRoundTrip | src/components/registration/QuestionStep.tsx:151 | reading the rendering back gives the number |
| Strings.IntToString | src/components/registration/QuestionStep.tsx:151 | definition: the template rendering of an integer; a minus sign followed by the digits of its magnitude for a negative number, else the digits of `NatToString` |

## Left out

- Persistence: the effect writing the list to `localStorage` on every change (useFormStorage.ts:96-98) and JSON parsing. The stored list arrives already parsed, and a parse failure is not modelled.
- Ids: `crypto.randomUUID()` is a parameter. That the ids are fresh is an assumption stated where it matters (`Storage.FreshIdAddressesOnlyNewForm`).
- Rendering: theme CSS generation and injection, styles, the progress bar, routing, the branching condition editor dialog, logo upload through a file reader, the scheduled-date picker and all markup. The model keeps only the values the markup shows: the display, the group, the gate and the button flags.
- React scheduling: setters take effect at once, and the setter called during render (RegistrationForm.tsx:69) is an ordinary update that the next `Session.Render` sees. React instead throws away a render that sets its own component's state and renders again before committing. The model therefore does not capture two things. First, React does not commit the pass that shows one question after a snap onto a grouped question, so the user sees the group at once (`Wizard.SnapIntoGroupExample` describes the discarded pass). Second, on a hidden question at the last index every render calls `setCurrentStep(maxStep)` again (lines 52-59 and 69). That is a re-render loop React aborts with its "Too many re-renders" error, so the wizard breaks there rather than waiting for the second Next of `Scenarios.HiddenLastQuestion`. Batching and effect timing are not modelled either.
- Regular-expression patterns and length limits in `validation`: the code never enforces them. Only `pattern` reaches the input, as an attribute (QuestionStep.tsx:120-127). The wizard has no `<form>`, so nothing blocks Next on it. They are carried as data only.
- Case conversion covers ASCII letters only. Full Unicode `toLowerCase` mappings are not modelled.
- `Strings.IsWhitespace` follows the ECMAScript WhiteSpace and LineTerminator code points for `trim`. Characters outside Dafny's `char` range are not modelled.
- JavaScript object-key quirks: looking up a key such as `__proto__` in the answer map would find inherited members. Answers are a plain map.
- Question types and operators: a stored question with an unknown `type` (which renders nothing) is not representable. An unknown operator is (`OtherOperator`, which always holds).
- Numeric oddities: group `columns` is an integer. `parseInt` yielding `NaN` from the editor's column input is not modelled.
- Patches: a patch field explicitly set to `undefined` is modelled only for optional fields (`Some(None)`). For required fields (`title`, `label`, ...) it would break the TypeScript type and is left out.
- QuestionStep.HandleMultiSelect: requires the stored answer to be a list, missing, or the empty string. The source casts it with `as string[]`, and for a non-empty string `includes`/`filter` would work on characters or fail.
- Editor.FormEditor.RemoveGroup: the contract, `UnassignGroupSpec` and `RemovedGroupIsNotFound` state what the editor hands to its two callbacks (FormEditor.tsx:81-82), not what the parent stores. The only parent, `EditForm.tsx`, applies each callback as `setFormData({...formData, ...})` from the same render's `formData` (lines 17-23 and 205-212). The groups update therefore overwrites the questions update, and the stored questions keep the deleted group id.
- Editor.FormEditor.UpdateQuestion: requires the index to be in range. The editor only passes indices of rendered rows, and an out-of-range write would create a hole in the array.
- Editor.FormEditor.HandleDragOver: requires the dragged and hovered indices to be rows of the list. Both come from rendered rows, and `handleDrop` only prevents the browser default.
- Editor.FormEditor.EditOption: requires the option index to be one of the question's options, as the rendered option rows guarantee. Adding and deleting options, and the branching dialog's edits, go through `UpdateQuestion` with a patch and are not separate members.
- Pure UI toggles (`setIsAddingGroup(true)`, `setIsAddingMultiple(true)`, `setExpandedQuestion` on expand/collapse, `setShowBranchingModal`) are not members.
