/** The form list kept by src/hooks/useFormStorage.ts: the built-in default
    form, the initial load, and the add / update / delete operations on the
    list, with the default theme that add and update merge in. */
module Storage {
  import opened Wrappers
  import opened Seqs
  import opened Registration
  import Wizard

  // ----- Theme defaults -----

  /** The ten theme settings add and update always fill in. */
  function DefaultTheme(): Theme {
    map[
      "primaryColor" := Setting("#3B82F6"),
      "backgroundColor" := Setting("#FFFFFF"),
      "textColor" := Setting("#1F2937"),
      "borderRadius" := Setting("0.5rem"),
      "spacing" := Setting("1.5rem"),
      "questionSpacing" := Setting("2rem"),
      "buttonStyle" := Setting("solid"),
      "layout" := Setting("default"),
      "alignment" := Setting("left"),
      "customCSS" := Setting("")]
  }

  /** `{ ...defaults, ...(stored || {}), ...(updates || {}) }`: every key of
      the three, each taking the value of the last source that has it. */
  function MergedTheme(stored: Theme, updates: Theme): (theme: Theme)
    ensures theme.Keys == DefaultTheme().Keys + stored.Keys + updates.Keys
    ensures forall k | k in updates :: theme[k] == updates[k]
    ensures forall k | k in stored && k !in updates :: theme[k] == stored[k]
    ensures forall k | k in DefaultTheme() && k !in stored && k !in updates :: theme[k] == DefaultTheme()[k]
  {
    DefaultTheme() + stored + updates
  }

  /** Merging the same theme twice gives what merging it once gave. */
  lemma MergeIsIdempotent(stored: Theme, updates: Theme)
    ensures MergedTheme(MergedTheme(stored, updates), updates) == MergedTheme(stored, updates)
  {
    var once := MergedTheme(stored, updates);
    var twice := MergedTheme(once, updates);
    assert twice.Keys == once.Keys;
    forall k | k in once ensures twice[k] == once[k] {
    }
  }

  // ----- Creating a form -----

  /** `Omit<RegistrationForm, 'id'>` as `addForm` receives it: the fields
      that may be missing are options. */
  datatype FormDraft = FormDraft(
    title: string,
    description: Option<string>,
    status: Option<FormStatus>,
    scheduledDate: Option<string>,
    questions: Option<seq<Question>>,
    groups: Option<seq<QuestionGroup>>,
    theme: Option<Theme>)

  /** The form `addForm` builds from a draft and a fresh id. */
  function NewForm(draft: FormDraft, freshId: string): (form: RegistrationForm)
    ensures form.id == freshId
    ensures form.title == draft.title && form.description == draft.description
    ensures form.scheduledDate == draft.scheduledDate
    ensures form.status == if draft.status.Some? then draft.status.value else Draft
    ensures form.questions == if draft.questions.Some? then draft.questions.value else []
    ensures form.groups == if draft.groups.Some? then draft.groups.value else []
    ensures DefaultTheme().Keys <= form.theme.Keys
    ensures form.theme.Keys == DefaultTheme().Keys + draft.theme.GetOr(map[]).Keys
    ensures draft.theme.Some? ==> forall k | k in draft.theme.value :: k in form.theme && form.theme[k] == draft.theme.value[k]
    ensures forall k | k in DefaultTheme() && k !in draft.theme.GetOr(map[]) :: k in form.theme && form.theme[k] == DefaultTheme()[k]
  {
    RegistrationForm(
      freshId,
      draft.title,
      draft.description,
      draft.status.GetOr(Draft),
      draft.scheduledDate,
      draft.questions.GetOr([]),
      draft.groups.GetOr([]),
      MergedTheme(draft.theme.GetOr(map[]), map[]))
  }

  // ----- Updating a form -----

  /** `Partial<RegistrationForm>`: a field that is `None` is absent from the
      patch; the optional fields take `Some(None)` to clear them. */
  datatype FormPatch = FormPatch(
    id: Option<string>,
    title: Option<string>,
    description: Option<Option<string>>,
    status: Option<FormStatus>,
    scheduledDate: Option<Option<string>>,
    questions: Option<seq<Question>>,
    groups: Option<seq<QuestionGroup>>,
    theme: Option<Theme>)

  /** `{ ...form, ...updates, theme: merged }` for one matching form. */
  function ApplyPatch(form: RegistrationForm, patch: FormPatch): (updated: RegistrationForm)
    ensures updated.id == patch.id.GetOr(form.id)
    ensures updated.title == patch.title.GetOr(form.title)
    ensures updated.description == patch.description.GetOr(form.description)
    ensures updated.status == patch.status.GetOr(form.status)
    ensures updated.scheduledDate == patch.scheduledDate.GetOr(form.scheduledDate)
    ensures updated.questions == patch.questions.GetOr(form.questions)
    ensures updated.groups == patch.groups.GetOr(form.groups)
    ensures updated.theme == MergedTheme(form.theme, patch.theme.GetOr(map[]))
  {
    RegistrationForm(
      patch.id.GetOr(form.id),
      patch.title.GetOr(form.title),
      patch.description.GetOr(form.description),
      patch.status.GetOr(form.status),
      patch.scheduledDate.GetOr(form.scheduledDate),
      patch.questions.GetOr(form.questions),
      patch.groups.GetOr(form.groups),
      MergedTheme(form.theme, patch.theme.GetOr(map[])))
  }

  /** `prev.map(form => form.id === id ? patched : form)`. */
  function UpdateForms(forms: seq<RegistrationForm>, id: string, patch: FormPatch): (updated: seq<RegistrationForm>)
    ensures |updated| == |forms|
    ensures forall i :: 0 <= i < |forms| ==>
      updated[i] == if forms[i].id == id then ApplyPatch(forms[i], patch) else forms[i]
  {
    if forms == [] then []
    else [if forms[0].id == id then ApplyPatch(forms[0], patch) else forms[0]] + UpdateForms(forms[1..], id, patch)
  }

  /** An update to an id no form has changes nothing. */
  lemma UpdateOfUnknownIdIsNoOp(forms: seq<RegistrationForm>, id: string, patch: FormPatch)
    requires forall i :: 0 <= i < |forms| ==> forms[i].id != id
    ensures UpdateForms(forms, id, patch) == forms
  {
  }

  /** An updated form carries every default theme key, and its notion of
      the rest of the form comes from the patch where the patch has it. */
  lemma UpdatedFormHasFullTheme(forms: seq<RegistrationForm>, id: string, patch: FormPatch, i: nat)
    requires i < |forms| && forms[i].id == id
    ensures DefaultTheme().Keys <= UpdateForms(forms, id, patch)[i].theme.Keys
    ensures patch.theme.Some? ==> forall k | k in patch.theme.value ::
      UpdateForms(forms, id, patch)[i].theme[k] == patch.theme.value[k]
    ensures forall k | k in forms[i].theme && (patch.theme.None? || k !in patch.theme.value) ::
      UpdateForms(forms, id, patch)[i].theme[k] == forms[i].theme[k]
  {
  }

  /** Applying the same update a second time changes nothing more (even
      when the patch renames the form, the second pass then finds none). */
  lemma UpdateIsIdempotent(forms: seq<RegistrationForm>, id: string, patch: FormPatch)
    ensures UpdateForms(UpdateForms(forms, id, patch), id, patch) == UpdateForms(forms, id, patch)
  {
    var once := UpdateForms(forms, id, patch);
    forall i | 0 <= i < |forms|
      ensures UpdateForms(once, id, patch)[i] == once[i]
    {
      if once[i].id == id {
        assert forms[i].id == id;
        MergeIsIdempotent(forms[i].theme, patch.theme.GetOr(map[]));
      }
    }
  }

  // ----- Deleting a form -----

  /** `prev.filter(form => form.id !== id)`. */
  function DeleteForms(forms: seq<RegistrationForm>, id: string): seq<RegistrationForm> {
    Filter(forms, (f: RegistrationForm) => f.id != id)
  }

  /** Delete removes every form with the id, keeps every other form as often
      as it occurred and in order, and is a no-op for an unknown id. */
  lemma DeleteSpec(forms: seq<RegistrationForm>, id: string)
    ensures forall f :: f in DeleteForms(forms, id) <==> f in forms && f.id != id
    ensures forall f: RegistrationForm | f.id != id :: multiset(DeleteForms(forms, id))[f] == multiset(forms)[f]
    ensures IsSubsequence(DeleteForms(forms, id), forms)
    ensures (forall i :: 0 <= i < |forms| ==> forms[i].id != id) ==> DeleteForms(forms, id) == forms
  {
    var p := (f: RegistrationForm) => f.id != id;
    forall f: RegistrationForm | f.id != id ensures multiset(DeleteForms(forms, id))[f] == multiset(forms)[f] {
      FilterCounts(forms, p, f);
    }
    FilterIsSubsequence(forms, p);
    if forall i :: 0 <= i < |forms| ==> forms[i].id != id {
      FilterKeepsAll(forms, p);
    }
  }

  // ----- The built-in form -----

  function FullName(): Question {
    Question("fullname", Text, "Full Name", true, Some("Enter your full name"), None,
             Some(Validation(Some("^[a-zA-Z\\s]{2,}$"), Some("Please enter your full name (minimum 2 characters)"), None, None)),
             None, None)
  }

  function EmailAddress(): Question {
    Question("email", Email, "Email Address", true, Some("you@example.com"), None,
             Some(Validation(Some("[a-z0-9._%+-]+@[a-z0-9.-]+\\.[a-z]{2,}$"), Some("Please enter a valid email address"), None, None)),
             None, None)
  }

  function PhoneNumber(): Question {
    Question("phone", Phone, "Phone Number", false, Some("+1 (555) 000-0000"), None,
             Some(Validation(Some("^\\+?[1-9]\\d{1,14}$"), Some("Please enter a valid phone number"), None, None)),
             None, None)
  }

  function Role(): Question {
    Question("role", Select, "Role", true, Some("Select your role"),
             Some([AnswerOption("developer", "Developer", "developer"),
                   AnswerOption("designer", "Designer", "designer"),
                   AnswerOption("manager", "Project Manager", "manager"),
                   AnswerOption("other", "Other", "other")]),
             None, None, None)
  }

  function Skills(): Question {
    Question("skills", Multiselect, "Skills", true, None,
             Some([AnswerOption("js", "JavaScript", "javascript"),
                   AnswerOption("react", "React", "react"),
                   AnswerOption("node", "Node.js", "nodejs"),
                   AnswerOption("ts", "TypeScript", "typescript"),
                   AnswerOption("ui", "UI Design", "ui"),
                   AnswerOption("ux", "UX Design", "ux")]),
             Some(Validation(None, Some("Please select at least one skill"), None, None)),
             None, None)
  }

  function StartDate(): Question {
    Question("start_date", Date, "Available Start Date", true, None, None,
             Some(Validation(None, Some("Please select your available start date"), None, None)),
             None, None)
  }

  /** `DEFAULT_FORMS`: one published form, no groups, and no theme at all. */
  function DefaultForms(): seq<RegistrationForm> {
    [RegistrationForm("default-user-registration", "User Registration",
                      Some("Collect essential information from new users"), Published, None,
                      [FullName(), EmailAddress(), PhoneNumber(), Role(), Skills(), StartDate()],
                      [], map[])]
  }

  /** The built-in list: one published form with six questions, no groups
      and no theme at all. */
  lemma DefaultFormShape()
    ensures |DefaultForms()| == 1
    ensures var form := DefaultForms()[0];
      form.status == Published && |form.questions| == 6 && form.groups == [] && form.theme == map[]
  {
  }

  /** The six built-in questions have distinct ids, and all but the phone
      number are required. */
  lemma DefaultQuestionsDistinct()
    ensures var questions := DefaultForms()[0].questions;
      && (forall i, j :: 0 <= i < j < |questions| ==> questions[i].id != questions[j].id)
      && (forall i :: 0 <= i < |questions| ==> (questions[i].required <==> questions[i].id != "phone"))
  {
    var questions := DefaultForms()[0].questions;
    assert questions == [FullName(), EmailAddress(), PhoneNumber(), Role(), Skills(), StartDate()];
  }

  /** Without branching rules or groups, every built-in question is visible
      to every respondent and is displayed alone on its own step. */
  lemma DefaultQuestionsShowOneByOne(responses: Answers, i: nat)
    requires i < 6
    ensures Wizard.ShouldShowQuestion(DefaultForms()[0].questions[i], responses)
    ensures Wizard.CurrentQuestions(DefaultForms()[0].questions, responses, i) == [DefaultForms()[0].questions[i]]
  {
    var questions := DefaultForms()[0].questions;
    assert questions[i].branching.None? && questions[i].group.None?;
  }

  /** The first update of the built-in form fills in the whole default
      theme. */
  lemma DefaultFormGetsThemeOnUpdate(patch: FormPatch)
    requires patch.theme.None?
    ensures UpdateForms(DefaultForms(), "default-user-registration", patch)[0].theme == DefaultTheme()
  {
    assert DefaultTheme() + map[] + map[] == DefaultTheme();
  }

  // ----- The hook's state -----

  /** The `forms` state of the hook; the effect that writes it back to
      `localStorage` after every change is outside the model. */
  class FormStore {
    var forms: seq<RegistrationForm>

    /** The lazy initial state: the parsed stored list when something is
        stored, the built-in list otherwise. */
    constructor (stored: Option<seq<RegistrationForm>>)
      ensures forms == if stored.Some? then stored.value else DefaultForms()
    {
      forms := if stored.Some? then stored.value else DefaultForms();
    }

    /** `addForm(draft)`: append the completed form and return it. */
    method AddForm(draft: FormDraft, freshId: string) returns (newForm: RegistrationForm)
      modifies this
      ensures newForm == NewForm(draft, freshId)
      ensures forms == old(forms) + [newForm]
    {
      newForm := NewForm(draft, freshId);
      forms := forms + [newForm];
    }

    /** `updateForm(id, updates)`. */
    method UpdateForm(id: string, patch: FormPatch)
      modifies this
      ensures forms == UpdateForms(old(forms), id, patch)
    {
      forms := UpdateForms(forms, id, patch);
    }

    /** `deleteForm(id)`. */
    method DeleteForm(id: string)
      modifies this
      ensures forms == DeleteForms(old(forms), id)
    {
      forms := DeleteForms(forms, id);
    }
  }

  /** A form added under a fresh id is the only one an update or delete by
      that id reaches. */
  lemma FreshIdAddressesOnlyNewForm(forms: seq<RegistrationForm>, draft: FormDraft, freshId: string, patch: FormPatch)
    requires forall i :: 0 <= i < |forms| ==> forms[i].id != freshId
    ensures UpdateForms(forms + [NewForm(draft, freshId)], freshId, patch) ==
            forms + [ApplyPatch(NewForm(draft, freshId), patch)]
    ensures DeleteForms(forms + [NewForm(draft, freshId)], freshId) == forms
  {
    var added := forms + [NewForm(draft, freshId)];
    var p := (f: RegistrationForm) => f.id != freshId;
    FilterConcat(forms, [NewForm(draft, freshId)], p);
    FilterKeepsAll(forms, p);
    assert Filter([NewForm(draft, freshId)], p) == [];
  }
}
