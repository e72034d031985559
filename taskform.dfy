/**
 * The "new task" form: its data, its per-field errors, the validation it
 * runs on submit, and the reset after a successful submit.
 */
module TaskForm {
  import opened Types
  import opened Text

  datatype FormField = TitleField | DescriptionField | SectorField | TypeField | UrgencyField | DueDateField

  const TitleRequired: string := "Título é obrigatório"
  const DescriptionRequired: string := "Descrição é obrigatória"
  const SectorRequired: string := "Setor é obrigatório"

  /** The fields the form insists on, and the message each gets when missing. */
  function RequiredMessage(f: FormField): Option<string> {
    match f
    case TitleField => Some(TitleRequired)
    case DescriptionField => Some(DescriptionRequired)
    case SectorField => Some(SectorRequired)
    case _ => None
  }

  /** A required field is missing: blank title or description, or no sector. */
  predicate Missing(d: TaskFormData, f: FormField) {
    match f
    case TitleField => IsBlank(d.title)
    case DescriptionField => IsBlank(d.description)
    case SectorField => d.sectorId == ""
    case _ => false
  }

  /** The form may be submitted. */
  predicate FormIsValid(d: TaskFormData) {
    !IsBlank(d.title) && !IsBlank(d.description) && d.sectorId != ""
  }

  /**
   * `e` reports exactly the missing fields, each under its own key and with
   * its own message.
   */
  predicate ReportsExactly(d: TaskFormData, e: map<FormField, string>) {
    forall f :: (f in e <==> Missing(d, f)) && (f in e ==> Some(e[f]) == RequiredMessage(f))
  }

  /** The errors are determined by the form data. */
  lemma ReportsExactlyUnique(d: TaskFormData, e1: map<FormField, string>, e2: map<FormField, string>)
    requires ReportsExactly(d, e1) && ReportsExactly(d, e2)
    ensures e1 == e2
  {
    assert e1.Keys == e2.Keys;
  }

  /** No error at all exactly when the form is valid. */
  lemma NoErrorsIffValid(d: TaskFormData, e: map<FormField, string>)
    requires ReportsExactly(d, e)
    ensures e == map[] <==> FormIsValid(d)
  {
    if !FormIsValid(d) {
      var f := if IsBlank(d.title) then TitleField
               else if IsBlank(d.description) then DescriptionField
               else SectorField;
      assert f in e;
    }
  }

  /** The form right after it opens or is reset; `now` stands for `new Date()`. */
  function EmptyForm(now: int): TaskFormData {
    TaskFormData("", "", "", Temporary, Moderate, now)
  }

  class FormState {
    var formData: TaskFormData
    var errors: map<FormField, string>

    constructor (now: int)
      ensures formData == EmptyForm(now) && errors == map[]
    {
      formData := EmptyForm(now);
      errors := map[];
    }

    /** `validateForm`: collect the missing fields, store them, report. */
    method ValidateForm() returns (valid: bool)
      modifies this
      ensures formData == old(formData)
      ensures ReportsExactly(formData, errors)
      ensures valid <==> FormIsValid(formData)
    {
      var d := formData;
      var newErrors: map<FormField, string> := map[];
      if Trim(d.title) == "" {
        newErrors := newErrors[TitleField := TitleRequired];
      }
      if Trim(d.description) == "" {
        newErrors := newErrors[DescriptionField := DescriptionRequired];
      }
      if d.sectorId == "" {
        newErrors := newErrors[SectorField := SectorRequired];
      }
      errors := newErrors;
      valid := |newErrors| == 0;
      NoErrorsIffValid(d, newErrors);
    }

    /**
     * `handleSubmit`: the data as entered (untrimmed) goes out only when the
     * form is valid, and then the form resets.
     */
    method HandleSubmit(now: int) returns (submitted: Option<TaskFormData>)
      modifies this
      ensures submitted.Some? <==> FormIsValid(old(formData))
      ensures submitted.Some? ==>
                submitted.value == old(formData) && formData == EmptyForm(now) && errors == map[]
      ensures submitted.None? ==>
                formData == old(formData) && ReportsExactly(old(formData), errors)
    {
      var ok := ValidateForm();
      if ok {
        submitted := Some(formData);
        formData := EmptyForm(now);
        errors := map[];
      } else {
        submitted := None;
      }
    }

    /**
     * `handleTypeChange`: the new type and its default due date, which the
     * caller computes.
     */
    method HandleTypeChange(taskType: TaskType, defaultDueDate: int)
      modifies this
      ensures formData == old(formData).(taskType := taskType, dueDate := defaultDueDate)
      ensures formData.title == old(formData).title && formData.description == old(formData).description
      ensures formData.sectorId == old(formData).sectorId && formData.urgency == old(formData).urgency
      ensures errors == old(errors)
    {
      formData := formData.(taskType := taskType, dueDate := defaultDueDate);
    }
  }
}
