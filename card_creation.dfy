/** src/lib/hooks/useCardCreation.ts: the admin form that creates a card. It
    holds two state cells, the form and the last validation result; submitting
    needs the admin password and a valid form, and a created card yields the
    link that opens its edit form. */
module CardCreation {
  import opened Wrappers
  import Text
  import opened Validation

  datatype CardCreationState = CardCreationState(
    customId: string,
    task: string,
    isSubmitting: bool,
    error: Option<string>,
    success: bool,
    generatedUrl: Option<string>)

  /** The two inputs of the form. */
  datatype Input = CustomIdInput | TaskInput

  /** The input's `name` attribute, the key `handleInputChange` writes. */
  function InputName(i: Input): string {
    match i
    case CustomIdInput => "customId"
    case TaskInput => "task"
  }

  /** The field `validateCardForm` files the input's error under. */
  function ErrorField(i: Input): string {
    match i
    case CustomIdInput => "Card ID"
    case TaskInput => "Task"
  }

  lemma InputNamesAreNotErrorFields(i: Input, j: Input)
    ensures InputName(i) != ErrorField(j)
  {
    assert InputName(CustomIdInput)[1] == 'u' && ErrorField(CustomIdInput)[1] == 'a';
    assert InputName(TaskInput)[0] == 't' && ErrorField(TaskInput)[0] == 'T';
    assert |InputName(CustomIdInput)| != |ErrorField(TaskInput)|;
    assert |InputName(TaskInput)| != |ErrorField(CustomIdInput)|;
  }

  function InitialForm(): (s: CardCreationState)
    ensures s.customId == "" && s.task == "" && !s.isSubmitting && !s.success
    ensures s.error.None? && s.generatedUrl.None?
  {
    CardCreationState("", "", false, None, false, None)
  }

  function InitialValidation(): (v: ValidationResult)
    ensures v.isValid && v.errors == []
  {
    ValidationResult(true, [])
  }

  /** The form-cell update of `handleInputChange`: the input's value is stored,
      the other input and the link stay, and the error and success flags are
      cleared. */
  function ChangeInput(s: CardCreationState, i: Input, value: string): (r: CardCreationState)
    ensures i == CustomIdInput ==> r.customId == value && r.task == s.task
    ensures i == TaskInput ==> r.task == value && r.customId == s.customId
    ensures r.error.None? && !r.success
    ensures r.isSubmitting == s.isSubmitting && r.generatedUrl == s.generatedUrl
  {
    var t := match i
      case CustomIdInput => s.(customId := value)
      case TaskInput => s.(task := value);
    t.(error := None, success := false)
  }

  /** The validation-cell update of `handleInputChange` as written: it drops the
      errors filed under the input's name. */
  function ClearErrorsAsWritten(v: ValidationResult, i: Input): (r: ValidationResult)
    ensures r.isValid == v.isValid
    ensures forall e :: e in r.errors <==> e in v.errors && e.field != InputName(i)
  {
    v.(errors := WithoutField(v.errors, InputName(i)))
  }

  /** The card form's errors are filed under "Card ID" and "Task", never under an
      input name, so the update as written clears none of them. */
  lemma TypingLeavesCardFormErrors(customId: string, task: string, i: Input)
    ensures ClearErrorsAsWritten(ValidateCardForm(customId, task), i) == ValidateCardForm(customId, task)
  {
    var errors := ValidateCardForm(customId, task).errors;
    InputNamesAreNotErrorFields(i, CustomIdInput);
    InputNamesAreNotErrorFields(i, TaskInput);
    WithoutAbsentField(errors, InputName(i));
  }

  /** An instance: after submitting a blank card id, typing an id still shows
      "Card ID is required". */
  lemma TypedCardIdStillReportedMissing()
    ensures GetFieldError(ClearErrorsAsWritten(ValidateCardForm("", "task"), CustomIdInput).errors, "Card ID")
      == Some("Card ID is required")
  {
    TypingLeavesCardFormErrors("", "task", CustomIdInput);
    assert Text.AllWhitespace("");
  }

  /** The validation-cell update as intended: it drops the errors filed under the
      field the validator uses for that input. */
  function ClearErrors(v: ValidationResult, i: Input): (r: ValidationResult)
    ensures r.isValid == v.isValid
    ensures forall e :: e in r.errors <==> e in v.errors && e.field != ErrorField(i)
    ensures GetFieldError(r.errors, ErrorField(i)).None?
  {
    WithoutFieldLookup(v.errors, ErrorField(i), ErrorField(i));
    v.(errors := WithoutField(v.errors, ErrorField(i)))
  }

  /** Typing into an input clears the message shown for it and keeps the other
      input's message. */
  lemma TypingClearsCardFormError(customId: string, task: string, i: Input, j: Input)
    requires i != j
    ensures var v := ValidateCardForm(customId, task);
      && GetFieldError(ClearErrors(v, i).errors, ErrorField(i)).None?
      && GetFieldError(ClearErrors(v, i).errors, ErrorField(j)) == GetFieldError(v.errors, ErrorField(j))
  {
    assert ErrorField(i) != ErrorField(j) by {
      assert |ErrorField(CustomIdInput)| != |ErrorField(TaskInput)|;
    }
    WithoutFieldLookup(ValidateCardForm(customId, task).errors, ErrorField(i), ErrorField(j));
  }

  const CardUrlPrefix: string := "https://www.rahabenico.de/card/"

  /** The link to a card's edit form. */
  function EditUrl(customId: string, editKey: string): string {
    CardUrlPrefix + Text.Trim(customId) + "?key=" + editKey
  }

  /** Where the query string of `url` starts: the first `?`, or the end. */
  function QueryStart(url: string): (q: nat)
    ensures q <= |url|
    ensures forall j | 0 <= j < q :: url[j] != '?'
    ensures q < |url| ==> url[q] == '?'
  {
    if url == [] || url[0] == '?' then 0 else 1 + QueryStart(url[1..])
  }

  /** Unless the card id itself holds a `?`, the link's path is the card's page and
      its query string is `key=` followed by the edit key. */
  lemma EditUrlParts(customId: string, editKey: string)
    requires forall j | 0 <= j < |Text.Trim(customId)| :: Text.Trim(customId)[j] != '?'
    ensures var url := EditUrl(customId, editKey);
      && url[..QueryStart(url)] == CardUrlPrefix + Text.Trim(customId)
      && url[QueryStart(url)..] == "?key=" + editKey
  {
    var path := CardUrlPrefix + Text.Trim(customId);
    var url := EditUrl(customId, editKey);
    assert forall j | 0 <= j < |CardUrlPrefix| :: CardUrlPrefix[j] != '?';
    assert url == path + ("?key=" + editKey);
    assert forall j | 0 <= j < |path| :: url[j] == path[j] && path[j] != '?';
    assert url[|path|] == '?';
    assert QueryStart(url) == |path|;
  }

  /** The arguments of the `createCard` call. */
  datatype CreateCall = CreateCall(customId: string, task: string, adminPassword: string)

  /** What the `createCard` call did: it returned the card's edit key, or threw,
      with the message of an `Error` or without one. */
  datatype CreateOutcome = Created(editKey: string) | Failed(message: Option<string>)

  /** `!adminPassword` rejects both no password and the empty one. */
  predicate PasswordGiven(p: Option<string>) {
    p.Some? && p.value != ""
  }

  class CardCreationHook {
    const adminPassword: Option<string>
    var form: CardCreationState
    var validation: ValidationResult

    constructor (adminPassword: Option<string>)
      ensures this.adminPassword == adminPassword
      ensures form == InitialForm() && validation == InitialValidation()
    {
      this.adminPassword := adminPassword;
      form := InitialForm();
      validation := InitialValidation();
    }

    /** `handleInputChange` as written: the errors are filtered by the input's
        name, so a card-form error stays (`TypingLeavesCardFormErrors`). */
    method HandleInputChange(i: Input, value: string)
      modifies this
      ensures form == ChangeInput(old(form), i, value)
      ensures validation == ClearErrorsAsWritten(old(validation), i)
    {
      form := ChangeInput(form, i, value);
      validation := ClearErrorsAsWritten(validation, i);
    }

    /** `handleInputChange` as intended: the errors are cleared under the
        validator's field for the input. */
    method HandleInputChangeCorrected(i: Input, value: string)
      modifies this
      ensures form == ChangeInput(old(form), i, value)
      ensures validation == ClearErrors(old(validation), i)
      ensures GetFieldError(validation.errors, ErrorField(i)).None?
    {
      form := ChangeInput(form, i, value);
      validation := ClearErrors(validation, i);
    }

    /** `handleSubmit`. Without the password it only reports that; with an invalid
        form it only stores the validation result; otherwise it calls `createCard`
        with the trimmed values, whose outcome is `outcome`. */
    method HandleSubmit(outcome: CreateOutcome) returns (call: Option<CreateCall>)
      modifies this
      ensures !PasswordGiven(adminPassword) ==>
        && call.None? && validation == old(validation)
        && form == old(form).(error := Some("Please log in with admin password"), isSubmitting := false)
      ensures PasswordGiven(adminPassword) ==> validation == ValidateCardForm(old(form).customId, old(form).task)
      ensures PasswordGiven(adminPassword) && !validation.isValid ==> call.None? && form == old(form)
      ensures PasswordGiven(adminPassword) && validation.isValid ==>
        && call == Some(CreateCall(Text.Trim(old(form).customId), Text.Trim(old(form).task), adminPassword.value))
        && form.customId == old(form).customId && form.task == old(form).task && !form.isSubmitting
        && match outcome
           case Created(editKey) =>
             && form.success && form.error.None?
             && form.generatedUrl == Some(EditUrl(old(form).customId, editKey))
           case Failed(message) =>
             && !form.success && form.generatedUrl == old(form).generatedUrl
             && form.error == Some(message.GetOr("Failed to create card"))
    {
      if !PasswordGiven(adminPassword) {
        form := form.(error := Some("Please log in with admin password"), isSubmitting := false);
        return None;
      }
      var validationResult := ValidateCardForm(form.customId, form.task);
      validation := validationResult;
      if !validationResult.isValid {
        return None;
      }
      form := form.(isSubmitting := true, error := None, success := false);
      call := Some(CreateCall(Text.Trim(form.customId), Text.Trim(form.task), adminPassword.value));
      match outcome
      case Created(editKey) =>
        var editUrl := EditUrl(form.customId, editKey);
        form := form.(success := true, isSubmitting := false, generatedUrl := Some(editUrl));
      case Failed(message) =>
        form := form.(error := Some(message.GetOr("Failed to create card")), isSubmitting := false);
    }

    /** `resetForm`: both cells back to their initial values. */
    method ResetForm()
      modifies this
      ensures form == InitialForm() && validation == InitialValidation()
    {
      form := InitialForm();
      validation := InitialValidation();
    }
  }
}
