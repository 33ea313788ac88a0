/**
 * The create-group form: its validation rules, the per-field clearing of
 * errors while typing, the trimmed payload it posts, and the state of its
 * submit button.
 */
module CreateGroup {
  import opened Wrappers
  import opened Text

  datatype FormData = FormData(name: string, description: string)

  /** The form's error record; a missing field is no error. */
  datatype FormErrors = FormErrors(name: Option<string>, description: Option<string>, general: Option<string>)

  const NoErrors := FormErrors(None, None, None)

  /** The two inputs, by their `name` attribute. */
  datatype Field = NameField | DescriptionField

  const NameRequired := "Group name is required"
  const NameTooShort := "Group name must be at least 3 characters"
  const NameTooLong := "Group name must be less than 50 characters"
  const DescriptionTooLong := "Description must be less than 200 characters"
  const CreateFailed := "Failed to create group. Please try again."

  /**
   * The name rules, first match wins: an empty `name.trim()` (a blank name,
   * see NameRequiredIffBlank), then the untrimmed length below 3 or above 50.
   */
  function NameError(name: string): Option<string>
  {
    if Trim(name) == "" then Some(NameRequired)
    else if |name| < 3 then Some(NameTooShort)
    else if |name| > 50 then Some(NameTooLong)
    else None
  }

  /** The description rule as written: over 250 characters, although the message and the input cap say 200. */
  function DescriptionError(description: string): Option<string>
  {
    if |description| > 250 then Some(DescriptionTooLong) else None
  }

  /** The description rule the message, the input cap and the counter describe: over 200 characters. */
  function IntendedDescriptionError(description: string): Option<string>
  {
    if |description| > 200 then Some(DescriptionTooLong) else None
  }

  /** The errors `validateForm` stores. */
  function ValidationErrors(f: FormData): FormErrors
  {
    FormErrors(NameError(f.name), DescriptionError(f.description), None)
  }

  /** The errors the form would store under the intended description rule. */
  function IntendedValidationErrors(f: FormData): FormErrors
  {
    FormErrors(NameError(f.name), IntendedDescriptionError(f.description), None)
  }

  /** Exactly a name whose trimming is empty (nothing but whitespace) gets the "required" error. */
  lemma NameRequiredIffBlank(name: string)
    ensures NameError(name) == Some(NameRequired) <==> Trim(name) == ""
    ensures NameError(name) == Some(NameRequired) <==> IsBlank(name)
  {
    TrimEmptyIffBlank(name);
  }

  /** For a name that is not blank, the untrimmed length alone decides its error. */
  lemma NameLengthRules(name: string)
    requires !IsBlank(name)
    ensures |name| < 3 ==> NameError(name) == Some(NameTooShort)
    ensures 3 <= |name| <= 50 ==> NameError(name) == None
    ensures |name| > 50 ==> NameError(name) == Some(NameTooLong)
  {
    TrimEmptyIffBlank(name);
  }

  /** The form is valid exactly when the name is not blank, its length is in [3, 50], and the description has at most 250 characters. */
  lemma ValidIff(f: FormData)
    ensures ValidationErrors(f) == NoErrors <==>
      !IsBlank(f.name) && 3 <= |f.name| <= 50 && |f.description| <= 250
  {
    TrimEmptyIffBlank(f.name);
  }

  /** Under the intended rule the description limit is 200, and every form valid under it is valid as written. */
  lemma IntendedValidIff(f: FormData)
    ensures IntendedValidationErrors(f) == NoErrors <==>
      !IsBlank(f.name) && 3 <= |f.name| <= 50 && |f.description| <= 200
    ensures IntendedValidationErrors(f) == NoErrors ==> ValidationErrors(f) == NoErrors
  {
    TrimEmptyIffBlank(f.name);
  }

  /** The name and the description are judged independently. */
  lemma FieldsIndependent(f: FormData, name: string, description: string)
    ensures ValidationErrors(f.(name := name)).description == ValidationErrors(f).description
    ensures ValidationErrors(f.(description := description)).name == ValidationErrors(f).name
  {
  }

  /** The payload posted: both fields trimmed. */
  function Payload(f: FormData): FormData
  {
    FormData(Trim(f.name), Trim(f.description))
  }

  /** The payload has no whitespace at either end of either field, is no longer than the input, and trimming it again changes nothing. */
  lemma PayloadTrimmed(f: FormData)
    ensures |Payload(f).name| <= |f.name| && |Payload(f).description| <= |f.description|
    ensures Payload(f).name == [] || !IsWhitespace(Payload(f).name[0])
    ensures Payload(f).name == [] || !IsWhitespace(Payload(f).name[|Payload(f).name| - 1])
    ensures Payload(Payload(f)) == Payload(f)
  {
    var n := Trim(f.name);
    assert n == [] || (!IsWhitespace(n[0]) && !IsWhitespace(n[|n| - 1]));
    TrimIdempotent(f.name);
    TrimIdempotent(f.description);
  }

  /** A valid form posts a non-empty name. */
  lemma ValidPayloadNameNonEmpty(f: FormData)
    requires ValidationErrors(f) == NoErrors
    ensures Payload(f).name != []
  {
    TrimEmptyIffBlank(f.name);
  }

  /**
   * The length rules read the untrimmed name, so padding passes them: "a  "
   * is valid and posts the one-character name "a".
   */
  lemma PaddedShortNamePasses()
    ensures ValidationErrors(FormData("a  ", "")) == NoErrors
    ensures Payload(FormData("a  ", "")).name == "a"
  {
    assert SkipLeading("a  ", 0) == 0;
    assert SkipTrailing("a  ", 1) == 1;
    assert SkipTrailing("a  ", 3) == 1;
    assert "a  "[..1] == "a";
  }

  /** Submit is disabled while the trimmed name is empty (the name is blank) or a request is loading. */
  function SubmitDisabled(f: FormData, loading: bool): bool
  {
    Trim(f.name) == "" || loading
  }

  /** An enabled button means no request is loading and the name is not blank, so the "required" error cannot follow. */
  lemma EnabledMeansNameNotBlank(f: FormData, loading: bool)
    ensures !SubmitDisabled(f, loading) <==> !loading && Trim(f.name) != ""
    ensures !SubmitDisabled(f, loading) ==> NameError(f.name) != Some(NameRequired)
  {
    TrimEmptyIffBlank(f.name);
  }

  /** `handleInputChange`: the edited field takes the value; its error, if set, is cleared. */
  function AfterInput(f: FormData, errors: FormErrors, field: Field, value: string): (FormData, FormErrors)
  {
    match field
    case NameField =>
      (f.(name := value), if errors.name.Some? then errors.(name := None) else errors)
    case DescriptionField =>
      (f.(description := value), if errors.description.Some? then errors.(description := None) else errors)
  }

  /** Editing a field changes only that field, clears only that field's error and keeps the others. */
  lemma InputChangesOnlyItsField(f: FormData, errors: FormErrors, field: Field, value: string)
    ensures var (f', e') := AfterInput(f, errors, field, value);
      && e'.general == errors.general
      && (field == NameField ==> f' == FormData(value, f.description) && e' == errors.(name := None))
      && (field == DescriptionField ==> f' == FormData(f.name, value) && e' == errors.(description := None))
  {
  }

  /** How the post ends: success, or an error with an optional server message. */
  datatype PostOutcome = Created | Rejected(message: Option<string>)

  /** What one submit does: the request (if any), the errors left, and the route navigated to (if any). */
  datatype SubmitResult = SubmitResult(request: Option<FormData>, errors: FormErrors, navigateTo: Option<string>)

  /**
   * `handleSubmit`: an invalid form stores its errors and sends nothing; a
   * valid one posts the trimmed payload, then goes to the groups list, or
   * shows the server's message (or the default) as the general error.
   */
  function SubmitOutcome(f: FormData, outcome: PostOutcome): SubmitResult
  {
    if ValidationErrors(f) != NoErrors then SubmitResult(None, ValidationErrors(f), None)
    else match outcome
      case Created => SubmitResult(Some(Payload(f)), NoErrors, Some("/groups"))
      case Rejected(message) =>
        SubmitResult(Some(Payload(f)), FormErrors(None, None, Some(OrDefault(message, CreateFailed))), None)
  }

  /** A request goes out exactly for a valid form, and a failed one always shows a non-empty general error. */
  lemma SubmitGuard(f: FormData, outcome: PostOutcome)
    ensures SubmitOutcome(f, outcome).request.Some? <==> ValidationErrors(f) == NoErrors
    ensures SubmitOutcome(f, outcome).request.Some? ==> SubmitOutcome(f, outcome).request.value == Payload(f)
    ensures SubmitOutcome(f, outcome).navigateTo.Some? <==> ValidationErrors(f) == NoErrors && outcome.Created?
    ensures ValidationErrors(f) == NoErrors && outcome.Rejected? ==>
      SubmitOutcome(f, outcome).errors.general.Some? && SubmitOutcome(f, outcome).errors.general.value != ""
  {
  }

  /**
   * As written, a form whose name passes and whose description has 201 to
   * 250 characters (a 220-character one, say) is valid and is posted,
   * although the message says at most 200 and the intended rule rejects it.
   */
  lemma DescriptionLimitAsWrittenSample(f: FormData)
    requires !IsBlank(f.name) && 3 <= |f.name| <= 50
    requires 200 < |f.description| <= 250
    ensures ValidationErrors(f) == NoErrors
    ensures SubmitOutcome(f, Created).request == Some(Payload(f))
    ensures IntendedValidationErrors(f).description == Some(DescriptionTooLong)
  {
    ValidIff(f);
  }

  /** The intended rule rejects exactly the descriptions the message and the input cap rule out. */
  lemma DescriptionLimitMatchesMessage(d: string)
    ensures IntendedDescriptionError(d).Some? <==> |d| > 200
    ensures IntendedDescriptionError(d).Some? ==> IntendedDescriptionError(d).value == DescriptionTooLong
    ensures |d| <= 200 ==> DescriptionError(d) == IntendedDescriptionError(d)
  {
  }

  /** The page's state. */
  class CreateGroupForm {
    var formData: FormData
    var errors: FormErrors
    var loading: bool

    constructor()
      ensures formData == FormData("", "") && errors == NoErrors && !loading
    {
      formData := FormData("", "");
      errors := NoErrors;
      loading := false;
    }

    /** `validateForm`: fills a fresh error record rule by rule, stores it, and reports whether it is empty. */
    method ValidateForm() returns (valid: bool)
      modifies this
      ensures errors == ValidationErrors(formData)
      ensures valid <==> errors == NoErrors
      ensures formData == old(formData) && loading == old(loading)
    {
      var newErrors := NoErrors;
      if Trim(formData.name) == "" {
        newErrors := newErrors.(name := Some(NameRequired));
      } else if |formData.name| < 3 {
        newErrors := newErrors.(name := Some(NameTooShort));
      } else if |formData.name| > 50 {
        newErrors := newErrors.(name := Some(NameTooLong));
      }
      if |formData.description| > 250 {
        newErrors := newErrors.(description := Some(DescriptionTooLong));
      }
      errors := newErrors;
      valid := newErrors == NoErrors;
    }

    /** `handleInputChange` for the input named by `field`. */
    method HandleInputChange(field: Field, value: string)
      modifies this
      ensures (formData, errors) == AfterInput(old(formData), old(errors), field, value)
      ensures loading == old(loading)
    {
      match field {
        case NameField =>
          formData := formData.(name := value);
          if errors.name.Some? {
            errors := errors.(name := None);
          }
        case DescriptionField =>
          formData := formData.(description := value);
          if errors.description.Some? {
            errors := errors.(description := None);
          }
      }
    }

    /** `handleSubmit`, with the post's outcome as a parameter; loading ends false either way. */
    method HandleSubmit(outcome: PostOutcome) returns (request: Option<FormData>, navigateTo: Option<string>)
      modifies this
      ensures SubmitOutcome(old(formData), outcome) == SubmitResult(request, errors, navigateTo)
      ensures formData == old(formData)
      ensures loading == (old(loading) && request.None?)
    {
      var valid := ValidateForm();
      if !valid {
        request, navigateTo := None, None;
        return;
      }
      loading := true;
      errors := NoErrors;
      request := Some(Payload(formData));
      match outcome {
        case Created =>
          navigateTo := Some("/groups");
        case Rejected(message) =>
          errors := FormErrors(None, None, Some(OrDefault(message, CreateFailed)));
          navigateTo := None;
      }
      loading := false;
    }

    function IsSubmitDisabled(): bool
      reads this
    {
      SubmitDisabled(formData, loading)
    }
  }
}
