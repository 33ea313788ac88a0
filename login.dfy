/**
 * The log-in form: its validation rules, the per-field clearing of errors
 * while typing, and what a submit does. The e-mail rule is the same
 * predicate the sign-up form uses.
 */
module Login {
  import opened Wrappers
  import opened Text
  import opened Email

  datatype FormData = FormData(email: string, password: string)

  datatype FormErrors = FormErrors(email: Option<string>, password: Option<string>, general: Option<string>)

  const NoErrors := FormErrors(None, None, None)

  /** The two inputs, by their `name` attribute. */
  datatype Field = EmailField | PasswordField

  const PasswordRequired := "Password is required"
  const LoginFailed := "Invalid email or password. Please try again."

  function PasswordError(password: string): Option<string>
  {
    if password == "" then Some(PasswordRequired) else None
  }

  /** The errors `validateForm` stores. */
  function ValidationErrors(f: FormData): FormErrors
  {
    FormErrors(EmailError(f.email), PasswordError(f.password), None)
  }

  /** The form is valid exactly when the email matches the pattern and the password is non-empty. */
  lemma ValidIff(f: FormData)
    ensures ValidationErrors(f) == NoErrors <==> ValidateEmail(f.email) && f.password != ""
  {
    EmailRules(f.email);
  }

  /** `handleInputChange`: the edited field takes the value; its error, if set, is cleared. */
  function AfterInput(f: FormData, errors: FormErrors, field: Field, value: string): (FormData, FormErrors)
  {
    match field
    case EmailField =>
      (f.(email := value), if errors.email.Some? then errors.(email := None) else errors)
    case PasswordField =>
      (f.(password := value), if errors.password.Some? then errors.(password := None) else errors)
  }

  /** Editing a field changes only that field and clears only its error. */
  lemma InputChangesOnlyItsField(f: FormData, errors: FormErrors, field: Field, value: string)
    ensures var (f', e') := AfterInput(f, errors, field, value);
      && e'.general == errors.general
      && (field == EmailField ==> f' == FormData(value, f.password) && e' == errors.(email := None))
      && (field == PasswordField ==> f' == FormData(f.email, value) && e' == errors.(password := None))
  {
  }

  /** How the log-in call ends: success, or an error with an optional server message. */
  datatype LoginOutcome = LoggedIn | Refused(message: Option<string>)

  /** The credentials handed to the session's log-in call. */
  datatype Credentials = Credentials(email: string, password: string)

  datatype SubmitResult = SubmitResult(call: Option<Credentials>, errors: FormErrors, navigateTo: Option<string>)

  /**
   * `handleSubmit`: an invalid form stores its errors and never calls the
   * log-in; a valid one calls it with the fields as typed, then goes to the
   * home page, or shows the server's message (or the default).
   */
  function SubmitOutcome(f: FormData, outcome: LoginOutcome): SubmitResult
  {
    if ValidationErrors(f) != NoErrors then SubmitResult(None, ValidationErrors(f), None)
    else match outcome
      case LoggedIn => SubmitResult(Some(Credentials(f.email, f.password)), NoErrors, Some("/"))
      case Refused(message) =>
        SubmitResult(Some(Credentials(f.email, f.password)), NoErrors.(general := Some(OrDefault(message, LoginFailed))), None)
  }

  /** The log-in is called exactly for a valid form; only a success navigates, and a failure always shows a non-empty message. */
  lemma SubmitGuard(f: FormData, outcome: LoginOutcome)
    ensures SubmitOutcome(f, outcome).call.Some? <==> ValidateEmail(f.email) && f.password != ""
    ensures SubmitOutcome(f, outcome).call.Some? ==> SubmitOutcome(f, outcome).call.value == Credentials(f.email, f.password)
    ensures SubmitOutcome(f, outcome).navigateTo.Some? <==> SubmitOutcome(f, outcome).call.Some? && outcome.LoggedIn?
    ensures SubmitOutcome(f, outcome).call.Some? && outcome.Refused? ==>
      SubmitOutcome(f, outcome).errors.general.Some? && SubmitOutcome(f, outcome).errors.general.value != ""
  {
    ValidIff(f);
  }

  /** The page's state. */
  class LoginForm {
    var formData: FormData
    var errors: FormErrors
    var isLoading: bool

    constructor()
      ensures formData == FormData("", "") && errors == NoErrors && !isLoading
    {
      formData := FormData("", "");
      errors := NoErrors;
      isLoading := false;
    }

    /** `validateForm`: fills a fresh error record rule by rule, stores it, and reports whether it is empty. */
    method ValidateForm() returns (valid: bool)
      modifies this
      ensures errors == ValidationErrors(formData)
      ensures valid <==> errors == NoErrors
      ensures formData == old(formData) && isLoading == old(isLoading)
    {
      var newErrors := NoErrors;
      if Trim(formData.email) == "" {
        newErrors := newErrors.(email := Some(EmailRequired));
      } else if !ValidateEmail(formData.email) {
        newErrors := newErrors.(email := Some(EmailInvalid));
      }
      if formData.password == "" {
        newErrors := newErrors.(password := Some(PasswordRequired));
      }
      errors := newErrors;
      valid := newErrors == NoErrors;
    }

    /** `handleInputChange` for the input named by `field`. */
    method HandleInputChange(field: Field, value: string)
      modifies this
      ensures (formData, errors) == AfterInput(old(formData), old(errors), field, value)
      ensures isLoading == old(isLoading)
    {
      match field {
        case EmailField =>
          formData := formData.(email := value);
          if errors.email.Some? {
            errors := errors.(email := None);
          }
        case PasswordField =>
          formData := formData.(password := value);
          if errors.password.Some? {
            errors := errors.(password := None);
          }
      }
    }

    /** `handleSubmit`, with the log-in call's outcome as a parameter; loading ends false after a call. */
    method HandleSubmit(outcome: LoginOutcome) returns (call: Option<Credentials>, navigateTo: Option<string>)
      modifies this
      ensures SubmitOutcome(old(formData), outcome) == SubmitResult(call, errors, navigateTo)
      ensures formData == old(formData)
      ensures isLoading == (old(isLoading) && call.None?)
    {
      var valid := ValidateForm();
      if !valid {
        call, navigateTo := None, None;
        return;
      }
      isLoading := true;
      errors := NoErrors;
      call := Some(Credentials(formData.email, formData.password));
      match outcome {
        case LoggedIn =>
          navigateTo := Some("/");
        case Refused(message) =>
          errors := NoErrors.(general := Some(OrDefault(message, LoginFailed)));
          navigateTo := None;
      }
      isLoading := false;
    }
  }
}
