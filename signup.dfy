/**
 * The sign-up form: its validation rules, the per-field clearing of errors
 * while typing, and what a submit sends and where it leads.
 */
module Signup {
  import opened Wrappers
  import opened Text
  import opened Email

  datatype FormData = FormData(username: string, email: string, password: string, confirmPassword: string)

  datatype FormErrors = FormErrors(
    username: Option<string>,
    email: Option<string>,
    password: Option<string>,
    confirmPassword: Option<string>,
    general: Option<string>)

  const NoErrors := FormErrors(None, None, None, None, None)

  /** The four inputs, by their `name` attribute. */
  datatype Field = UsernameField | EmailField | PasswordField | ConfirmPasswordField

  const UsernameRequired := "Username is required"
  const PasswordRequired := "Password is required"
  const ConfirmRequired := "Please confirm your password"
  const PasswordsDiffer := "Passwords do not match"
  const RegisterFailed := "Invalid credentials. Please try again."

  /** An empty `username.trim()`: a blank username. */
  function UsernameError(username: string): Option<string>
  {
    if Trim(username) == "" then Some(UsernameRequired) else None
  }

  /** The password is required as typed: a password of spaces is accepted. */
  function PasswordError(password: string): Option<string>
  {
    if password == "" then Some(PasswordRequired) else None
  }

  function ConfirmError(password: string, confirmPassword: string): Option<string>
  {
    if confirmPassword == "" then Some(ConfirmRequired)
    else if password != confirmPassword then Some(PasswordsDiffer)
    else None
  }

  /** The errors `validateForm` stores. */
  function ValidationErrors(f: FormData): FormErrors
  {
    FormErrors(
      UsernameError(f.username),
      EmailError(f.email),
      PasswordError(f.password),
      ConfirmError(f.password, f.confirmPassword),
      None)
  }

  /** A username whose trimming is empty, and only that, is an error. */
  lemma UsernameRule(username: string)
    ensures UsernameError(username).Some? <==> Trim(username) == ""
  {
    TrimEmptyIffBlank(username);
  }

  /** An empty confirmation gets "confirm"; else a confirmation other than the password gets "do not match". */
  lemma ConfirmRules(password: string, confirmPassword: string)
    ensures ConfirmError(password, confirmPassword) == Some(ConfirmRequired) <==> confirmPassword == ""
    ensures ConfirmError(password, confirmPassword) == Some(PasswordsDiffer) <==> confirmPassword != "" && password != confirmPassword
    ensures ConfirmError(password, confirmPassword) == None <==> confirmPassword != "" && password == confirmPassword
  {
  }

  /**
   * The form is valid exactly when the username is not blank, the email
   * matches the pattern, and the password is non-empty and confirmed.
   */
  lemma ValidIff(f: FormData)
    ensures ValidationErrors(f) == NoErrors <==>
      !IsBlank(f.username) && ValidateEmail(f.email) && f.password != "" && f.confirmPassword == f.password
  {
    UsernameRule(f.username);
    TrimEmptyIffBlank(f.username);
    EmailRules(f.email);
  }

  /** `handleInputChange`: the edited field takes the value; its error, if set, is cleared. */
  function AfterInput(f: FormData, errors: FormErrors, field: Field, value: string): (FormData, FormErrors)
  {
    match field
    case UsernameField =>
      (f.(username := value), if errors.username.Some? then errors.(username := None) else errors)
    case EmailField =>
      (f.(email := value), if errors.email.Some? then errors.(email := None) else errors)
    case PasswordField =>
      (f.(password := value), if errors.password.Some? then errors.(password := None) else errors)
    case ConfirmPasswordField =>
      (f.(confirmPassword := value), if errors.confirmPassword.Some? then errors.(confirmPassword := None) else errors)
  }

  /**
   * Editing a field changes only that field and clears only its error; in
   * particular a stale mismatch error stays when the password, not the
   * confirmation, is edited.
   */
  lemma InputChangesOnlyItsField(f: FormData, errors: FormErrors, field: Field, value: string)
    ensures var (f', e') := AfterInput(f, errors, field, value);
      && e'.general == errors.general
      && (field == UsernameField ==> f' == f.(username := value) && e' == errors.(username := None))
      && (field == EmailField ==> f' == f.(email := value) && e' == errors.(email := None))
      && (field == PasswordField ==> f' == f.(password := value) && e' == errors.(password := None))
      && (field == ConfirmPasswordField ==> f' == f.(confirmPassword := value) && e' == errors.(confirmPassword := None))
  {
  }

  /** How the register call ends: a response (status and optional message), or a thrown error with an optional server message. */
  datatype RegisterOutcome = Responded(status: int, message: Option<string>) | Threw(message: Option<string>)

  datatype SubmitResult = SubmitResult(request: Option<FormData>, errors: FormErrors, navigateTo: Option<string>)

  /**
   * `handleSubmit`: an invalid form stores its errors and sends nothing; a
   * valid one posts the four fields as typed. A response leads to the login
   * page whatever its status, a status other than 200 first storing the
   * response's message as the general error; a thrown error stays on the
   * page with the server's message or the default.
   */
  function SubmitOutcome(f: FormData, outcome: RegisterOutcome): SubmitResult
  {
    if ValidationErrors(f) != NoErrors then SubmitResult(None, ValidationErrors(f), None)
    else match outcome
      case Responded(status, message) =>
        SubmitResult(Some(f), if status != 200 then NoErrors.(general := message) else NoErrors, Some("/Login"))
      case Threw(message) =>
        SubmitResult(Some(f), NoErrors.(general := Some(OrDefault(message, RegisterFailed))), None)
  }

  /** A request goes out exactly for a valid form, carrying it unchanged; every response, even a non-200 one, leads to the login page. */
  lemma SubmitGuard(f: FormData, outcome: RegisterOutcome)
    ensures SubmitOutcome(f, outcome).request.Some? <==> ValidationErrors(f) == NoErrors
    ensures SubmitOutcome(f, outcome).request.Some? ==> SubmitOutcome(f, outcome).request.value == f
    ensures SubmitOutcome(f, outcome).navigateTo.Some? <==> ValidationErrors(f) == NoErrors && outcome.Responded?
    ensures SubmitOutcome(f, outcome).navigateTo.Some? ==> SubmitOutcome(f, outcome).navigateTo.value == "/Login"
    ensures ValidationErrors(f) == NoErrors && outcome.Threw? ==>
      SubmitOutcome(f, outcome).errors.general.Some? && SubmitOutcome(f, outcome).errors.general.value != ""
  {
  }

  /** The page's state. */
  class SignupForm {
    var formData: FormData
    var errors: FormErrors
    var isLoading: bool

    constructor()
      ensures formData == FormData("", "", "", "") && errors == NoErrors && !isLoading
    {
      formData := FormData("", "", "", "");
      errors := NoErrors;
      isLoading := false;
    }

    /** `validateForm`: fills a fresh error record rule by rule, stores it, and reports whether it is empty. */
    method ValidateForm() returns (valid: bool)
      modifies this
      ensures errors == ValidationErrors(formData)
      ensures valid <==> errors == NoErrors
      ensures formData == old(formData) && isLoading == old(isLoading)
    {
      var newErrors := NoErrors;
      if Trim(formData.username) == "" {
        newErrors := newErrors.(username := Some(UsernameRequired));
      }
      if Trim(formData.email) == "" {
        newErrors := newErrors.(email := Some(EmailRequired));
      } else if !ValidateEmail(formData.email) {
        newErrors := newErrors.(email := Some(EmailInvalid));
      }
      if formData.password == "" {
        newErrors := newErrors.(password := Some(PasswordRequired));
      }
      if formData.confirmPassword == "" {
        newErrors := newErrors.(confirmPassword := Some(ConfirmRequired));
      } else if formData.password != formData.confirmPassword {
        newErrors := newErrors.(confirmPassword := Some(PasswordsDiffer));
      }
      errors := newErrors;
      valid := newErrors == NoErrors;
    }

    /** `handleInputChange` for the input named by `field`. */
    method HandleInputChange(field: Field, value: string)
      modifies this
      ensures (formData, errors) == AfterInput(old(formData), old(errors), field, value)
      ensures isLoading == old(isLoading)
    {
      match field {
        case UsernameField =>
          formData := formData.(username := value);
          if errors.username.Some? {
            errors := errors.(username := None);
          }
        case EmailField =>
          formData := formData.(email := value);
          if errors.email.Some? {
            errors := errors.(email := None);
          }
        case PasswordField =>
          formData := formData.(password := value);
          if errors.password.Some? {
            errors := errors.(password := None);
          }
        case ConfirmPasswordField =>
          formData := formData.(confirmPassword := value);
          if errors.confirmPassword.Some? {
            errors := errors.(confirmPassword := None);
          }
      }
    }

    /** `handleSubmit`, with the register call's outcome as a parameter; loading ends false after a request. */
    method HandleSubmit(outcome: RegisterOutcome) returns (request: Option<FormData>, navigateTo: Option<string>)
      modifies this
      ensures SubmitOutcome(old(formData), outcome) == SubmitResult(request, errors, navigateTo)
      ensures formData == old(formData)
      ensures isLoading == (old(isLoading) && request.None?)
    {
      var valid := ValidateForm();
      if !valid {
        request, navigateTo := None, None;
        return;
      }
      isLoading := true;
      errors := NoErrors;
      request := Some(formData);
      match outcome {
        case Responded(status, message) =>
          if status != 200 {
            errors := NoErrors.(general := message);
          }
          navigateTo := Some("/Login");
        case Threw(message) =>
          errors := NoErrors.(general := Some(OrDefault(message, RegisterFailed)));
          navigateTo := None;
      }
      isLoading := false;
    }
  }
}
