/**
 * src/components/LoginForm/LoginForm.tsx: the sign-in / sign-up form. The
 * component's state is the `LoginForm` class. The auth provider's `signIn` and
 * `signUp` are parameters of the submit handler; each resolves to the error
 * message it reports (None when there is none) or throws. The redirect to
 * the dashboard is the handler's result.
 */
module LoginForm {
  import opened Common
  import opened Validations
  import opened FormErrors

  datatype AuthMode = Login | Signup

  /** The inputs of the form, named as the `name` attributes name them. */
  datatype FormField = Email | Password | ConfirmPassword

  datatype FormData = FormData(email: string, password: string, confirmPassword: string)

  const EmptyForm: FormData := FormData("", "", "")
  const GeneralKey: string := "general"
  const UnexpectedError: string := "An unexpected error occurred"

  function FieldName(field: FormField): (name: string)
    ensures name in {"email", "password", "confirmPassword"}
  {
    match field
    case Email => "email"
    case Password => "password"
    case ConfirmPassword => "confirmPassword"
  }

  /** `{ ...prev, [name]: value }` */
  function WithField(data: FormData, field: FormField, value: string): (r: FormData)
    ensures field == Email ==> r == data.(email := value)
    ensures field == Password ==> r == data.(password := value)
    ensures field == ConfirmPassword ==> r == data.(confirmPassword := value)
  {
    match field
    case Email => data.(email := value)
    case Password => data.(password := value)
    case ConfirmPassword => data.(confirmPassword := value)
  }

  function Toggled(mode: AuthMode): (r: AuthMode)
    ensures r != mode
  {
    if mode == Login then Signup else Login
  }

  /**
   * The issues the submit stops at: `loginSchema` on the email and password
   * in login mode (the confirmation is ignored), `signupSchema` on all three
   * fields in sign-up mode; none when the form is accepted.
   */
  function SubmitIssues(isEmail: string -> bool, mode: AuthMode, data: FormData): (issues: seq<Issue>)
    ensures issues == [] <==>
      isEmail(data.email) && |data.password| >= MinPasswordLength &&
      (mode == Signup ==> data.password == data.confirmPassword)
  {
    match mode
    case Login =>
      var p := ParseLogin(isEmail, LoginData(data.email, data.password));
      if p.Valid? then [] else p.issues
    case Signup =>
      var p := ParseSignup(isEmail, SignupData(data.email, data.password, data.confirmPassword));
      if p.Valid? then [] else p.issues
  }

  /** The issues of a submit, check by check, in the order the schemas run them. */
  lemma SubmitIssuesInOrder(isEmail: string -> bool, mode: AuthMode, data: FormData)
    ensures SubmitIssues(isEmail, mode, data) ==
      Check(isEmail(data.email), "email", InvalidEmail) +
      Check(|data.password| >= MinPasswordLength, "password", ShortPassword) +
      (if mode == Signup then Check(data.password == data.confirmPassword, "confirmPassword", PasswordsDiffer) else [])
  {
    var login := LoginIssues(isEmail, data.email, data.password);
    if mode == Login {
      assert login + [] == login;
    }
  }

  /** The field errors of the email, password and (when `signup`) confirmation checks. */
  lemma {:induction false} CheckedFieldErrors(emailOk: bool, passwordOk: bool, matchOk: bool, signup: bool)
    ensures var e := FieldErrors(
      Check(emailOk, "email", InvalidEmail) + Check(passwordOk, "password", ShortPassword) +
      (if signup then Check(matchOk, "confirmPassword", PasswordsDiffer) else []));
      e.Keys <= {"email", "password", "confirmPassword"} &&
      ("email" in e <==> !emailOk) && ("password" in e <==> !passwordOk) &&
      ("confirmPassword" in e <==> signup && !matchOk) &&
      ("email" in e ==> e["email"] == InvalidEmail) &&
      ("password" in e ==> e["password"] == ShortPassword) &&
      ("confirmPassword" in e ==> e["confirmPassword"] == PasswordsDiffer)
  {
    var first := Check(emailOk, "email", InvalidEmail);
    var login := first + Check(passwordOk, "password", ShortPassword);
    var all := login + (if signup then Check(matchOk, "confirmPassword", PasswordsDiffer) else []);
    assert [] + first == first;
    FieldErrorsAfterCheck([], emailOk, "email", InvalidEmail);
    var afterEmail: map<string, string> := if emailOk then map[] else map["email" := InvalidEmail];
    assert FieldErrors(first) == afterEmail;
    FieldErrorsAfterCheck(first, passwordOk, "password", ShortPassword);
    var afterPassword := if passwordOk then afterEmail else afterEmail["password" := ShortPassword];
    assert FieldErrors(login) == afterPassword;
    if signup {
      FieldErrorsAfterCheck(login, matchOk, "confirmPassword", PasswordsDiffer);
    } else {
      assert all == login;
    }
    var e := if signup && !matchOk then afterPassword["confirmPassword" := PasswordsDiffer] else afterPassword;
    assert FieldErrors(all) == e;
  }

  /**
   * The field errors a rejected submit shows: each failing rule puts its own
   * message under its own field, and nothing else is shown; the confirmation
   * is only ever complained about in sign-up mode.
   */
  lemma SubmitFieldErrors(isEmail: string -> bool, mode: AuthMode, data: FormData)
    ensures var e := FieldErrors(SubmitIssues(isEmail, mode, data));
      e.Keys <= {"email", "password", "confirmPassword"} &&
      ("email" in e <==> !isEmail(data.email)) &&
      ("password" in e <==> |data.password| < MinPasswordLength) &&
      ("confirmPassword" in e <==> mode == Signup && data.password != data.confirmPassword) &&
      ("email" in e ==> e["email"] == InvalidEmail) &&
      ("password" in e ==> e["password"] == ShortPassword) &&
      ("confirmPassword" in e ==> e["confirmPassword"] == PasswordsDiffer)
  {
    SubmitIssuesInOrder(isEmail, mode, data);
    CheckedFieldErrors(isEmail(data.email), |data.password| >= MinPasswordLength,
                       data.password == data.confirmPassword, mode == Signup);
  }

  /** The errors left once the awaited auth call has settled. */
  function AuthErrors(outcome: Outcome<Option<string>>): (errors: map<string, string>)
    ensures errors.Keys <= {GeneralKey}
    ensures GeneralKey in errors <==> outcome != Returned(None)
    ensures outcome.Returned? && outcome.value.Some? ==> errors[GeneralKey] == outcome.value.value
    ensures outcome.Threw? ==> errors[GeneralKey] == UnexpectedError
  {
    match outcome
    case Returned(None) => map[]
    case Returned(Some(message)) => map[GeneralKey := message]
    case Threw(_) => map[GeneralKey := UnexpectedError]
  }

  class LoginForm {
    var authMode: AuthMode
    var formData: FormData
    var errors: map<string, string>
    var loading: bool

    constructor()
      ensures authMode == Login && formData == EmptyForm && errors == map[] && !loading
    {
      authMode := Login;
      formData := EmptyForm;
      errors := map[];
      loading := false;
    }

    /** `handleToggleMode`: the other mode, an empty form and no errors. */
    method HandleToggleMode()
      modifies this
      ensures authMode == Toggled(old(authMode))
      ensures formData == EmptyForm && errors == map[]
      ensures loading == old(loading)
    {
      authMode := if authMode == Login then Signup else Login;
      formData := FormData("", "", "");
      errors := map[];
    }

    /** `handleChange`: the field takes the new value and its error, if shown, is blanked. */
    method HandleChange(field: FormField, value: string)
      modifies this
      ensures formData == WithField(old(formData), field, value)
      ensures errors == ClearFieldError(old(errors), FieldName(field))
      ensures authMode == old(authMode) && loading == old(loading)
    {
      formData := WithField(formData, field, value);
      var name := FieldName(field);
      if name in errors && errors[name] != "" {
        errors := errors[name := ""];
      }
    }

    /** `handleSubmit` up to the validation: the errors are cleared and the form is busy. */
    method BeginSubmit()
      modifies this
      ensures errors == map[] && loading
      ensures authMode == old(authMode) && formData == old(formData)
    {
      errors := map[];
      loading := true;
    }

    /**
     * The whole `handleSubmit`. A rejected form shows its field errors and no
     * auth call is made; otherwise the mode's auth call is made with the
     * email and password, and the user is redirected exactly when it reports
     * no error. The form is never busy afterwards.
     */
    method HandleSubmit(
      isEmail: string -> bool,
      signIn: (string, string) -> Outcome<Option<string>>,
      signUp: (string, string) -> Outcome<Option<string>>) returns (redirected: bool)
      modifies this
      ensures !loading
      ensures authMode == old(authMode) && formData == old(formData)
      ensures SubmitIssues(isEmail, authMode, formData) != [] ==>
        errors == FieldErrors(SubmitIssues(isEmail, authMode, formData)) && !redirected
      ensures SubmitIssues(isEmail, authMode, formData) == [] ==>
        var outcome := if authMode == Login then signIn(formData.email, formData.password)
                       else signUp(formData.email, formData.password);
        errors == AuthErrors(outcome) && (redirected <==> outcome == Returned(None))
    {
      BeginSubmit();
      redirected := false;
      var issues := SubmitIssues(isEmail, authMode, formData);
      if issues != [] {
        errors := CollectFieldErrors(issues);
        loading := false;
        return;
      }
      var outcome := if authMode == Login then signIn(formData.email, formData.password)
                     else signUp(formData.email, formData.password);
      match outcome {
        case Returned(None) =>
          redirected := true;
        case Returned(Some(message)) =>
          errors := map[GeneralKey := message];
        case Threw(_) =>
          errors := map[GeneralKey := UnexpectedError];
      }
      loading := false;
    }
  }
}
