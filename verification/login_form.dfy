/** The sign-in form: its field validation, the gating of the store's
    `login` behind it, and where the form navigates afterwards. */
module LoginForm {
  import opened Wrappers
  import opened Roles
  import opened JsText
  import opened EmailPattern
  import opened AuthStore

  datatype FormErrors = FormErrors(email: Option<string>, password: Option<string>)

  predicate NoErrors(e: FormErrors) {
    e.email.None? && e.password.None?
  }

  /** `validateForm`: the `valid` flag it returns and the error map it
      stores. The password is not trimmed, so a white-space password passes. */
  function ValidateForm(email: string, password: string): (r: (bool, FormErrors))
    ensures r.1.email == EmailFieldError(email)
    ensures r.1.password == Some("Password is required") <==> password == ""
    ensures r.1.password.None? <==> password != ""
    ensures r.0 <==> NoErrors(r.1)
  {
    var emailError := EmailFieldError(email);
    var passwordError := if password == "" then Some("Password is required") else None;
    (emailError.None? && passwordError.None?, FormErrors(emailError, passwordError))
  }

  /** Where the form goes once `login` has returned: only with an
      authenticated store holding a user, and only for the two known roles.
      The registration form repeats the same choice after `register`. */
  function Destination(s: Session): (p: Option<string>)
    ensures p.Some? ==> s.isAuthenticated && s.user.Some?
    ensures p == Some("/employee-dashboard") <==> s.isAuthenticated && s.user.Some? && s.user.value.role == Employee
    ensures p == Some("/manager-dashboard") <==> s.isAuthenticated && s.user.Some? && s.user.value.role == Manager
    ensures p.None? <==> !s.isAuthenticated || s.user.None? || s.user.value.role == Admin
  {
    if s.isAuthenticated && s.user.Some? then
      match s.user.value.role
      case Employee => Some("/employee-dashboard")
      case Manager => Some("/manager-dashboard")
      case Admin => None
    else None
  }

  datatype Credentials = Credentials(email: string, password: string)

  datatype Submitted = Submitted(
    session: Session,             // the store afterwards
    errors: FormErrors,           // the form's error map afterwards
    request: Option<Credentials>, // what `login` was called with, if it was
    navigateTo: Option<string>)   // where the form navigated, if it did

  /** The submission once the errors are known: with none, `login` runs on
      the cleared store and the form navigates by the resulting session;
      otherwise only the error is cleared. */
  function Gate(s: Session, errors: FormErrors, request: Credentials, o: Outcome): (r: Submitted)
    ensures r.errors == errors
    ensures r.request.Some? <==> NoErrors(errors)
    ensures r.request.Some? ==> r.request.value == request
    ensures r.request.None? ==> r.session == ClearError(s) && r.navigateTo.None?
    ensures r.request.Some? ==> r.session == Login(ClearError(s), o) && r.navigateTo == Destination(r.session)
    ensures r.navigateTo.Some? ==> r.session.isAuthenticated && r.session.user.Some?
  {
    var cleared := ClearError(s);
    if !NoErrors(errors) then Submitted(cleared, errors, None, None)
    else
      var after := Login(cleared, o);
      Submitted(after, errors, Some(request), Destination(after))
  }

  /** `handleSubmit`: clear the store's error, validate, and only on a valid
      form run `login` with the fields as typed and then navigate. */
  function HandleSubmit(s: Session, email: string, password: string, o: Outcome): (r: Submitted)
    ensures r.errors == ValidateForm(email, password).1
    ensures r.request.Some? <==> ValidateForm(email, password).0
    ensures r.request.Some? ==> r.request.value == Credentials(email, password)
    ensures r.request.None? ==> r.session == ClearError(s) && r.navigateTo.None?
    ensures r.request.Some? ==> r.session == Login(ClearError(s), o) && r.navigateTo == Destination(r.session)
    ensures r.navigateTo.Some? ==> r.session.isAuthenticated && r.session.user.Some?
  {
    Gate(s, ValidateForm(email, password).1, Credentials(email, password), o)
  }
}
