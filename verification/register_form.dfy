/** The registration form: its four field rules, the role choice, the
    gating of the store's `register` behind validation, and where the form
    navigates afterwards. */
module RegisterForm {
  import opened Wrappers
  import opened Roles
  import opened JsText
  import opened EmailPattern
  import opened AuthStore
  import LoginForm

  /** The role the form starts with, and the roles its radio group offers. */
  const DefaultRole: Role := Employee
  const SelectableRoles: set<Role> := {Employee, Manager}

  /** The select offers exactly the non-admin roles. */
  lemma SelectableAreUserRoles(role: Role)
    ensures role in SelectableRoles <==> IsUserRole(role)
  {
  }

  datatype FormErrors = FormErrors(
    name: Option<string>, email: Option<string>,
    password: Option<string>, confirmPassword: Option<string>)

  predicate NoErrors(e: FormErrors) {
    e.name.None? && e.email.None? && e.password.None? && e.confirmPassword.None?
  }

  /** The password rule: required, then at least six UTF-16 code units. */
  function PasswordError(password: string): (r: Option<string>)
    ensures r == Some("Password is required") <==> password == ""
    ensures r == Some("Password must be at least 6 characters") <==> password != "" && Utf16Length(password) < 6
    ensures r.None? <==> Utf16Length(password) >= 6
  {
    if password == "" then Some("Password is required")
    else if Utf16Length(password) < 6 then Some("Password must be at least 6 characters")
    else None
  }

  /** `validateForm`: the `valid` flag and the error map. The confirmation
      is compared on its own, even when the password is empty. */
  function ValidateForm(name: string, email: string, password: string, confirmPassword: string)
    : (r: (bool, FormErrors))
    ensures r.1.name == Some("Name is required") <==> AllSpace(name)
    ensures r.1.name.None? <==> !AllSpace(name)
    ensures r.1.email == EmailFieldError(email)
    ensures r.1.password == PasswordError(password)
    ensures r.1.confirmPassword == Some("Passwords do not match") <==> password != confirmPassword
    ensures r.1.confirmPassword.None? <==> password == confirmPassword
    ensures r.0 <==> NoErrors(r.1)
  {
    BlankIffAllSpace(name);
    var nameError := if IsBlank(name) then Some("Name is required") else None;
    var emailError := EmailFieldError(email);
    var passwordError := PasswordError(password);
    var confirmError := if password != confirmPassword then Some("Passwords do not match") else None;
    var valid := nameError.None? && emailError.None? && passwordError.None? && confirmError.None?;
    (valid, FormErrors(nameError, emailError, passwordError, confirmError))
  }

  /** A form that validates has a password of six or more code units equal to
      its confirmation, a non-blank name and an email passing the pattern. */
  lemma ValidFormShape(name: string, email: string, password: string, confirmPassword: string)
    requires ValidateForm(name, email, password, confirmPassword).0
    ensures Utf16Length(password) >= 6 && password == confirmPassword
    ensures !AllSpace(name) && LooksLikeEmail(email)
  {
  }

  datatype Registration = Registration(name: string, email: string, password: string, role: Role)

  datatype Submitted = Submitted(
    session: Session,
    errors: FormErrors,
    request: Option<Registration>,   // what `register` was called with, if it was
    navigateTo: Option<string>)

  /** The submission once the errors are known: with none, `register` runs
      on the cleared store and the form navigates by the resulting session;
      otherwise only the error is cleared. */
  function Gate(s: Session, errors: FormErrors, request: Registration, o: Outcome): (r: Submitted)
    ensures r.errors == errors
    ensures r.request.Some? <==> NoErrors(errors)
    ensures r.request.Some? ==> r.request.value == request
    ensures r.request.None? ==> r.session == ClearError(s) && r.navigateTo.None?
    ensures r.request.Some? ==> r.session == Register(ClearError(s), o) && r.navigateTo == LoginForm.Destination(r.session)
    ensures r.navigateTo.Some? ==> r.session.isAuthenticated && r.session.user.Some?
  {
    var cleared := ClearError(s);
    if !NoErrors(errors) then Submitted(cleared, errors, None, None)
    else
      var after := Register(cleared, o);
      Submitted(after, errors, Some(request), LoginForm.Destination(after))
  }

  /** `handleSubmit`: clear the store's error, validate, and only on a valid
      form run `register` with the fields as typed and the chosen role. */
  function HandleSubmit(s: Session, name: string, email: string, password: string,
                        confirmPassword: string, role: Role, o: Outcome): (r: Submitted)
    requires role in SelectableRoles
    ensures r.errors == ValidateForm(name, email, password, confirmPassword).1
    ensures r.request.Some? <==> ValidateForm(name, email, password, confirmPassword).0
    ensures r.request.Some? ==> r.request.value == Registration(name, email, password, role)
    ensures r.request.Some? ==> IsUserRole(r.request.value.role)
    ensures r.request.None? ==> r.session == ClearError(s) && r.navigateTo.None?
    ensures r.request.Some? ==> r.session == Register(ClearError(s), o) && r.navigateTo == LoginForm.Destination(r.session)
    ensures r.navigateTo.Some? ==> r.session.isAuthenticated && r.session.user.Some?
  {
    var v := ValidateForm(name, email, password, confirmPassword);
    assert v.0 <==> NoErrors(v.1);
    SelectableAreUserRoles(role);
    Gate(s, v.1, Registration(name, email, password, role), o)
  }
}
