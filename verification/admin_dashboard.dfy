/** The admin dashboard's decision logic: the user form's schema, the edit
    form's prefill and payload, the delete guard, which profile fields the
    form shows for a role, and the user counts. Its API calls are abstract:
    the functions here compute what would be sent. */
module AdminDashboard {
  import opened Wrappers
  import opened Roles
  import opened JsText

  /** The form's values as react-hook-form hands them to the schema; `None`
      is an absent (undefined) value. */
  datatype FormValues = FormValues(
    firstName: string, lastName: string, email: string,
    password: Option<string>, role: Option<string>, employmentDate: string,
    department: Option<string>, position: Option<string>, managedDepartment: Option<string>)

  datatype Field = FirstName | LastName | Email | Password | RoleField | EmploymentDate

  /** A schema message, or the library's own message for an unknown role. */
  datatype Issue = Message(text: string) | InvalidEnumValue

  /** The values once the schema accepts them: the role is one of the three
      roles, and the password is dropped when the schema omits it. */
  datatype Parsed = Parsed(
    firstName: string, lastName: string, email: string,
    password: Option<string>, role: Role, employmentDate: string,
    department: Option<string>, position: Option<string>, managedDepartment: Option<string>)

  function RoleIssue(role: Option<string>): (i: Option<Issue>)
    ensures i.None? <==> role.Some? && ParseRole(role.value).Some?
  {
    match role
    case None => Some(Message("Please select a role."))
    case Some(r) => if ParseRole(r).Some? then None else Some(InvalidEnumValue)
  }

  const AllFields: set<Field> := {FirstName, LastName, Email, Password, RoleField, EmploymentDate}

  /** Whether field `f` breaks its rule. */
  predicate Fails(v: FormValues, emailAccepted: bool, withPassword: bool, f: Field) {
    match f
    case FirstName => Utf16Length(v.firstName) < 2
    case LastName => Utf16Length(v.lastName) < 2
    case Email => !emailAccepted
    case Password => withPassword && v.password.Some? && Utf16Length(v.password.value) < 8
    case RoleField => RoleIssue(v.role).Some?
    case EmploymentDate => Utf16Length(v.employmentDate) < 1
  }

  /** The message a failing field reports. */
  function IssueFor(v: FormValues, f: Field): Issue {
    match f
    case FirstName => Message("First name must be at least 2 characters.")
    case LastName => Message("Last name must be at least 2 characters.")
    case Email => Message("Please enter a valid email address.")
    case Password => Message("Password must be at least 8 characters.")
    case RoleField => if v.role.None? then Message("Please select a role.") else InvalidEnumValue
    case EmploymentDate => Message("Employment date is required.")
  }

  /** Every issue of `userFormSchema` for the given values; zod reports the
      issues of all fields together. `emailAccepted` is the library's email
      check; `withPassword` is false for the edit form's schema, which omits
      the password. */
  function SchemaIssues(v: FormValues, emailAccepted: bool, withPassword: bool): (m: map<Field, Issue>)
    ensures forall f :: f in m <==> Fails(v, emailAccepted, withPassword, f)
    ensures forall f :: f in m ==> m[f] == IssueFor(v, f)
  {
    map f | f in AllFields && Fails(v, emailAccepted, withPassword, f) :: IssueFor(v, f)
  }

  lemma IssueFirstName(v: FormValues, emailAccepted: bool, withPassword: bool)
    ensures FirstName in SchemaIssues(v, emailAccepted, withPassword) <==> Utf16Length(v.firstName) < 2
  {
  }

  lemma IssueLastName(v: FormValues, emailAccepted: bool, withPassword: bool)
    ensures LastName in SchemaIssues(v, emailAccepted, withPassword) <==> Utf16Length(v.lastName) < 2
  {
  }

  lemma IssueEmail(v: FormValues, emailAccepted: bool, withPassword: bool)
    ensures Email in SchemaIssues(v, emailAccepted, withPassword) <==> !emailAccepted
  {
  }

  lemma IssuePassword(v: FormValues, emailAccepted: bool, withPassword: bool)
    ensures Password in SchemaIssues(v, emailAccepted, withPassword) <==> withPassword && v.password.Some? && Utf16Length(v.password.value) < 8
  {
  }

  lemma IssueRoleField(v: FormValues, emailAccepted: bool, withPassword: bool)
    ensures RoleField in SchemaIssues(v, emailAccepted, withPassword) <==> v.role.None? || ParseRole(v.role.value).None?
  {
  }

  lemma IssueEmploymentDate(v: FormValues, emailAccepted: bool, withPassword: bool)
    ensures EmploymentDate in SchemaIssues(v, emailAccepted, withPassword) <==> v.employmentDate == ""
  {
  }

  /** Per field: names shorter than two UTF-16 units, a present password
      shorter than eight when the schema has one, a missing or unknown role,
      an empty date and a refused email each give exactly one issue. */
  lemma SchemaIssuesPerField(v: FormValues, emailAccepted: bool, withPassword: bool)
    ensures var m := SchemaIssues(v, emailAccepted, withPassword);
      && (FirstName in m <==> Utf16Length(v.firstName) < 2)
      && (LastName in m <==> Utf16Length(v.lastName) < 2)
      && (Email in m <==> !emailAccepted)
      && (Password in m <==> withPassword && v.password.Some? && Utf16Length(v.password.value) < 8)
      && (RoleField in m <==> v.role.None? || ParseRole(v.role.value).None?)
      && (EmploymentDate in m <==> v.employmentDate == "")
      && (RoleField in m ==> m[RoleField] == (if v.role.None? then Message("Please select a role.") else InvalidEnumValue))
  {
    IssueFirstName(v, emailAccepted, withPassword);
    IssueLastName(v, emailAccepted, withPassword);
    IssueEmail(v, emailAccepted, withPassword);
    IssuePassword(v, emailAccepted, withPassword);
    IssueRoleField(v, emailAccepted, withPassword);
    IssueEmploymentDate(v, emailAccepted, withPassword);
  }

  /** Parsing the form: the typed values, or the issues. */
  function ParseForm(v: FormValues, emailAccepted: bool, withPassword: bool): (r: Result<Parsed, map<Field, Issue>>)
    ensures r.Failure? <==> SchemaIssues(v, emailAccepted, withPassword) != map[]
    ensures r.Failure? ==> r.error == SchemaIssues(v, emailAccepted, withPassword)
    ensures r.Success? ==>
      && Utf16Length(r.value.firstName) >= 2 && Utf16Length(r.value.lastName) >= 2
      && r.value.employmentDate != "" && emailAccepted
      && v.role == Some(RoleName(r.value.role))
      && (r.value.password.Some? ==> withPassword && Utf16Length(r.value.password.value) >= 8)
      && (withPassword ==> r.value.password == v.password)
      && r.value.firstName == v.firstName && r.value.lastName == v.lastName && r.value.email == v.email
      && r.value.employmentDate == v.employmentDate
      && r.value.department == v.department && r.value.position == v.position
      && r.value.managedDepartment == v.managedDepartment
  {
    var issues := SchemaIssues(v, emailAccepted, withPassword);
    if issues != map[] then Failure(issues)
    else
      IssueFirstName(v, emailAccepted, withPassword);
      IssueLastName(v, emailAccepted, withPassword);
      IssueEmail(v, emailAccepted, withPassword);
      IssuePassword(v, emailAccepted, withPassword);
      IssueRoleField(v, emailAccepted, withPassword);
      IssueEmploymentDate(v, emailAccepted, withPassword);
      Success(Parsed(v.firstName, v.lastName, v.email,
                     if withPassword then v.password else None,
                     ParseRole(v.role.value).value, v.employmentDate,
                     v.department, v.position, v.managedDepartment))
  }

  /** The add form's default password is the empty string, which the schema
      refuses: an optional password may be absent but not empty. */
  lemma EmptyPasswordRefused(v: FormValues, emailAccepted: bool)
    requires v.password == Some("")
    ensures ParseForm(v, emailAccepted, true).Failure?
    ensures ParseForm(v, emailAccepted, false).Failure? ==> SchemaIssues(v, emailAccepted, false) != map[]
  {
    IssuePassword(v, emailAccepted, true);
  }

  datatype EmployeeProfile = EmployeeProfile(department: Option<string>, position: Option<string>)
  datatype ManagerProfile = ManagerProfile(managedDepartment: Option<string>)

  /** A user record as the users list returns it. */
  datatype ListedUser = ListedUser(
    id: string, firstName: string, lastName: string, email: string, role: string,
    employmentDate: Option<string>,
    employeeProfile: Option<EmployeeProfile>, managerProfile: Option<ManagerProfile>)

  function ProfileDepartment(u: ListedUser): Option<string> {
    if u.employeeProfile.Some? then u.employeeProfile.value.department else None
  }

  function ProfilePosition(u: ListedUser): Option<string> {
    if u.employeeProfile.Some? then u.employeeProfile.value.position else None
  }

  function ProfileManagedDepartment(u: ListedUser): Option<string> {
    if u.managerProfile.Some? then u.managerProfile.value.managedDepartment else None
  }

  /** The edit form's values for a selected user; `today` is the formatted
      current date. */
  function EditPrefill(u: ListedUser, today: string): (v: FormValues)
    ensures v.firstName == u.firstName && v.lastName == u.lastName && v.email == u.email
    ensures v.role == Some(u.role) && v.password.None?
    ensures v.employmentDate == (if Truthy(u.employmentDate) then u.employmentDate.value else today)
    ensures v.department == Some(Or(ProfileDepartment(u), ""))
    ensures v.position == Some(Or(ProfilePosition(u), ""))
    ensures v.managedDepartment == Some(Or(ProfileManagedDepartment(u), ""))
    ensures u.employeeProfile.None? ==> v.department == Some("") && v.position == Some("")
    ensures u.managerProfile.None? ==> v.managedDepartment == Some("")
  {
    FormValues(u.firstName, u.lastName, u.email, None, Some(u.role), Or(u.employmentDate, today),
               Some(Or(ProfileDepartment(u), "")), Some(Or(ProfilePosition(u), "")),
               Some(Or(ProfileManagedDepartment(u), "")))
  }

  datatype UpdateRequest = UpdateRequest(id: string, data: Parsed)

  /** Submitting the edit form: nothing without a selected user; otherwise
      an update for that user's id of the form data with no password. */
  function EditSubmission(selected: Option<ListedUser>, data: Parsed): (r: Option<UpdateRequest>)
    ensures r.Some? <==> selected.Some?
    ensures r.Some? ==> r.value.id == selected.value.id
    ensures r.Some? ==> r.value.data.password.None?
    ensures r.Some? ==> r.value.data.(password := data.password) == data
  {
    if selected.Some? then Some(UpdateRequest(selected.value.id, data.(password := None))) else None
  }

  /** Deleting: only with a selected user, and for that user's id. */
  function DeleteRequest(selected: Option<ListedUser>): (id: Option<string>)
    ensures id.Some? <==> selected.Some?
    ensures id.Some? ==> id.value == selected.value.id
  {
    if selected.Some? then Some(selected.value.id) else None
  }

  /** Which profile fields the form shows for the watched role. */
  function ShownProfileFields(role: Option<string>): (r: (bool, bool))
    ensures r.0 <==> role == Some("employee")
    ensures r.1 <==> role == Some("manager")
    ensures !(r.0 && r.1)
  {
    (role == Some("employee"), role == Some("manager"))
  }

  /** Users whose role is the given string. */
  function CountRole(users: seq<ListedUser>, role: string): (n: nat)
    ensures n <= |users|
    ensures n == 0 <==> forall i :: 0 <= i < |users| ==> users[i].role != role
    ensures n == |users| <==> forall i :: 0 <= i < |users| ==> users[i].role == role
  {
    if users == [] then 0
    else (if users[0].role == role then 1 else 0) + CountRole(users[1..], role)
  }

  /** The positions of the users with the given role. */
  function RoleIndices(users: seq<ListedUser>, role: string): set<int> {
    set i | 0 <= i < |users| && users[i].role == role
  }

  /** Counting a concatenation counts each part. */
  lemma {:induction false} CountRoleAppend(a: seq<ListedUser>, b: seq<ListedUser>, role: string)
    ensures CountRole(a + b, role) == CountRole(a, role) + CountRole(b, role)
    decreases |a|
  {
    if a == [] {
      assert a + b == b;
    } else {
      assert (a + b)[0] == a[0];
      assert (a + b)[1..] == a[1..] + b;
      CountRoleAppend(a[1..], b, role);
    }
  }

  /** Appending one user adds its position exactly when it has the role. */
  lemma RoleIndicesSnoc(init: seq<ListedUser>, u: ListedUser, role: string)
    ensures |RoleIndices(init + [u], role)| == |RoleIndices(init, role)| + (if u.role == role then 1 else 0)
  {
    var n := |init|;
    var users := init + [u];
    var before, after := RoleIndices(init, role), RoleIndices(users, role);
    var added: set<int> := if u.role == role then {n} else {};
    forall i | i in after ensures i in before + added {
      if i < n {
        assert users[i] == init[i];
      }
    }
    forall i | i in before + added ensures i in after {
      if i < n {
        assert users[i] == init[i];
      }
    }
    assert after == before + added;
    assert n !in before;
  }

  /** The count is the number of positions holding a user with the role,
      which is what `filter(...).length` yields. */
  lemma {:induction false} CountRoleIsIndexCount(users: seq<ListedUser>, role: string)
    ensures CountRole(users, role) == |RoleIndices(users, role)|
    decreases |users|
  {
    if users != [] {
      var n := |users| - 1;
      var init := users[..n];
      CountRoleIsIndexCount(init, role);
      assert users == init + [users[n]];
      CountRoleAppend(init, [users[n]], role);
      RoleIndicesSnoc(init, users[n], role);
    }
  }

  datatype Stats = Stats(total: nat, employees: nat, managers: nat)

  /** The three counters; an absent list counts as empty. */
  function UserStats(users: Option<seq<ListedUser>>): (s: Stats)
    ensures users.None? ==> s == Stats(0, 0, 0)
    ensures users.Some? ==> s.total == |users.value|
    ensures users.Some? ==> s.employees == |RoleIndices(users.value, "employee")|
    ensures users.Some? ==> s.managers == |RoleIndices(users.value, "manager")|
    ensures s.employees <= s.total && s.managers <= s.total
  {
    match users
    case None => Stats(0, 0, 0)
    case Some(us) =>
      CountRoleIsIndexCount(us, "employee");
      CountRoleIsIndexCount(us, "manager");
      Stats(|us|, CountRole(us, "employee"), CountRole(us, "manager"))
  }

  /** Nobody is counted both as an employee and as a manager. */
  lemma {:induction false} DistinctRolesCountedOnce(users: seq<ListedUser>, a: string, b: string)
    requires a != b
    ensures CountRole(users, a) + CountRole(users, b) <= |users|
  {
    if users != [] {
      DistinctRolesCountedOnce(users[1..], a, b);
    }
  }

  lemma StatsBounded(users: Option<seq<ListedUser>>)
    ensures UserStats(users).employees + UserStats(users).managers <= UserStats(users).total
  {
    if users.Some? {
      DistinctRolesCountedOnce(users.value, "employee", "manager");
    }
  }
}
