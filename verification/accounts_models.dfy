/** The backend's account model: the manager's `create_user` and
    `create_superuser`, the user's field defaults and role choices,
    `full_name`, and the employee profile's default leave balance. */
module AccountsModels {
  import opened Wrappers
  import opened PyValues

  /** The roles the user model offers, with their labels. */
  const RoleChoices: seq<(string, string)> := [("employee", "Employee"), ("manager", "Manager")]

  /** The user model's fields that take keyword arguments besides `email`
      and `password` (the latter two are parameters of `create_user`). */
  const UserFields: set<string> :=
    {"id", "first_name", "last_name", "role", "date_joined", "is_active", "is_staff", "is_superuser", "last_login"}

  /** Field defaults applied by the model constructor (the clock-valued
      `date_joined` and the automatic `id` are left out). */
  const FieldDefaults: map<string, PyValue> := map[
    "first_name" := PyStr(""), "last_name" := PyStr(""),
    "role" := PyStr("employee"),
    "is_active" := PyBool(true), "is_staff" := PyBool(false), "is_superuser" := PyBool(false)]

  datatype CreateError = EmailNotSet | NotStaff | NotSuperuser

  function ErrorMessage(e: CreateError): string {
    match e
    case EmailNotSet => "The Email field must be set"
    case NotStaff => "Superuser must have is_staff=True."
    case NotSuperuser => "Superuser must have is_superuser=True."
  }

  /** A saved user: its email, its other field values, and whether it got a
      usable password (`set_password(None)` stores an unusable one). */
  datatype StoredUser = StoredUser(email: string, fields: map<string, PyValue>, usablePassword: bool)

  /** `create_user`. The email is required (Python `None` and `""` are both
      refused); `normalize` stands for `normalize_email`. */
  function CreateUser(email: Option<string>, password: Option<string>, extra: map<string, PyValue>,
                      normalize: string -> string): (r: Result<StoredUser, CreateError>)
    requires extra.Keys <= UserFields
    ensures r.Failure? <==> email.None? || email.value == ""
    ensures r.Failure? ==> r.error == EmailNotSet
    ensures r.Success? ==> r.value.email == normalize(email.value)
    ensures r.Success? ==> forall k :: k in extra ==> k in r.value.fields && r.value.fields[k] == extra[k]
    ensures r.Success? ==> forall k :: k in FieldDefaults && k !in extra ==>
                             k in r.value.fields && r.value.fields[k] == FieldDefaults[k]
    ensures r.Success? ==> (r.value.usablePassword <==> password.Some?)
    ensures r.Success? ==> r.value.fields.Keys <= UserFields
  {
    if email.None? || email.value == "" then Failure(EmailNotSet)
    else Success(StoredUser(normalize(email.value), FieldDefaults + extra, password.Some?))
  }

  /** The stored role: the one given, else the model's default. */
  function StoredRole(u: StoredUser): PyValue {
    Get(u.fields, "role", PyNone)
  }

  /** `create_superuser`: staff, superuser and the manager role are filled in
      only when absent; staff and superuser must then be exactly `True`,
      which is checked before the email. */
  function CreateSuperuser(email: Option<string>, password: Option<string>, extra: map<string, PyValue>,
                           normalize: string -> string): (r: Result<StoredUser, CreateError>)
    requires extra.Keys <= UserFields
    ensures !IsTrue(Get(extra, "is_staff", PyBool(true))) ==> r == Failure(NotStaff)
    ensures IsTrue(Get(extra, "is_staff", PyBool(true))) && !IsTrue(Get(extra, "is_superuser", PyBool(true)))
            ==> r == Failure(NotSuperuser)
    ensures r.Success? ==>
      && IsTrue(Get(r.value.fields, "is_staff", PyNone)) && IsTrue(Get(r.value.fields, "is_superuser", PyNone))
      && StoredRole(r.value) == Get(extra, "role", PyStr("manager"))
    ensures IsTrue(Get(extra, "is_staff", PyBool(true))) && IsTrue(Get(extra, "is_superuser", PyBool(true))) ==>
      (r.Failure? <==> email.None? || email.value == "")
  {
    var e1 := SetDefault(extra, "is_staff", PyBool(true));
    var e2 := SetDefault(e1, "is_superuser", PyBool(true));
    var e3 := SetDefault(e2, "role", PyStr("manager"));
    if !IsTrue(e3["is_staff"]) then Failure(NotStaff)
    else if !IsTrue(e3["is_superuser"]) then Failure(NotSuperuser)
    else CreateUser(email, password, e3, normalize)
  }

  /** A plain user with no role given is an employee; a superuser with no
      role given is a manager. */
  lemma DefaultRoles(email: string, password: Option<string>, normalize: string -> string)
    requires email != ""
    ensures var r := CreateUser(Some(email), password, map[], normalize);
      r.Success? && StoredRole(r.value) == PyStr("employee")
    ensures var r := CreateSuperuser(Some(email), password, map[], normalize);
      r.Success? && StoredRole(r.value) == PyStr("manager")
  {
  }

  /** The choices name exactly the employee and manager roles, and the
      default is one of them. */
  lemma RoleChoicesAndDefault()
    ensures (set c | c in RoleChoices :: c.0) == {"employee", "manager"}
    ensures FieldDefaults["role"] == PyStr("employee")
  {
    assert RoleChoices[0].0 == "employee" && RoleChoices[1].0 == "manager";
  }

  /** `full_name`: first name, one space, last name. */
  function FullName(firstName: string, lastName: string): (n: string)
    ensures |n| == |firstName| + 1 + |lastName|
    ensures n[..|firstName|] == firstName && n[|firstName|] == ' ' && n[|firstName| + 1..] == lastName
  {
    firstName + " " + lastName
  }

  /** The employee profile's default annual leave, in days. */
  const DefaultLeaveBalance: int := 24

  /** An employee profile row's fields once created: the leave balance is
      the one given, else the default. */
  function NewEmployeeProfile(data: map<string, PyValue>): (row: map<string, PyValue>)
    ensures "leave_balance" in row
    ensures row["leave_balance"] == Get(data, "leave_balance", PyInt(DefaultLeaveBalance))
    ensures forall k :: k in data ==> k in row && row[k] == data[k]
  {
    SetDefault(data, "leave_balance", PyInt(DefaultLeaveBalance))
  }
}
