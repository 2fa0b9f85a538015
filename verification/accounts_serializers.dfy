/** The backend's user serializer: which fields it reads and writes, and
    `create`, which makes the user and at most one role profile from the
    validated data. */
module AccountsSerializers {
  import opened Wrappers
  import opened PyValues
  import opened AccountsModels

  /** The serializer's declared fields, in order. */
  const DeclaredFields: seq<string> :=
    ["id", "email", "first_name", "last_name", "role", "password", "date_joined", "employee_profile", "manager_profile"]
  const WriteOnly: set<string> := {"password"}
  const ReadOnly: set<string> := {"id", "date_joined"}

  /** The keys of the serialized output. */
  function OutputFields(): (r: set<string>)
    ensures "password" !in r
    ensures forall f :: f in r <==> f in DeclaredFields && f !in WriteOnly
  {
    set f | f in DeclaredFields && f !in WriteOnly
  }

  /** The keys accepted as input. */
  function InputFields(): (r: set<string>)
    ensures "date_joined" !in r && "id" !in r && "password" in r
    ensures forall f :: f in r <==> f in DeclaredFields && f !in ReadOnly
  {
    set f | f in DeclaredFields && f !in ReadOnly
  }

  /** A validated entry: a plain value, or a nested profile's fields. */
  datatype Entry = Value(v: PyValue) | Nested(fields: map<string, PyValue>)

  const ProfileKeys: set<string> := {"employee_profile", "manager_profile"}

  /** What validation guarantees: a non-blank string email (the model's
      email field is required and may not be blank), nested entries exactly
      at the profile keys, and otherwise only writable user fields. */
  predicate WellFormed(vd: map<string, Entry>) {
    && "email" in vd && vd["email"].Value? && vd["email"].v.PyStr? && vd["email"].v.s != ""
    && (forall k :: k in vd ==> (vd[k].Nested? <==> k in ProfileKeys))
    && (forall k :: k in vd && k !in ProfileKeys ==> k in InputFields())
  }

  /** A nested profile entry is truthy when it holds at least one field. */
  predicate ProfileGiven(vd: map<string, Entry>, key: string) {
    key in vd && vd[key].Nested? && |vd[key].fields| > 0
  }

  datatype Profile = NoProfile | EmployeeProfile(fields: map<string, PyValue>) | ManagerProfile(fields: map<string, PyValue>)

  datatype Created = Created(user: StoredUser, profile: Profile)

  /** The keyword arguments handed to `create_user` besides the email and
      the password: the validated data with the profile entries popped. */
  function UserKeywords(vd: map<string, Entry>): (kw: map<string, PyValue>)
    requires WellFormed(vd)
    ensures kw.Keys !! ProfileKeys && "email" !in kw && "password" !in kw
    ensures forall k :: k in vd && k !in ProfileKeys && k != "email" && k != "password" ==> k in kw && kw[k] == vd[k].v
    ensures kw.Keys <= UserFields
  {
    map k | k in vd && k !in ProfileKeys && k != "email" && k != "password" :: vd[k].v
  }

  /** The password argument: a string, or `None` when absent or null. */
  function PasswordArg(vd: map<string, Entry>): Option<string>
    requires WellFormed(vd)
  {
    if "password" in vd && vd["password"].v.PyStr? then Some(vd["password"].v.s) else None
  }

  /** No model field is named like a profile entry. */
  lemma ProfileKeysAreNotUserFields()
    ensures UserFields !! ProfileKeys
  {
  }

  /** The profile `create` makes for the role read from the data: only the
      profile that belongs to that role, and only when it has fields. */
  function ChooseProfile(vd: map<string, Entry>, role: Entry): (p: Profile)
    requires WellFormed(vd)
    ensures p.EmployeeProfile? <==> role == Value(PyStr("employee")) && ProfileGiven(vd, "employee_profile")
    ensures p.ManagerProfile? <==> role == Value(PyStr("manager")) && ProfileGiven(vd, "manager_profile")
    ensures p.EmployeeProfile? ==> p.fields == NewEmployeeProfile(vd["employee_profile"].fields)
    ensures p.ManagerProfile? ==> p.fields == vd["manager_profile"].fields
  {
    if role == Value(PyStr("employee")) && ProfileGiven(vd, "employee_profile") then
      EmployeeProfile(NewEmployeeProfile(vd["employee_profile"].fields))
    else if role == Value(PyStr("manager")) && ProfileGiven(vd, "manager_profile") then
      ManagerProfile(vd["manager_profile"].fields)
    else NoProfile
  }

  /** `create`. The role read for choosing the profile defaults to
      `"employee"`; profile data for the other role is dropped. Validated
      data always has an email, so `create_user` cannot refuse it. */
  function Create(vd: map<string, Entry>, normalize: string -> string): (r: Created)
    requires WellFormed(vd)
    ensures r.user.email == normalize(vd["email"].v.s)
    ensures r.user.fields.Keys !! ProfileKeys
    ensures r.profile.EmployeeProfile? <==>
              (Get(vd, "role", Value(PyStr("employee"))) == Value(PyStr("employee")) && ProfileGiven(vd, "employee_profile"))
    ensures r.profile.ManagerProfile? <==>
              (Get(vd, "role", Value(PyStr("employee"))) == Value(PyStr("manager")) && ProfileGiven(vd, "manager_profile"))
    ensures r.profile.EmployeeProfile? ==> r.profile.fields == NewEmployeeProfile(vd["employee_profile"].fields)
    ensures r.profile.ManagerProfile? ==> r.profile.fields == vd["manager_profile"].fields
  {
    var created := CreateUser(Some(vd["email"].v.s), PasswordArg(vd), UserKeywords(vd), normalize);
    ProfileKeysAreNotUserFields();
    Created(created.value, ChooseProfile(vd, Get(vd, "role", Value(PyStr("employee")))))
  }

  /** With no role in the data, the user is stored as an employee and only
      an employee profile can be made. */
  lemma AbsentRoleIsEmployee(vd: map<string, Entry>, normalize: string -> string)
    requires WellFormed(vd) && "role" !in vd
    ensures var r := Create(vd, normalize);
      StoredRole(r.user) == PyStr("employee") && !r.profile.ManagerProfile?
  {
    var kw := UserKeywords(vd);
    assert "role" !in kw;
    assert Get(vd, "role", Value(PyStr("employee"))) == Value(PyStr("employee"));
    var r := Create(vd, normalize);
    var created := CreateUser(Some(vd["email"].v.s), PasswordArg(vd), kw, normalize);
    assert r.user == created.value;
    assert "role" in FieldDefaults && FieldDefaults["role"] == PyStr("employee");
  }
}
