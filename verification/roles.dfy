/** The closed set of roles that appears anywhere in the client or the
    backend. The store's `UserRole` and the backend's `ROLE_CHOICES` only
    know employee and manager; `admin` occurs in a route's allowed set and
    in the admin user form. */
module Roles {
  import opened Wrappers

  datatype Role = Employee | Manager | Admin

  /** The roles a session user may carry according to the store's type. */
  predicate IsUserRole(r: Role) {
    r != Admin
  }

  /** The role's wire spelling. */
  function RoleName(r: Role): string {
    match r
    case Employee => "employee"
    case Manager => "manager"
    case Admin => "admin"
  }

  /** Reads a role from its wire spelling; any other string is no role. */
  function ParseRole(s: string): (r: Option<Role>)
    ensures r.Some? ==> RoleName(r.value) == s
    ensures forall q: Role :: RoleName(q) == s ==> r == Some(q)
  {
    if s == "employee" then Some(Employee)
    else if s == "manager" then Some(Manager)
    else if s == "admin" then Some(Admin)
    else None
  }
}
