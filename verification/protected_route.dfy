/** The access guard wrapped around each role-gated dashboard: a pure
    decision over the store's authentication flag and user, the route's
    allowed roles and the current location, plus the toast that the same
    conditions trigger. */
module ProtectedRoute {
  import opened Wrappers
  import opened Roles
  import opened AuthStore

  datatype Decision =
    | RedirectLogin(from: string)   // to `/login`, carrying the location as state
    | Redirect(to: string)          // to another path, without state
    | Render

  /** The path a user whose role is not allowed is sent to: the legacy
      employee dashboard for an employee, the legacy manager dashboard for
      every other role. */
  function DenialTarget(r: Role): (p: string)
    ensures p == "/employee-dashboard" <==> r == Employee
    ensures p != "/employee-dashboard" ==> p == "/manager-dashboard"
  {
    if r == Employee then "/employee-dashboard" else "/manager-dashboard"
  }

  /** An allowed-roles array is given and the user's role is not in it. A
      given array, even an empty one, is truthy. */
  predicate RoleRefused(user: Option<User>, allowedRoles: Option<set<Role>>) {
    allowedRoles.Some? && user.Some? && user.value.role !in allowedRoles.value
  }

  /** The guard's decision. */
  function Decide(isAuthenticated: bool, user: Option<User>, allowedRoles: Option<set<Role>>,
                  location: string): (d: Decision)
    ensures d.RedirectLogin? <==> !isAuthenticated
    ensures d.RedirectLogin? ==> d.from == location
    ensures d.Redirect? <==> isAuthenticated && RoleRefused(user, allowedRoles)
    ensures d.Redirect? ==> d.to == DenialTarget(user.value.role)
    ensures isAuthenticated && (allowedRoles.None? || user.None?) ==> d == Render
    ensures isAuthenticated && user.Some? && allowedRoles.Some? && user.value.role in allowedRoles.value
            ==> d == Render
  {
    if !isAuthenticated then RedirectLogin(location)
    else if RoleRefused(user, allowedRoles) then Redirect(DenialTarget(user.value.role))
    else Render
  }

  /** A role denial never sends the user to `/forbidden` or to `/login`. */
  lemma DenialNeverForbiddenOrLogin(isAuthenticated: bool, user: Option<User>,
                                    allowedRoles: Option<set<Role>>, location: string)
    ensures var d := Decide(isAuthenticated, user, allowedRoles, location);
      d.Redirect? ==> d.to != "/forbidden" && d.to != "/login"
  {
  }

  datatype Toast = AuthenticationRequired | AccessDenied

  /** The toast the guard's effect raises, from its own copy of the
      conditions; it fires exactly when the matching redirect fires. */
  function ToastFor(isAuthenticated: bool, user: Option<User>, allowedRoles: Option<set<Role>>): (t: Option<Toast>)
    ensures forall location: string ::
      var d := Decide(isAuthenticated, user, allowedRoles, location);
      && (t == Some(AuthenticationRequired) <==> d.RedirectLogin?)
      && (t == Some(AccessDenied) <==> d.Redirect?)
      && (t == None <==> d == Render)
  {
    if !isAuthenticated then Some(AuthenticationRequired)
    else if allowedRoles.Some? && user.Some? && user.value.role !in allowedRoles.value then Some(AccessDenied)
    else None
  }
}
