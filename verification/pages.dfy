/** The landing page's dashboard button. */
module IndexPage {
  import opened Wrappers
  import opened Roles
  import opened AuthStore

  /** `navigateToDashboard`: the role's legacy dashboard when authenticated
      with a user, nowhere for any other role, `/login` otherwise (a user
      without the authenticated flag included). */
  function NavigateToDashboard(isAuthenticated: bool, user: Option<User>): (p: Option<string>)
    ensures p == Some("/login") <==> !isAuthenticated || user.None?
    ensures p == Some("/employee-dashboard") <==> isAuthenticated && user.Some? && user.value.role == Employee
    ensures p == Some("/manager-dashboard") <==> isAuthenticated && user.Some? && user.value.role == Manager
    ensures p.None? <==> isAuthenticated && user.Some? && user.value.role == Admin
  {
    if isAuthenticated && user.Some? then
      match user.value.role
      case Employee => Some("/employee-dashboard")
      case Manager => Some("/manager-dashboard")
      case Admin => None
    else Some("/login")
  }

  /** The button's label follows the authenticated flag alone. */
  function ButtonLabel(isAuthenticated: bool): (text: string)
    ensures text == "Go to Dashboard" <==> isAuthenticated
    ensures text == "Get Started" <==> !isAuthenticated
  {
    if isAuthenticated then "Go to Dashboard" else "Get Started"
  }
}

/** The navigation bar: what it shows for the store's user, and sign-out. */
module Navbar {
  import opened Wrappers
  import opened Roles
  import opened AuthStore

  /** The Dashboard link: present with a user, to the manager dashboard for
      a manager and to the employee dashboard for every other role. */
  function DashboardLink(user: Option<User>): (p: Option<string>)
    ensures p.Some? <==> user.Some?
    ensures p == Some("/manager-dashboard") <==> user.Some? && user.value.role == Manager
    ensures p == Some("/employee-dashboard") <==> user.Some? && user.value.role != Manager
  {
    if user.None? then None
    else if user.value.role == Manager then Some("/manager-dashboard")
    else Some("/employee-dashboard")
  }

  datatype Panel = UserPanel(name: string, role: Role) | SignInLinks

  /** The right-hand panel: the user's name and role with Sign out, or the
      Sign in and Sign up links. */
  function RightPanel(user: Option<User>): (p: Panel)
    ensures p.UserPanel? <==> user.Some?
    ensures p.UserPanel? ==> p.name == user.value.name && p.role == user.value.role
  {
    if user.Some? then UserPanel(user.value.name, user.value.role) else SignInLinks
  }

  /** Sign out: the store's `logout` first, then navigation to `/login`. */
  function SignOut(s: Session): (r: (Session, string))
    ensures r.0 == Logout(s) && r.1 == "/login"
    ensures !r.0.isAuthenticated && r.0.user.None? && RightPanel(r.0.user) == SignInLinks
  {
    (Logout(s), "/login")
  }
}

/** The access-denied page's two buttons. */
module ForbiddenPage {
  import opened Wrappers
  import opened Roles
  import opened AuthStore

  /** "Go Home" always goes to the root. */
  const GoHome: string := "/"

  /** "Go to Your Dashboard": the role's `/dashboard/...` path for the two
      known roles, the root for any other role, `/login` without a user;
      the authenticated flag is not consulted. */
  function GoToDashboard(user: Option<User>): (p: string)
    ensures p == "/login" <==> user.None?
    ensures p == "/dashboard/employee" <==> user.Some? && user.value.role == Employee
    ensures p == "/dashboard/manager" <==> user.Some? && user.value.role == Manager
    ensures p == GoHome <==> user.Some? && !IsUserRole(user.value.role)
  {
    if user.Some? then
      if user.value.role == Employee then "/dashboard/employee"
      else if user.value.role == Manager then "/dashboard/manager"
      else "/"
    else "/login"
  }
}
