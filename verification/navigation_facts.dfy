/** Facts that join the store, the guard, the route table and the
    destination functions of the forms and pages. */
module NavigationFacts {
  import opened Wrappers
  import opened Roles
  import opened AuthStore
  import opened ProtectedRoute
  import opened AppRoutes
  import LoginForm
  import IndexPage
  import Navbar
  import ForbiddenPage

  /** A signed-in session for the given user. */
  function SignedIn(u: User): (s: Session)
    ensures s.isAuthenticated && s.user == Some(u)
  {
    Session(None, Some(u), true, false, None)
  }

  /** For an employee or a manager, every "go to your dashboard" decision
      of the client names, once the legacy alias is followed, the user's own
      dashboard path, and that path shows the user's own dashboard. */
  lemma DestinationsAgree(u: User, token: Option<string>)
    requires IsUserRole(u.role)
    ensures var s := Session(token, Some(u), true, false, None);
      && LoginForm.Destination(s).Some?
      && FollowAlias(LoginForm.Destination(s).value) == DashboardPath(u.role)
      && IndexPage.NavigateToDashboard(true, Some(u)) == LoginForm.Destination(s)
      && Navbar.DashboardLink(Some(u)) == LoginForm.Destination(s)
      && ForbiddenPage.GoToDashboard(Some(u)) == DashboardPath(u.role)
      && StepAt(true, Some(u), DashboardPath(u.role)) == Show(DashboardPage(u.role))
  {
    StepOwnDashboard(u);
    var legacy := LegacyPath(u.role);
    assert LoginForm.Destination(Session(token, Some(u), true, false, None)) == Some(legacy);
  }

  /** For a user whose role is admin the same decisions disagree: the forms
      and the landing page do not navigate, the navigation bar's link ends
      in an endless redirect, and the access-denied page goes home. */
  lemma AdminDestinationsDisagree(u: User, fuel: nat)
    requires u.role == Admin
    ensures LoginForm.Destination(SignedIn(u)).None?
    ensures IndexPage.NavigateToDashboard(true, Some(u)).None?
    ensures Navbar.DashboardLink(Some(u)) == Some(LegacyPath(Employee))
    ensures Resolve(true, Some(u), LegacyPath(Employee), None, fuel) == Unresolved
    ensures ForbiddenPage.GoToDashboard(Some(u)) == ForbiddenPage.GoHome
  {
    StepLegacy(true, Some(u), Employee);
    if fuel > 0 {
      AdminUserLoops(u, fuel - 1);
    }
  }

  /** A valid sign-in whose response carries an employee or a manager
      navigates to that user's own legacy dashboard path. */
  lemma SignInGoesToOwnLegacy(s: Session, email: string, password: string, o: Outcome, u: User)
    requires LoginForm.ValidateForm(email, password).0
    requires Succeeded(o) && o.body.user == Some(u) && IsUserRole(u.role)
    ensures LoginForm.HandleSubmit(s, email, password, o).navigateTo == Some(LegacyPath(u.role))
  {
    var after := Login(ClearError(s), o);
    assert after.isAuthenticated && after.user == Some(u);
    var r := LoginForm.HandleSubmit(s, email, password, o);
    assert r.navigateTo == LoginForm.Destination(after);
    LegacyPathNames();
  }

  /** The path the guard attaches on a login redirect is never read: after a
      successful sign-in as an employee or a manager the form navigates to
      the user's own legacy dashboard whatever path was first requested, and
      lands on the user's own dashboard even when another one was asked for. */
  lemma RedirectMemoryUnused(s: Session, requested: string, email: string, password: string,
                             o: Outcome, u: User)
    requires !s.isAuthenticated && IsDashboardPath(requested)
    requires LoginForm.ValidateForm(email, password).0
    requires Succeeded(o) && o.body.user == Some(u) && IsUserRole(u.role)
    ensures StepAt(s.isAuthenticated, s.user, requested) == Navigate("/login", Some(requested))
    ensures var r := LoginForm.HandleSubmit(s, email, password, o);
      && r.navigateTo == Some(LegacyPath(u.role))
      && Resolve(true, Some(u), r.navigateTo.value, None, 3).Landed?
      && Resolve(true, Some(u), r.navigateTo.value, None, 3).page == DashboardPage(u.role)
      && (requested != DashboardPath(u.role) ==>
            Resolve(true, Some(u), r.navigateTo.value, None, 3).page != Lookup(requested).page)
  {
    UnauthenticatedDashboardGoesToLogin(s.user, requested, None, 1);
    SignInGoesToOwnLegacy(s, email, password, o, u);
    OwnDashboardReached(u, u.role, 3);
    DashboardPathShowsOwnPage(requested, u.role);
  }

  /** A successful response without a user leaves an authenticated session
      with no user; every guard lets it through, the admin one included,
      while the landing page sends it to the login page. */
  lemma SessionWithoutUser(s: Session, token: Option<string>, message: Option<string>)
    ensures var r := Login(s, Responded(true, Body(token, None, message)));
      && r.isAuthenticated && r.user.None?
      && Resolve(r.isAuthenticated, r.user, DashboardPath(Admin), None, 0) == Landed(AdminDashboard, 0, None)
      && LoginForm.Destination(r).None?
      && IndexPage.NavigateToDashboard(r.isAuthenticated, r.user) == Some("/login")
  {
    NullUserSeesAdminDashboard(None, 0);
  }

  /** After signing out from the navigation bar the client is on the login
      page, and every dashboard path sends it back there. */
  lemma SignOutEndsOnLogin(s: Session, path: string)
    requires IsDashboardPath(path)
    ensures var (after, to) := Navbar.SignOut(s);
      && Resolve(after.isAuthenticated, after.user, to, None, 0) == Landed(LoginPage, 0, None)
      && Resolve(after.isAuthenticated, after.user, path, None, 1) == Landed(LoginPage, 1, Some(path))
  {
    PublicRoutes();
    UnauthenticatedDashboardGoesToLogin(None, path, None, 1);
  }
}
