/** The application's route table as data, one navigation step over it, and
    the resolution of a chain of navigations until a page is shown. */
module AppRoutes {
  import opened Wrappers
  import opened Roles
  import opened AuthStore
  import opened ProtectedRoute

  datatype Page =
    | Home | LoginPage | RegisterPage
    | EmployeeDashboard | ManagerDashboard | AdminDashboard
    | ForbiddenPage | NotFound
    | EmptyOutlet   // a parent route without an element: its outlet, with no child matched

  datatype Element =
    | Public(page: Page)
    | Guarded(allowed: set<Role>, page: Page)   // wrapped in the access guard
    | Alias(target: string)                     // `<Navigate to=... replace />`

  /** The route table, in declaration order. */
  const Table: seq<(string, Element)> := [
    ("/", Public(Home)),
    ("/login", Public(LoginPage)),
    ("/register", Public(RegisterPage)),
    ("/dashboard", Public(EmptyOutlet)),
    ("/dashboard/employee", Guarded({Employee}, EmployeeDashboard)),
    ("/dashboard/manager", Guarded({Manager}, ManagerDashboard)),
    ("/dashboard/admin", Guarded({Admin}, AdminDashboard)),
    ("/employee-dashboard", Alias("/dashboard/employee")),
    ("/manager-dashboard", Alias("/dashboard/manager")),
    ("/admin-dashboard", Alias("/dashboard/admin")),
    ("/forbidden", Public(ForbiddenPage))
  ]

  /** No entry before index `j` has the given path. */
  predicate NoMatchBefore(path: string, j: int) {
    forall k :: 0 <= k < j && k < |Table| ==> Table[k].0 != path
  }

  /** The element of the first entry at index `i` or later whose path is
      `path`, or the catch-all not-found page when there is none. */
  function LookupFrom(i: nat, path: string): (e: Element)
    requires i <= |Table|
    ensures || (e == Public(NotFound) && forall j :: i <= j < |Table| ==> Table[j].0 != path)
            || (exists j :: i <= j < |Table| && Table[j].0 == path && e == Table[j].1 &&
                             forall k :: i <= k < j ==> Table[k].0 != path)
    decreases |Table| - i
  {
    if i == |Table| then Public(NotFound)
    else if Table[i].0 == path then Table[i].1
    else LookupFrom(i + 1, path)
  }

  /** Route matching: the first entry with the path, else not found. */
  function Lookup(path: string): Element {
    LookupFrom(0, path)
  }

  /** The entry at index `j` is the first with its path, so it is the match. */
  lemma FirstMatch(path: string, j: nat)
    requires j < |Table| && Table[j].0 == path && NoMatchBefore(path, j)
    ensures Lookup(path) == Table[j].1
  {
  }

  /** A path that is no entry's path is not found. */
  lemma NoMatch(path: string)
    requires NoMatchBefore(path, |Table|)
    ensures Lookup(path) == Public(NotFound)
  {
  }

  /** Whatever a path resolves to is the element of some entry with that
      path, or the not-found page. */
  lemma LookupFromTable(path: string) returns (j: int)
    ensures || (Lookup(path) == Public(NotFound) && j == -1)
            || (0 <= j < |Table| && Table[j].0 == path && Lookup(path) == Table[j].1)
  {
    if Lookup(path) == Public(NotFound) {
      j := -1;
    } else {
      j :| 0 <= j < |Table| && Table[j].0 == path && Lookup(path) == Table[j].1;
    }
  }

  /** The dashboard page of each role. */
  function DashboardPage(r: Role): Page {
    match r
    case Employee => EmployeeDashboard
    case Manager => ManagerDashboard
    case Admin => AdminDashboard
  }

  /** The `/dashboard/...` path of each role, guarded for that role alone. */
  function DashboardPath(r: Role): (p: string)
    ensures Lookup(p) == Guarded({r}, DashboardPage(r))
  {
    match r
    case Employee => FirstMatch("/dashboard/employee", 4); "/dashboard/employee"
    case Manager => FirstMatch("/dashboard/manager", 5); "/dashboard/manager"
    case Admin => FirstMatch("/dashboard/admin", 6); "/dashboard/admin"
  }

  /** The legacy path of each role: an alias of its dashboard path, whose
      target is not itself an alias. */
  function LegacyPath(r: Role): (p: string)
    ensures Lookup(p) == Alias(DashboardPath(r))
    ensures !Lookup(DashboardPath(r)).Alias?
  {
    match r
    case Employee => FirstMatch("/employee-dashboard", 7); "/employee-dashboard"
    case Manager => FirstMatch("/manager-dashboard", 8); "/manager-dashboard"
    case Admin => FirstMatch("/admin-dashboard", 9); "/admin-dashboard"
  }

  predicate IsDashboardPath(p: string) {
    p == "/dashboard/employee" || p == "/dashboard/manager" || p == "/dashboard/admin"
  }

  /** Each dashboard path shows its own role's dashboard, so a dashboard path
      other than a role's own never shows that role's dashboard. */
  lemma DashboardPathShowsOwnPage(path: string, r: Role)
    requires IsDashboardPath(path)
    ensures Lookup(path).Guarded?
    ensures Lookup(path).page == DashboardPage(r) <==> path == DashboardPath(r)
  {
    var e, m, a := DashboardPath(Employee), DashboardPath(Manager), DashboardPath(Admin);
    assert path == e || path == m || path == a;
  }

  /** The public pages are unguarded, and so is the bare `/dashboard`
      parent path, which shows an empty outlet rather than the not-found
      page. */
  lemma PublicRoutes()
    ensures Lookup("/") == Public(Home)
    ensures Lookup("/login") == Public(LoginPage)
    ensures Lookup("/register") == Public(RegisterPage)
    ensures Lookup("/dashboard") == Public(EmptyOutlet)
    ensures Lookup("/forbidden") == Public(ForbiddenPage)
  {
    SignInRoutes();
    OutletRoutes();
    ForbiddenRoute();
  }

  /** The first two entries match their own paths. */
  lemma SignInRoutes()
    ensures Lookup("/") == Public(Home) && Lookup("/login") == Public(LoginPage)
  {
    FirstMatch("/", 0);
    FirstMatch("/login", 1);
  }

  /** The third and fourth entries match their own paths. */
  lemma OutletRoutes()
    ensures Lookup("/register") == Public(RegisterPage) && Lookup("/dashboard") == Public(EmptyOutlet)
  {
    FirstMatch("/register", 2);
    FirstMatch("/dashboard", 3);
  }

  /** The last entry is the first whose path is "/forbidden"; it differs
      from "/dashboard", of the same length, in its second character. */
  lemma ForbiddenRoute()
    ensures Lookup("/forbidden") == Public(ForbiddenPage)
  {
    assert "/forbidden"[1] != "/dashboard"[1];
    FirstMatch("/forbidden", 10);
  }

  /** Only the three dashboard paths are guarded. */
  lemma GuardedOnlyDashboards(path: string)
    ensures Lookup(path).Guarded? <==> IsDashboardPath(path)
  {
    var j := LookupFromTable(path);
    if IsDashboardPath(path) {
      if path == DashboardPath(Employee) {
      } else if path == DashboardPath(Manager) {
      } else {
        assert path == DashboardPath(Admin);
      }
    }
    if Lookup(path).Guarded? {
      assert j == 4 || j == 5 || j == 6 by {
        assert j == -1 || j == 0 || j == 1 || j == 2 || j == 3 || j == 4 || j == 5 || j == 6 || j == 7 || j == 8 || j == 9 || j == 10;
      }
    }
  }

  /** Every alias points at a dashboard path. */
  lemma AliasTargetsAreDashboards(path: string)
    ensures Lookup(path).Alias? ==> IsDashboardPath(Lookup(path).target)
  {
    var j := LookupFromTable(path);
    assert j == -1 || j == 0 || j == 1 || j == 2 || j == 3 || j == 4 || j == 5 || j == 6 || j == 7 || j == 8 || j == 9 || j == 10;
  }

  /** The path after the router has followed an alias, if the path is one;
      the result is never itself an alias. */
  function FollowAlias(path: string): (q: string)
    ensures !Lookup(q).Alias?
    ensures Lookup(path).Alias? ==> q == Lookup(path).target
    ensures !Lookup(path).Alias? ==> q == path
  {
    AliasTargetsAreDashboards(path);
    if Lookup(path).Alias? then
      var t := Lookup(path).target;
      GuardedOnlyDashboards(t);
      t
    else path
  }

  /** Where rendering the element at `path` leads: a page is shown, or the
      router navigates on, carrying the guard's `from` state if any. */
  datatype Step = Show(page: Page) | Navigate(to: string, from: Option<string>)

  function StepAt(isAuthenticated: bool, user: Option<User>, path: string): Step {
    match Lookup(path)
    case Public(p) => Show(p)
    case Alias(t) => Navigate(t, None)
    case Guarded(allowed, p) =>
      match Decide(isAuthenticated, user, Some(allowed), path)
      case RedirectLogin(f) => Navigate("/login", Some(f))
      case Redirect(t) => Navigate(t, None)
      case Render => Show(p)
  }

  /** The page finally shown, the number of navigations taken to reach it,
      and the location state of the last navigation; or no page within the
      allowed number of navigations. */
  datatype Landing = Landed(page: Page, hops: nat, from: Option<string>) | Unresolved

  /** Following navigations from `path` for at most `fuel` steps, for any
      way of taking one step. */
  function Follow(step: string -> Step, path: string, from: Option<string>, fuel: nat): (l: Landing)
    ensures l.Landed? ==> l.hops <= fuel
    decreases fuel
  {
    match step(path)
    case Show(p) => Landed(p, 0, from)
    case Navigate(t, f) =>
      if fuel == 0 then Unresolved
      else
        match Follow(step, t, f, fuel - 1)
        case Landed(p, h, f') => Landed(p, h + 1, f')
        case Unresolved => Unresolved
  }

  /** The step function of a given session. */
  function StepsOf(isAuthenticated: bool, user: Option<User>): string -> Step {
    p => StepAt(isAuthenticated, user, p)
  }

  /** Where a navigation lands for a given session. */
  function Resolve(isAuthenticated: bool, user: Option<User>, path: string,
                   from: Option<string>, fuel: nat): (l: Landing)
    ensures l.Landed? ==> l.hops <= fuel
  {
    Follow(StepsOf(isAuthenticated, user), path, from, fuel)
  }

  /** A path whose step shows a page lands there at once. */
  lemma FollowShown(step: string -> Step, path: string, from: Option<string>, fuel: nat, page: Page)
    requires step(path) == Show(page)
    ensures Follow(step, path, from, fuel) == Landed(page, 0, from)
  {
  }

  /** A path whose step navigates lands one navigation later than its
      target. */
  lemma FollowHop(step: string -> Step, path: string, from: Option<string>, fuel: nat,
                  to: string, f: Option<string>, page: Page, hops: nat, last: Option<string>)
    requires step(path) == Navigate(to, f) && fuel > 0
    requires Follow(step, to, f, fuel - 1) == Landed(page, hops, last)
    ensures Follow(step, path, from, fuel) == Landed(page, hops + 1, last)
  {
  }

  /** Two paths that navigate to each other never land anywhere. */
  lemma {:induction false} FollowLoop(step: string -> Step, a: string, b: string, fuel: nat)
    requires step(a) == Navigate(b, None) && step(b) == Navigate(a, None)
    ensures Follow(step, a, None, fuel) == Unresolved
    ensures Follow(step, b, None, fuel) == Unresolved
    decreases fuel
  {
    if fuel > 0 {
      FollowLoop(step, a, b, fuel - 1);
    }
  }

  /** A page no single step shows is never landed on. */
  lemma {:induction false} FollowNeverShows(step: string -> Step, page: Page, path: string,
                                            from: Option<string>, fuel: nat)
    requires forall q :: step(q) != Show(page)
    ensures !(Follow(step, path, from, fuel).Landed? && Follow(step, path, from, fuel).page == page)
    decreases fuel
  {
    match step(path)
    case Show(_) =>
    case Navigate(t, f) =>
      if fuel > 0 {
        FollowNeverShows(step, page, t, f, fuel - 1);
      }
  }

  /** A shown path and an alias of it land with zero and one navigation. */
  lemma AliasLands(step: string -> Step, target: string, alias: string, page: Page, fuel: nat)
    requires step(target) == Show(page) && step(alias) == Navigate(target, None) && fuel >= 1
    ensures Follow(step, target, None, fuel) == Landed(page, 0, None)
    ensures Follow(step, alias, None, fuel) == Landed(page, 1, None)
  {
    FollowShown(step, target, None, fuel - 1, page);
  }

  /** A path redirected to the alias of a shown path lands after two
      navigations, and an alias of that path after three. */
  lemma DetourLands(step: string -> Step, target: string, alias: string, other: string, otherAlias: string,
                    page: Page, fuel: nat)
    requires step(target) == Show(page) && step(alias) == Navigate(target, None)
    requires step(other) == Navigate(alias, None) && step(otherAlias) == Navigate(other, None)
    requires fuel >= 3
    ensures Follow(step, other, None, fuel) == Landed(page, 2, None)
    ensures Follow(step, otherAlias, None, fuel) == Landed(page, 3, None)
  {
    AliasLands(step, target, alias, page, fuel - 2);
    AliasLands(step, target, alias, page, fuel - 1);
    FollowHop(step, other, None, fuel - 1, alias, None, page, 1, None);
    FollowHop(step, other, None, fuel, alias, None, page, 1, None);
    FollowHop(step, otherAlias, None, fuel, other, None, page, 2, None);
  }

  /** A user's own dashboard path renders their dashboard. */
  lemma StepOwnDashboard(u: User)
    ensures StepAt(true, Some(u), DashboardPath(u.role)) == Show(DashboardPage(u.role))
  {
  }

  /** Another role's dashboard path sends the user to the denial target. */
  lemma StepOtherDashboard(u: User, r: Role)
    requires r != u.role
    ensures StepAt(true, Some(u), DashboardPath(r)) == Navigate(DenialTarget(u.role), None)
  {
  }

  /** A legacy path navigates to its dashboard path, whoever asks. */
  lemma StepLegacy(isAuthenticated: bool, user: Option<User>, r: Role)
    ensures StepAt(isAuthenticated, user, LegacyPath(r)) == Navigate(DashboardPath(r), None)
  {
  }

  /** The legacy paths spelled out. */
  lemma LegacyPathNames()
    ensures LegacyPath(Employee) == "/employee-dashboard"
    ensures LegacyPath(Manager) == "/manager-dashboard"
  {
  }

  /** For an employee or a manager the denial target is their own legacy path. */
  lemma DenialTargetIsOwnLegacy(r: Role)
    requires IsUserRole(r)
    ensures DenialTarget(r) == LegacyPath(r)
  {
  }

  /** A signed-in employee or manager who opens any dashboard path, new or
      legacy, is shown their own dashboard after at most three navigations
      (at most two when starting from a `/dashboard/...` path). */
  lemma OwnDashboardReached(u: User, r: Role, fuel: nat)
    requires IsUserRole(u.role) && fuel >= 3
    ensures var l := Resolve(true, Some(u), DashboardPath(r), None, fuel);
      l.Landed? && l.page == DashboardPage(u.role) && l.hops <= 2
    ensures var l := Resolve(true, Some(u), LegacyPath(r), None, fuel);
      l.Landed? && l.page == DashboardPage(u.role) && l.hops <= 3
  {
    var step := StepsOf(true, Some(u));
    StepOwnDashboard(u);
    StepLegacy(true, Some(u), u.role);
    StepLegacy(true, Some(u), r);
    DenialTargetIsOwnLegacy(u.role);
    if r != u.role {
      StepOtherDashboard(u, r);
      DetourLands(step, DashboardPath(u.role), LegacyPath(u.role), DashboardPath(r), LegacyPath(r),
                  DashboardPage(u.role), fuel);
    } else {
      AliasLands(step, DashboardPath(u.role), LegacyPath(u.role), DashboardPage(u.role), fuel);
    }
  }

  /** Without authentication, every dashboard path leads in one navigation to
      the login page, carrying the requested path. */
  lemma UnauthenticatedDashboardGoesToLogin(user: Option<User>, path: string, from: Option<string>, fuel: nat)
    requires IsDashboardPath(path) && fuel >= 1
    ensures StepAt(false, user, path) == Navigate("/login", Some(path))
    ensures Resolve(false, user, path, from, fuel) == Landed(LoginPage, 1, Some(path))
  {
    GuardedOnlyDashboards(path);
    SignInRoutes();
    var step := StepsOf(false, user);
    assert step(path) == Navigate("/login", Some(path));
    FollowShown(step, "/login", Some(path), fuel - 1, LoginPage);
    FollowHop(step, path, from, fuel, "/login", Some(path), LoginPage, 0, Some(path));
  }

  /** A step that shows the admin dashboard needs an admin user or an
      authenticated session without a user. */
  lemma ShowAdminNeedsAdmin(isAuthenticated: bool, user: Option<User>, path: string)
    ensures StepAt(isAuthenticated, user, path) == Show(AdminDashboard) ==>
              isAuthenticated && (user.None? || user.value.role == Admin)
  {
    if StepAt(isAuthenticated, user, path) == Show(AdminDashboard) {
      PublicShowsNoDashboard(path);
      GuardedOnlyDashboards(path);
      DashboardPathShowsOwnPage(path, Admin);
      assert Lookup(path) == Guarded({Admin}, AdminDashboard);
    }
  }

  /** No unguarded entry shows a dashboard page. */
  lemma PublicShowsNoDashboard(path: string)
    ensures Lookup(path).Public? ==> Lookup(path).page !in {EmployeeDashboard, ManagerDashboard, AdminDashboard}
  {
    var j := LookupFromTable(path);
    assert j == -1 || j == 0 || j == 1 || j == 2 || j == 3 || j == 4 || j == 5 || j == 6 || j == 7 || j == 8 || j == 9 || j == 10;
  }

  /** No chain of navigations shows the admin dashboard to an employee or a
      manager, nor to anyone signed out. */
  lemma AdminDashboardNeverShown(isAuthenticated: bool, user: Option<User>, path: string,
                                 from: Option<string>, fuel: nat)
    requires !isAuthenticated || (user.Some? && IsUserRole(user.value.role))
    ensures !(Resolve(isAuthenticated, user, path, from, fuel).Landed? &&
              Resolve(isAuthenticated, user, path, from, fuel).page == AdminDashboard)
  {
    var step := StepsOf(isAuthenticated, user);
    forall q
      ensures step(q) != Show(AdminDashboard)
    {
      ShowAdminNeedsAdmin(isAuthenticated, user, q);
    }
    FollowNeverShows(step, AdminDashboard, path, from, fuel);
  }

  /** An authenticated session without a user passes every guard, the
      admin one included. */
  lemma NullUserSeesAdminDashboard(from: Option<string>, fuel: nat)
    ensures Resolve(true, None, DashboardPath(Admin), from, fuel) == Landed(AdminDashboard, 0, from)
  {
  }

  /** A user whose role is admin, sent to the employee dashboard, bounces
      between the manager dashboard and its legacy alias for ever. */
  lemma AdminUserLoops(u: User, fuel: nat)
    requires u.role == Admin
    ensures Resolve(true, Some(u), DashboardPath(Employee), None, fuel) == Unresolved
  {
    StepOtherDashboard(u, Employee);
    ManagerAliasLoops(u, if fuel == 0 then 0 else fuel - 1);
  }

  lemma ManagerAliasLoops(u: User, fuel: nat)
    requires u.role == Admin
    ensures Resolve(true, Some(u), LegacyPath(Manager), None, fuel) == Unresolved
    ensures Resolve(true, Some(u), DashboardPath(Manager), None, fuel) == Unresolved
  {
    StepLegacy(true, Some(u), Manager);
    StepOtherDashboard(u, Manager);
    FollowLoop(StepsOf(true, Some(u)), LegacyPath(Manager), DashboardPath(Manager), fuel);
  }
}
