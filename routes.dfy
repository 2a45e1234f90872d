// The client's route table and its guard (frontend/src/App.js): which screen
// a path shows for a given authentication state.

module Routes {

  /** The pages the router can render. */
  datatype Page =
    | LoginPage | RegisterPage | AdminLoginPage
    | Dashboard | Investments | Deposit | Withdrawal | Referrals | History | Profile
    | AdminDashboard | AdminUsers | AdminTransactions | AdminSettings

  /** What a route element renders: the loading spinner, a `<Navigate>`, a page,
      or Nothing for a path without a route. */
  datatype Screen = Spinner | Redirect(to: string) | Show(page: Page) | Nothing

  /** The part of the authentication context the routes read. */
  datatype AuthView = AuthView(signedIn: bool, loading: bool, isAdmin: bool)

  /** How a path is routed: a public page, a page behind the guard, or no route. */
  datatype RouteKind = Public(page: Page) | Guarded(page: Page, adminOnly: bool) | NoRoute

  /** ProtectedRoute: spinner while loading, then /login without a user,
      then / for a non-admin on an admin-only route, else the children. */
  function ProtectedRoute(auth: AuthView, adminOnly: bool, page: Page): (r: Screen)
    ensures auth.loading ==> r == Spinner
    ensures r.Show? ==> r.page == page
    ensures r != Nothing
  {
    if auth.loading then Spinner
    else if !auth.signedIn then Redirect("/login")
    else if adminOnly && !auth.isAdmin then Redirect("/")
    else Show(page)
  }

  /** ASCII upper case to lower case; anything else unchanged. */
  function Lower(c: char): char {
    if 'A' <= c <= 'Z' then (c as int + 32) as char else c
  }

  function LowerAll(s: string): (r: string)
    ensures |r| == |s| && forall i :: 0 <= i < |s| ==> r[i] == Lower(s[i])
  {
    seq(|s|, i requires 0 <= i < |s| => Lower(s[i]))
  }

  /** Drops trailing slashes, keeping a lone "/". */
  function TrimSlashes(s: string): (r: string)
    ensures |r| <= |s| && r == s[..|r|]
    ensures |r| <= 1 || r[|r| - 1] != '/'
    decreases |s|
  {
    if |s| > 1 && s[|s| - 1] == '/' then TrimSlashes(s[..|s| - 1]) else s
  }

  /** How the router compares a location with a route's path: without
      regard to case and with any trailing slashes ignored. */
  function Normalize(path: string): string {
    TrimSlashes(LowerAll(path))
  }

  /** The route table of AppRoutes, by normalized path. */
  function RouteOf(path: string): (r: RouteKind)
    ensures r.Public? <==> Normalize(path) in PublicPaths
    ensures r.Guarded? && !r.adminOnly <==> Normalize(path) in UserPaths
    ensures r.Guarded? && r.adminOnly <==> Normalize(path) in AdminPaths
  {
    RouteTable(Normalize(path))
  }

  const PublicPaths: set<string> := {"/login", "/register", "/admin/login"}
  const UserPaths: set<string> := {"/", "/investments", "/deposit", "/withdrawal", "/referrals", "/history", "/profile"}
  const AdminPaths: set<string> := {"/admin", "/admin/users", "/admin/transactions", "/admin/settings"}

  function RouteTable(path: string): (r: RouteKind)
    ensures r.Public? <==> path in PublicPaths
    ensures r.Guarded? && !r.adminOnly <==> path in UserPaths
    ensures r.Guarded? && r.adminOnly <==> path in AdminPaths
  {
    if path == "/login" then Public(LoginPage)
    else if path == "/register" then Public(RegisterPage)
    else if path == "/admin/login" then Public(AdminLoginPage)
    else if path == "/" then Guarded(Dashboard, false)
    else if path == "/investments" then Guarded(Investments, false)
    else if path == "/deposit" then Guarded(Deposit, false)
    else if path == "/withdrawal" then Guarded(Withdrawal, false)
    else if path == "/referrals" then Guarded(Referrals, false)
    else if path == "/history" then Guarded(History, false)
    else if path == "/profile" then Guarded(Profile, false)
    else if path == "/admin" then Guarded(AdminDashboard, true)
    else if path == "/admin/users" then Guarded(AdminUsers, true)
    else if path == "/admin/transactions" then Guarded(AdminTransactions, true)
    else if path == "/admin/settings" then Guarded(AdminSettings, true)
    else NoRoute
  }

  /** The element of a public route: the form without a user, otherwise a
      redirect (the public routes do not wait for `loading`). */
  function PublicRoute(auth: AuthView, page: Page): (r: Screen)
    ensures !auth.signedIn ==> r == Show(page)
    ensures auth.signedIn ==> r.Redirect?
    ensures r != Spinner && r != Nothing
  {
    if !auth.signedIn then Show(page)
    else match page
      case LoginPage => Redirect(if auth.isAdmin then "/admin" else "/")
      case RegisterPage => Redirect("/")
      case _ => Redirect("/admin")
  }

  /** AppRoutes: what `path` renders, Nothing when no route matches. */
  function Render(path: string, auth: AuthView): (r: Screen)
    ensures r == Nothing <==> RouteOf(path).NoRoute?
  {
    match RouteOf(path)
    case NoRoute => Nothing
    case Public(page) => PublicRoute(auth, page)
    case Guarded(page, adminOnly) => ProtectedRoute(auth, adminOnly, page)
  }

  // ---------------------------------------------------------------- properties

  predicate AdminOnly(path: string) {
    RouteOf(path).Guarded? && RouteOf(path).adminOnly
  }

  predicate IsAdminPage(page: Page) {
    page in {AdminDashboard, AdminUsers, AdminTransactions, AdminSettings}
  }

  /** Exactly the four admin pages are marked adminOnly. */
  lemma AdminOnlyPaths(path: string)
    ensures AdminOnly(path) <==> Normalize(path) in {"/admin", "/admin/users", "/admin/transactions", "/admin/settings"}
    ensures AdminOnly(path) ==> IsAdminPage(RouteOf(path).page)
  {
  }

  /** The guard's four outcomes, each as an if-and-only-if. */
  lemma GuardOutcomes(auth: AuthView, adminOnly: bool, page: Page)
    ensures ProtectedRoute(auth, adminOnly, page) == Spinner <==> auth.loading
    ensures ProtectedRoute(auth, adminOnly, page) == Redirect("/login") <==> !auth.loading && !auth.signedIn
    ensures ProtectedRoute(auth, adminOnly, page) == Redirect("/") <==>
      !auth.loading && auth.signedIn && adminOnly && !auth.isAdmin
    ensures ProtectedRoute(auth, adminOnly, page) == Show(page) <==>
      !auth.loading && auth.signedIn && (!adminOnly || auth.isAdmin)
  {
  }

  /** No admin page is ever shown to a caller who is not a signed-in admin. */
  lemma AdminPagesNeedAdmin(path: string, auth: AuthView)
    requires Render(path, auth).Show?
    requires IsAdminPage(Render(path, auth).page)
    ensures auth.signedIn && auth.isAdmin && !auth.loading
    ensures AdminOnly(path)
  {
  }

  /** A signed-in user on a non-admin guarded route sees it, admin or not. */
  lemma UserPagesForEveryone(path: string, auth: AuthView)
    requires RouteOf(path).Guarded? && !AdminOnly(path)
    requires auth.signedIn && !auth.loading
    ensures Render(path, auth) == Show(RouteOf(path).page)
  {
  }

  /** A signed-in user who opens a public page is redirected: /login to
      /admin for an admin and to / otherwise, /register to /, and
      /admin/login to /admin, whether or not loading has finished. */
  lemma PublicRedirects(auth: AuthView)
    requires auth.signedIn
    ensures Render("/login", auth) == Redirect(if auth.isAdmin then "/admin" else "/")
    ensures Render("/register", auth) == Redirect("/")
    ensures Render("/admin/login", auth) == Redirect("/admin")
  {
    RedirectTargets();
  }

  /** "/Admin/" reaches the same guarded page as "/admin". */
  lemma CaseAndSlashIgnored(auth: AuthView)
    ensures Render("/Admin/", auth) == Render("/admin", auth)
    ensures RouteOf("/Admin/") == Guarded(AdminDashboard, true)
  {
    RedirectTargets();
    assert LowerAll("/Admin/") == "/admin/";
    assert "/admin/"[..|"/admin/"| - 1] == "/admin";
  }

  /** The redirect targets are already in normal form. */
  lemma RedirectTargets()
    ensures Normalize("/login") == "/login" && Normalize("/") == "/" && Normalize("/admin") == "/admin"
    ensures Normalize("/register") == "/register" && Normalize("/admin/login") == "/admin/login"
  {
    assert LowerAll("/register") == "/register";
    assert LowerAll("/admin/login") == "/admin/login";
    assert LowerAll("/login") == "/login";
    assert LowerAll("/admin") == "/admin";
    assert LowerAll("/") == "/";
  }

  /** Once loading has finished, every redirect ends on a rendered page within
      two hops (/admin/login sends a signed-in non-admin to /admin, which
      sends them on to /). */
  lemma RedirectsSettle(path: string, auth: AuthView)
    requires !auth.loading
    requires Render(path, auth).Redirect?
    ensures var next := Render(path, auth).to;
      || Render(next, auth).Show?
      || (Render(next, auth).Redirect? && Render(Render(next, auth).to, auth).Show?)
  {
    RedirectTargets();
  }

  /** The two-hop chain occurs: a non-admin who opens /admin/login. */
  lemma AdminLoginBouncesTwice()
    ensures var auth := AuthView(true, false, false);
      && Render("/admin/login", auth) == Redirect("/admin")
      && Render("/admin", auth) == Redirect("/")
      && Render("/", auth) == Show(Dashboard)
  {
    RedirectTargets();
  }
}
