/**
 * The route authorization layer of the application shell: the three guard
 * components, the route table with its two global redirect rules, and an
 * independent role-by-path decision table that the router is proved to agree with.
 */
module Routing {
  import opened Common

  // ---------------------------------------------------------------------------
  // Session and role
  // ---------------------------------------------------------------------------

  /** `user_metadata`; either flag may be missing from the record. */
  datatype Metadata = Metadata(isAdmin: Option<bool>, isPaid: Option<bool>)

  /** A signed-in user; `user_metadata` itself may be missing. */
  datatype User = User(id: string, metadata: Option<Metadata>)

  /** The session object handed out by the session hook; its `user` may be absent. */
  datatype Session = Session(user: Option<User>)

  /** `session?.user ?? null` */
  function CurrentUser(session: Option<Session>): Option<User> {
    match session
    case None => None
    case Some(s) => s.user
  }

  /** `currentUser?.user_metadata?.isAdmin ?? false` */
  function IsAdmin(session: Option<Session>): bool {
    match CurrentUser(session)
    case None => false
    case Some(u) =>
      match u.metadata
      case None => false
      case Some(m) => m.isAdmin.GetOr(false)
  }

  /** `currentUser?.user_metadata?.isPaid ?? false` */
  function IsPaid(session: Option<Session>): bool {
    match CurrentUser(session)
    case None => false
    case Some(u) =>
      match u.metadata
      case None => false
      case Some(m) => m.isPaid.GetOr(false)
  }

  /** Authorization tier, read off the same three booleans the guards test. */
  datatype Role = Anonymous | SignedIn | Entitled | Admin

  function DeriveRole(session: Option<Session>): (role: Role)
    ensures role == Anonymous <==> CurrentUser(session).None?
    ensures role == Admin <==> CurrentUser(session).Some? && IsAdmin(session)
    ensures role == Entitled <==> CurrentUser(session).Some? && !IsAdmin(session) && IsPaid(session)
  {
    if CurrentUser(session).None? then Anonymous
    else if IsAdmin(session) then Admin
    else if IsPaid(session) then Entitled
    else SignedIn
  }

  /** Paid or admin. */
  predicate HasEntitlement(role: Role) {
    role == Entitled || role == Admin
  }

  // ---------------------------------------------------------------------------
  // Pages, decisions and guards
  // ---------------------------------------------------------------------------

  const Home: string := "/"
  const SignInPath: string := "/auth"
  const DefaultDestination: string := "/dashboard"

  datatype Page =
    | Landing | Auth | AuthCallback | Dashboard | Flashcards | Quizzes
    | Library | Courses | Subscriptions | AdminPanel | AdminPage

  /** What one render of a route produces: the page, the locked placeholder, or a `<Navigate replace>`. */
  datatype Decision = Render(page: Page) | Locked | Redirect(to: string)

  /** `PrivateRoute`: the child for any signed-in user, otherwise a redirect to sign-in. */
  function PrivateRoute(session: Option<Session>, child: Decision): (d: Decision)
    ensures DeriveRole(session) != Anonymous ==> d == child
    ensures DeriveRole(session) == Anonymous ==> d == Redirect(SignInPath)
  {
    if CurrentUser(session).Some? then child else Redirect(SignInPath)
  }

  /** `ProtectedContent`: the child when paid or admin, otherwise the locked placeholder; it never navigates. */
  function ProtectedContent(session: Option<Session>, child: Decision): (d: Decision)
    ensures HasEntitlement(DeriveRole(session)) ==> d == child
    ensures !HasEntitlement(DeriveRole(session)) ==> d == Locked
    ensures d.Redirect? ==> d == child
  {
    if IsAdmin(session) || IsPaid(session) then child else Locked
  }

  /** `AdminRoute`: sign-in for visitors, the dashboard for non-admins, the child for admins. */
  function AdminRoute(session: Option<Session>, child: Decision): (d: Decision)
    ensures DeriveRole(session) == Anonymous ==> d == Redirect(SignInPath)
    ensures DeriveRole(session) == Admin ==> d == child
    ensures DeriveRole(session) in {SignedIn, Entitled} ==> d == Redirect(DefaultDestination)
  {
    if CurrentUser(session).None? then Redirect(SignInPath)
    else if IsAdmin(session) then child
    else Redirect(DefaultDestination)
  }

  /** An admin passes every guard, whatever `isPaid` says. */
  lemma AdminPassesEveryGuard(session: Option<Session>, child: Decision)
    requires CurrentUser(session).Some? && IsAdmin(session)
    ensures PrivateRoute(session, child) == child
    ensures ProtectedContent(session, child) == child
    ensures AdminRoute(session, child) == child
  {
  }

  // ---------------------------------------------------------------------------
  // The route table
  // ---------------------------------------------------------------------------

  /** The JSX element bound to a route: a page wrapped in guards. */
  datatype Element =
    | Leaf(page: Page)
    | NavigateTo(target: string)
    | Private(child: Element)
    | Protected(child: Element)
    | AdminOnly(child: Element)
      /** The inline `currentUser ? <Navigate to="/dashboard"/> : child` used on `/` and `/auth`. */
    | GuestOnly(child: Element)

  function Eval(e: Element, session: Option<Session>): Decision {
    match e
    case Leaf(p) => Render(p)
    case NavigateTo(t) => Redirect(t)
    case Private(c) => PrivateRoute(session, Eval(c, session))
    case Protected(c) => ProtectedContent(session, Eval(c, session))
    case AdminOnly(c) => AdminRoute(session, Eval(c, session))
    case GuestOnly(c) =>
      if CurrentUser(session).Some? then Redirect(DefaultDestination) else Eval(c, session)
  }

  datatype RouteEntry = RouteEntry(path: string, element: Element)

  /** `<Route path="*">`: any path not in the table goes home. */
  const CatchAll: Element := NavigateTo(Home)

  const Routes: seq<RouteEntry> := [
    RouteEntry("/", GuestOnly(Leaf(Landing))),
    RouteEntry("/auth", GuestOnly(Leaf(Auth))),
    RouteEntry("/auth/callback", Leaf(AuthCallback)),
    RouteEntry("/dashboard", Private(Leaf(Dashboard))),
    RouteEntry("/flashcards", Private(Leaf(Flashcards))),
    RouteEntry("/quizzes", Private(Leaf(Quizzes))),
    RouteEntry("/library", Private(Protected(Leaf(Library)))),
    RouteEntry("/courses", Private(Protected(Leaf(Courses)))),
    RouteEntry("/subscriptions", Private(Protected(Leaf(Subscriptions)))),
    RouteEntry("/admin", AdminOnly(Leaf(AdminPanel))),
    RouteEntry("/admin-page", AdminOnly(Leaf(AdminPage)))
  ]

  predicate UniquePaths(table: seq<RouteEntry>) {
    forall i, j :: 0 <= i < j < |table| ==> table[i].path != table[j].path
  }

  /** The element of the first entry whose static path equals `path`, or the catch-all. */
  function Lookup(table: seq<RouteEntry>, path: string): Element {
    if |table| == 0 then CatchAll
    else if table[0].path == path then table[0].element
    else Lookup(table[1..], path)
  }

  /** With unique paths, a path in the table finds its own entry. */
  lemma {:induction false} LookupFindsEntry(table: seq<RouteEntry>, path: string, k: nat)
    requires UniquePaths(table)
    requires k < |table| && table[k].path == path
    ensures Lookup(table, path) == table[k].element
  {
    if k > 0 {
      assert table[0].path != path;
      assert UniquePaths(table[1..]) by {
        forall i, j | 0 <= i < j < |table[1..]| ensures table[1..][i].path != table[1..][j].path {
          assert table[1..][i] == table[i + 1] && table[1..][j] == table[j + 1];
        }
      }
      LookupFindsEntry(table[1..], path, k - 1);
    }
  }

  /** A path in no entry falls through to the catch-all. */
  lemma {:induction false} LookupMissesToCatchAll(table: seq<RouteEntry>, path: string)
    requires forall k :: 0 <= k < |table| ==> table[k].path != path
    ensures Lookup(table, path) == CatchAll
  {
    if |table| > 0 {
      assert table[0].path != path;
      LookupMissesToCatchAll(table[1..], path);
    }
  }

  lemma RoutesHaveUniquePaths()
    ensures UniquePaths(Routes)
  {
  }

  /** What the router renders for `path` under `session`. */
  function Route(path: string, session: Option<Session>): Decision {
    Eval(Lookup(Routes, path), session)
  }

  // ---------------------------------------------------------------------------
  // Reference: the role-by-path decision table
  // ---------------------------------------------------------------------------

  /** Which guard tier protects a page. */
  datatype Tier = PublicOnly | Open | Members | Paid | AdminTier

  function TierOf(p: Page): Tier {
    match p
    case Landing | Auth => PublicOnly
    case AuthCallback => Open
    case Dashboard | Flashcards | Quizzes => Members
    case Library | Courses | Subscriptions => Paid
    case AdminPanel | AdminPage => AdminTier
  }

  const PageAt: map<string, Page> := map[
    "/" := Landing, "/auth" := Auth, "/auth/callback" := AuthCallback,
    "/dashboard" := Dashboard, "/flashcards" := Flashcards, "/quizzes" := Quizzes,
    "/library" := Library, "/courses" := Courses, "/subscriptions" := Subscriptions,
    "/admin" := AdminPanel, "/admin-page" := AdminPage
  ]

  /** The page a known path names; `None` for a path outside the table. */
  function PageOf(path: string): Option<Page> {
    if path in PageAt then Some(PageAt[path]) else None
  }

  /**
   * The state-machine view: the decision as a function of the role and of the
   * page the requested path names (`None` for an unknown path).
   */
  function Decide(role: Role, target: Option<Page>): Decision {
    match target
    case None => Redirect(Home)
    case Some(page) =>
      match TierOf(page)
      case PublicOnly => if role == Anonymous then Render(page) else Redirect(DefaultDestination)
      case Open => Render(page)
      case Members => if role == Anonymous then Redirect(SignInPath) else Render(page)
      case Paid =>
        if role == Anonymous then Redirect(SignInPath)
        else if HasEntitlement(role) then Render(page)
        else Locked
      case AdminTier =>
        if role == Anonymous then Redirect(SignInPath)
        else if role == Admin then Render(page)
        else Redirect(DefaultDestination)
  }

  /** Every entry of the table agrees with the role table. */
  lemma TableAgreesWithRoleTable(k: nat, session: Option<Session>)
    requires k < |Routes|
    ensures Routes[k].path in PageAt
    ensures Eval(Routes[k].element, session) == Decide(DeriveRole(session), PageOf(Routes[k].path))
  {
    if k == 0 {} else if k == 1 {} else if k == 2 {} else if k == 3 {} else if k == 4 {}
    else if k == 5 {} else if k == 9 {} else if k == 10 {}
    else {
      // the paid routes nest two guards
      var page := Routes[k].element.child.child.page;
      assert Routes[k].element == Private(Protected(Leaf(page)));
      assert Eval(Protected(Leaf(page)), session) == ProtectedContent(session, Render(page));
    }
  }

  /** The role table knows exactly the paths of the route table. */
  lemma KnownPathsAreRoutes(path: string)
    requires path in PageAt
    ensures exists k :: 0 <= k < |Routes| && Routes[k].path == path
  {
    var k :| 0 <= k < |Routes| && Routes[k].path == path by {
      if path == "/" { assert Routes[0].path == path; }
      else if path == "/auth" { assert Routes[1].path == path; }
      else if path == "/auth/callback" { assert Routes[2].path == path; }
      else if path == "/dashboard" { assert Routes[3].path == path; }
      else if path == "/flashcards" { assert Routes[4].path == path; }
      else if path == "/quizzes" { assert Routes[5].path == path; }
      else if path == "/library" { assert Routes[6].path == path; }
      else if path == "/courses" { assert Routes[7].path == path; }
      else if path == "/subscriptions" { assert Routes[8].path == path; }
      else if path == "/admin" { assert Routes[9].path == path; }
      else { assert Routes[10].path == path; }
    }
  }

  /** The router (guards nested in the route table) decides exactly as the role table does. */
  lemma RouterAgreesWithRoleTable(path: string, session: Option<Session>)
    ensures Route(path, session) == Decide(DeriveRole(session), PageOf(path))
  {
    if k :| 0 <= k < |Routes| && Routes[k].path == path {
      RoutesHaveUniquePaths();
      LookupFindsEntry(Routes, path, k);
      TableAgreesWithRoleTable(k, session);
    } else {
      LookupMissesToCatchAll(Routes, path);
      if path in PageAt {
        KnownPathsAreRoutes(path);
      }
    }
  }

  // ---------------------------------------------------------------------------
  // Properties of the router
  // ---------------------------------------------------------------------------

  const PaidPaths: set<string> := {"/library", "/courses", "/subscriptions"}

  /** The paid paths are exactly the paths whose page sits in the paid tier. */
  lemma PaidPathsArePaidTier(path: string)
    ensures path in PaidPaths <==> PageOf(path).Some? && TierOf(PageOf(path).value) == Paid
  {
  }

  /**
   * A visitor is never shown the locked placeholder: on the paid routes the
   * outer `PrivateRoute` sends them to sign-in before `ProtectedContent` runs.
   */
  lemma AnonymousNeverLocked(path: string, session: Option<Session>)
    requires CurrentUser(session).None?
    ensures Route(path, session) != Locked
    ensures path in PaidPaths ==> Route(path, session) == Redirect(SignInPath)
  {
    RouterAgreesWithRoleTable(path, session);
    PaidPathsArePaidTier(path);
  }

  /** The placeholder appears exactly for a signed-in user without entitlement on a paid route. */
  lemma LockedExactlyForUnpaidMembers(path: string, session: Option<Session>)
    ensures Route(path, session) == Locked <==> DeriveRole(session) == SignedIn && path in PaidPaths
  {
    RouterAgreesWithRoleTable(path, session);
    PaidPathsArePaidTier(path);
  }

  /** `/` and `/auth` are for visitors only; a signed-in user is sent to the dashboard. */
  lemma PublicPagesRedirectSignedIn(session: Option<Session>)
    ensures CurrentUser(session).Some? ==> Route(Home, session) == Redirect(DefaultDestination)
    ensures CurrentUser(session).Some? ==> Route(SignInPath, session) == Redirect(DefaultDestination)
    ensures CurrentUser(session).None? ==> Route(Home, session) == Render(Landing)
    ensures CurrentUser(session).None? ==> Route(SignInPath, session) == Render(Auth)
  {
    RouterAgreesWithRoleTable(Home, session);
    RouterAgreesWithRoleTable(SignInPath, session);
  }

  /** Any path not in the table redirects home, whoever asks. */
  lemma UnknownPathGoesHome(path: string, session: Option<Session>)
    requires forall k :: 0 <= k < |Routes| ==> Routes[k].path != path
    ensures Route(path, session) == Redirect(Home)
  {
    LookupMissesToCatchAll(Routes, path);
  }

  /** A rendered page is always the page the requested path names. */
  lemma RenderedPageMatchesPath(path: string, session: Option<Session>)
    ensures Route(path, session).Render? ==> PageOf(path) == Some(Route(path, session).page)
  {
    RouterAgreesWithRoleTable(path, session);
  }

  /**
   * Redirect targets are fixed: sign-in only for visitors, the dashboard only
   * for signed-in users, and home only from the catch-all.
   */
  lemma RedirectTargets(path: string, session: Option<Session>)
    ensures Route(path, session).Redirect? ==> Route(path, session).to in {Home, SignInPath, DefaultDestination}
    ensures Route(path, session) == Redirect(SignInPath) ==> CurrentUser(session).None?
    ensures Route(path, session) == Redirect(DefaultDestination) ==> CurrentUser(session).Some?
    ensures Route(path, session) == Redirect(Home) <==> PageOf(path).None?
  {
    RouterAgreesWithRoleTable(path, session);
  }

  /** Two sessions with the same role are routed identically. */
  lemma RoleDeterminesDecision(path: string, s1: Option<Session>, s2: Option<Session>)
    requires DeriveRole(s1) == DeriveRole(s2)
    ensures Route(path, s1) == Route(path, s2)
  {
    RouterAgreesWithRoleTable(path, s1);
    RouterAgreesWithRoleTable(path, s2);
  }

  /** The decision reached after following at most `hops` redirects. */
  function Follow(path: string, session: Option<Session>, hops: nat): Decision
    decreases hops
  {
    var d := Route(path, session);
    if hops > 0 && d.Redirect? then Follow(d.to, session, hops - 1) else d
  }

  /** The default destination admits every signed-in user and sends visitors to sign-in. */
  lemma DashboardAdmitsSignedIn(session: Option<Session>)
    ensures CurrentUser(session).Some? ==> Route(DefaultDestination, session) == Render(Dashboard)
    ensures CurrentUser(session).None? ==> Route(DefaultDestination, session) == Redirect(SignInPath)
  {
    RouterAgreesWithRoleTable(DefaultDestination, session);
  }

  /** No redirect loop: every request settles on a page or the placeholder within two hops. */
  lemma NoRedirectLoop(path: string, session: Option<Session>)
    ensures !Follow(path, session, 2).Redirect?
    ensures Route(path, session).Redirect? ==> Follow(path, session, 2).Render?
  {
    RedirectTargets(path, session);
    PublicPagesRedirectSignedIn(session);
    DashboardAdmitsSignedIn(session);
    var d := Route(path, session);
    if d.Redirect? {
      assert Follow(path, session, 2) == Follow(d.to, session, 1);
      var d2 := Route(d.to, session);
      if d2.Redirect? {
        assert Follow(d.to, session, 1) == Route(d2.to, session);
      }
    }
  }

  /** Two hops are needed: a signed-in user on an unknown path goes home, then to the dashboard. */
  lemma TwoHopsAreNeeded(session: Option<Session>, path: string)
    requires CurrentUser(session).Some?
    requires forall k :: 0 <= k < |Routes| ==> Routes[k].path != path
    ensures Follow(path, session, 1) == Redirect(DefaultDestination)
    ensures Follow(path, session, 2) == Render(Dashboard)
  {
    UnknownPathGoesHome(path, session);
    PublicPagesRedirectSignedIn(session);
    DashboardAdmitsSignedIn(session);
    assert Follow(path, session, 1) == Follow(Home, session, 0);
    assert Follow(path, session, 2) == Follow(Home, session, 1);
  }

  const AdminPaths: set<string> := {"/admin", "/admin-page"}

  /** The admin paths are exactly the paths whose page sits in the admin tier. */
  lemma AdminPathsAreAdminTier(path: string)
    ensures path in AdminPaths <==> PageOf(path).Some? && TierOf(PageOf(path).value) == AdminTier
  {
  }

  /** A signed-in non-admin on an admin route is redirected once, to a page that lets them in. */
  lemma NonAdminBouncedOnceFromAdminRoutes(path: string, session: Option<Session>)
    requires path in AdminPaths
    requires DeriveRole(session) in {SignedIn, Entitled}
    ensures Route(path, session) == Redirect(DefaultDestination)
    ensures Route(DefaultDestination, session) == Render(Dashboard)
  {
    AdminPathsAreAdminTier(path);
    RouterAgreesWithRoleTable(path, session);
    DashboardAdmitsSignedIn(session);
  }

  /** An admin is let through on every gated tier, paid or not. */
  lemma AdminReachesEveryGatedPage(path: string, session: Option<Session>)
    requires DeriveRole(session) == Admin
    requires PageOf(path).Some? && TierOf(PageOf(path).value) in {Members, Paid, AdminTier}
    ensures Route(path, session) == Render(PageOf(path).value)
  {
    RouterAgreesWithRoleTable(path, session);
  }

  /** The callback route renders its page for every session. */
  lemma CallbackRouteAlwaysRenders(session: Option<Session>)
    ensures Route("/auth/callback", session) == Render(AuthCallback)
  {
    RouterAgreesWithRoleTable("/auth/callback", session);
  }
}
