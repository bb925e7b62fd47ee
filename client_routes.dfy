/** The browser side's route guard: which pages need a signed-in user, which need
    a role, and what a visitor who does not qualify is shown instead. */
module ClientRoutes {
  import opened Foundation
  import opened Text
  import opened Credentials
  import opened AuthGate

  /** What a guarded route shows: a redirect to the login page, a redirect to the
      home page, or the page itself. */
  datatype Screen = RedirectLogin | RedirectHome | Render

  /** `ProtectedRoute`: `userRole` is the role of the signed-in user, if the auth
      context holds one; an absent or empty `requiredRole` asks for no role. */
  function ProtectedRoute(isAuthenticated: bool, userRole: Option<string>, requiredRole: Option<string>): (s: Screen)
    ensures s == RedirectLogin <==> !isAuthenticated
    ensures s == Render <==>
              isAuthenticated &&
              (requiredRole.None? || requiredRole.value == "" ||
               userRole == requiredRole || userRole == Some("super_admin"))
    ensures s == RedirectHome <==>
              isAuthenticated && requiredRole.Some? && requiredRole.value != "" &&
              userRole != requiredRole && userRole != Some("super_admin")
  {
    if !isAuthenticated then RedirectLogin
    else if requiredRole.Some? && requiredRole.value != "" &&
            userRole != requiredRole && userRole != Some("super_admin") then RedirectHome
    else Render
  }

  /** How a route of the table is wrapped: not at all, or in `ProtectedRoute` with
      an optional required role. */
  datatype Guarding = Open | Protected(requiredRole: Option<string>)

  /** The route table of the application, keyed by canonical path; paths outside
      it match no route. */
  function RouteGuard(path: string): (g: Option<Guarding>)
    ensures g == Some(Protected(None)) <==> path in {"/complaints", "/profile"}
    ensures g == Some(Protected(Some("admin"))) <==> path == "/admin/dashboard"
    ensures g == Some(Open) <==>
              path in {"/login", "/register", "/", "/announcements", "/events", "/documents", "/gallery", "/contacts"}
  {
    if path in {"/login", "/register", "/", "/announcements", "/events", "/documents", "/gallery", "/contacts"} then Some(Open)
    else if path in {"/complaints", "/profile"} then Some(Protected(None))
    else if path == "/admin/dashboard" then Some(Protected(Some("admin")))
    else None
  }

  /** The path without its trailing slashes; a path of slashes only keeps its first. */
  function TrimTrailingSlashes(path: string): (p: string)
    ensures |p| <= |path| && p == path[..|p|]
    ensures forall i :: |p| <= i < |path| ==> path[i] == '/'
    ensures |p| > 1 ==> p[|p| - 1] != '/'
    ensures |path| > 0 ==> |p| > 0
  {
    if |path| > 1 && path[|path| - 1] == '/' then TrimTrailingSlashes(path[..|path| - 1]) else path
  }

  /** The router matches a route path case-insensitively and accepts any number of
      trailing slashes after it: two paths reach the same route exactly when their
      canonical forms agree. */
  function Canonical(path: string): (c: string)
    ensures |c| == |TrimTrailingSlashes(path)| <= |path|
    ensures forall i :: 0 <= i < |c| ==> c[i] == LowerChar(path[i])
  {
    Lower(TrimTrailingSlashes(path))
  }

  /** A path already in canonical form is its own canonical form; the paths of the
      route table are. */
  lemma CanonicalFixed(path: string)
    requires |path| <= 1 || path[|path| - 1] != '/'
    requires forall i :: 0 <= i < |path| ==> !('A' <= path[i] <= 'Z')
    ensures Canonical(path) == path
  {
    assert TrimTrailingSlashes(path) == path;
  }

  /** What visiting `path` shows; None when no route matches. */
  function Visit(path: string, isAuthenticated: bool, userRole: Option<string>): (s: Option<Screen>)
    ensures s.None? <==> RouteGuard(Canonical(path)).None?
    ensures RouteGuard(Canonical(path)) == Some(Open) ==> s == Some(Render)
    ensures RouteGuard(Canonical(path)).Some? && RouteGuard(Canonical(path)).value.Protected? ==>
              s == Some(ProtectedRoute(isAuthenticated, userRole, RouteGuard(Canonical(path)).value.requiredRole))
  {
    match RouteGuard(Canonical(path))
    case None => None
    case Some(Open) => Some(Render)
    case Some(Protected(required)) => Some(ProtectedRoute(isAuthenticated, userRole, required))
  }

  /** A trailing slash reaches the same route: `/profile/` is the guarded profile
      page, not an unknown path. */
  lemma TrailingSlashIgnored(path: string, isAuthenticated: bool, userRole: Option<string>)
    requires |path| > 0
    ensures Canonical(path + "/") == Canonical(path)
    ensures Visit(path + "/", isAuthenticated, userRole) == Visit(path, isAuthenticated, userRole)
  {
    assert (path + "/")[..|path|] == path;
  }

  /** Paths that differ only in letter case have the same canonical form. */
  lemma {:induction false} CanonicalIgnoresCase(p: string, q: string)
    requires |p| == |q| && forall i :: 0 <= i < |p| ==> LowerChar(p[i]) == LowerChar(q[i])
    ensures Canonical(p) == Canonical(q)
    decreases |p|
  {
    if |p| > 1 && (p[|p| - 1] == '/' || q[|q| - 1] == '/') {
      assert LowerChar(p[|p| - 1]) == LowerChar(q[|q| - 1]);
      assert p[|p| - 1] == '/' && q[|q| - 1] == '/';
      CanonicalIgnoresCase(p[..|p| - 1], q[..|q| - 1]);
    } else {
      assert TrimTrailingSlashes(p) == p && TrimTrailingSlashes(q) == q;
      assert forall i :: 0 <= i < |p| ==> Lower(p)[i] == Lower(q)[i];
    }
  }

  /** Paths that differ only in letter case reach the same route: `/Profile` is
      the guarded profile page, not an unknown path. */
  lemma CaseIgnored(p: string, q: string, isAuthenticated: bool, userRole: Option<string>)
    requires |p| == |q| && forall i :: 0 <= i < |p| ==> LowerChar(p[i]) == LowerChar(q[i])
    ensures Visit(p, isAuthenticated, userRole) == Visit(q, isAuthenticated, userRole)
  {
    CanonicalIgnoresCase(p, q);
  }

  /** A visitor who is not signed in is sent to the login page from every guarded
      route and sees every open one. */
  lemma SignedOutVisits(path: string, userRole: Option<string>)
    requires RouteGuard(Canonical(path)).Some?
    ensures Visit(path, false, userRole) == Some(RedirectLogin) <==>
              Canonical(path) in {"/complaints", "/profile", "/admin/dashboard"}
    ensures Visit(path, false, userRole) == Some(Render) <==>
              Canonical(path) !in {"/complaints", "/profile", "/admin/dashboard"}
  {
  }

  /** The complaints and profile pages need a signed-in user and nothing more. */
  lemma SignedInSuffices(path: string, userRole: Option<string>)
    requires Canonical(path) in {"/complaints", "/profile"}
    ensures Visit(path, true, userRole) == Some(Render)
  {
  }

  /** A super admin is shown every page of the table. */
  lemma SuperAdminSeesEverything(path: string, isAuthenticated: bool)
    requires isAuthenticated && RouteGuard(Canonical(path)).Some?
    ensures Visit(path, isAuthenticated, Some("super_admin")) == Some(Render)
  {
  }

  /** The dashboard, however spelled, shows for exactly the roles that the staff
      gate of the server admits (admin and super admin); operators and residents
      are sent home. */
  lemma DashboardMatchesStaffGate(path: string, who: Identity)
    requires Canonical(path) == "/admin/dashboard"
    ensures Visit(path, true, Some(RoleName(who.role))) == Some(Render) <==>
              RoleGate(who, {Admin, SuperAdmin}).None?
    ensures who.role in {Operator, Warga} ==>
              Visit(path, true, Some(RoleName(who.role))) == Some(RedirectHome)
  {
  }
}
