/**
 * The ReviewRadar dashboard shell: the role badge, the navigation links each
 * role sees, and the role guards of the admin and analyst pages.
 */
module DashboardLayout {
  import opened Wrappers
  import opened Middleware

  /** `role || 'Guest'`. */
  function Badge(role: Option<Role>): (b: string)
    ensures role.Some? ==> b == RoleName(role.value)
    ensures b == "Guest" <==> role.None?
  {
    if role.Some? then RoleName(role.value) else "Guest"
  }

  datatype NavLink = UserView | AnalystView | AdminView

  function Target(l: NavLink): string {
    match l
    case UserView => UserPrefix
    case AnalystView => AnalystPrefix
    case AdminView => AdminPrefix
  }

  /** The navigation links shown for a role, in page order. */
  function Links(role: Option<Role>): (links: seq<NavLink>)
    ensures UserView in links <==> role == Some(User) || role == Some(Analyst) || role == Some(Admin)
    ensures AnalystView in links <==> role == Some(Analyst) || role == Some(Admin)
    ensures AdminView in links <==> role == Some(Admin)
    ensures forall i, j :: 0 <= i < j < |links| ==> links[i] != links[j]
  {
    (if role == Some(User) || role == Some(Analyst) || role == Some(Admin) then [UserView] else [])
    + (if role == Some(Analyst) || role == Some(Admin) then [AnalystView] else [])
    + (if role == Some(Admin) then [AdminView] else [])
  }

  /** Link visibility nests: the admin link implies the analyst link, which implies the user link. */
  lemma LinksNest(role: Option<Role>)
    ensures AdminView in Links(role) ==> AnalystView in Links(role)
    ensures AnalystView in Links(role) ==> UserView in Links(role)
  {
  }

  /**
   * For a signed-in caller, the analyst and admin links are shown exactly
   * when the middleware lets that role through to their targets, and a shown
   * user link is never redirected either.
   */
  lemma {:induction false} LinksMatchMiddleware(role: Option<Role>)
    ensures AnalystView in Links(role) <==> Decide(true, role, Target(AnalystView)) == Pass
    ensures AdminView in Links(role) <==> Decide(true, role, Target(AdminView)) == Pass
    ensures forall l :: l in Links(role) ==> Decide(true, role, Target(l)) == Pass
  {
    TargetsGuarded();
  }

  /** The middleware runs on every link target, and each target lies in its own route family. */
  lemma TargetsGuarded()
    ensures forall l :: MiddlewareRuns(Target(l))
    ensures IsUserRoute(Target(UserView)) && IsAnalystRoute(Target(AnalystView)) && IsAdminRoute(Target(AdminView))
  {
    PrefixesRun();
    PrefixesInFamilies();
  }

  /** A signed-in caller without a role is let through to the user dashboard, though no link to it is shown. */
  lemma RolelessReachesUnlinkedUserView()
    ensures UserView !in Links(None)
    ensures Decide(true, None, Target(UserView)) == Pass
  {
    TargetsGuarded();
  }

  /** The admin page's own guard: anything but the admin role is redirected to '/'. */
  predicate AdminPageAllows(role: Option<Role>) {
    role == Some(Admin)
  }

  /** The analyst page's own guard: the analyst or admin role. */
  predicate AnalystPageAllows(role: Option<Role>) {
    role == Some(Analyst) || role == Some(Admin)
  }

  /**
   * The page guards admit exactly the signed-in callers the middleware
   * passes on every path of their family that the middleware runs on.
   */
  lemma {:induction false} PageGuardsAgree(role: Option<Role>, path: string)
    ensures MiddlewareRuns(path) && IsAdminRoute(path) ==> (AdminPageAllows(role) <==> Decide(true, role, path) == Pass)
    ensures MiddlewareRuns(path) && IsAnalystRoute(path) ==> (AnalystPageAllows(role) <==> Decide(true, role, path) == Pass)
  {
    RouteFamiliesDisjoint(path);
  }
}
