/**
 * The ReviewRadar request middleware: it runs on the paths its matcher
 * selects (not on Next.js internals or static files, always on API routes);
 * there the three dashboard route families need a signed-in caller, the
 * admin family needs the admin role and the analyst family the analyst or
 * admin role; everything else passes.
 */
module Middleware {
  import opened Wrappers
  import Text

  /** The roles a session's metadata may carry. */
  datatype Role = Admin | Analyst | User

  function RoleName(r: Role): string {
    match r
    case Admin => "admin"
    case Analyst => "analyst"
    case User => "user"
  }

  predicate StartsWith(s: string, prefix: string) {
    |prefix| <= |s| && s[..|prefix|] == prefix
  }

  const UserPrefix := "/dashboard/user"
  const AnalystPrefix := "/dashboard/analyst"
  const AdminPrefix := "/dashboard/admin"

  /**
   * A case-insensitive prefix match against a lower-case ASCII prefix: each
   * character of the path's prefix lower-cases to the prefix's character
   * (an ASCII letter matches in either case; no other character matches one
   * that differs from it).
   */
  predicate StartsWithIgnoringCase(path: string, prefix: string) {
    |prefix| <= |path| && forall k :: 0 <= k < |prefix| ==> Text.LowerChar(path[k]) == prefix[k]
  }

  /** createRouteMatcher(['/dashboard/user(.*)']) and its siblings: a prefix match that ignores case. */
  predicate IsUserRoute(path: string) { StartsWithIgnoringCase(path, UserPrefix) }
  predicate IsAnalystRoute(path: string) { StartsWithIgnoringCase(path, AnalystPrefix) }
  predicate IsAdminRoute(path: string) { StartsWithIgnoringCase(path, AdminPrefix) }

  predicate IsProtected(path: string) {
    IsUserRoute(path) || IsAnalystRoute(path) || IsAdminRoute(path)
  }

  /** The prefixes of the extensions `html?|css|jpe?g|webp|png|gif|svg|ttf|woff2?|ico|csv|docx?|xlsx?|zip|webmanifest`. */
  const StaticExtensions := ["htm", "css", "jpg", "jpeg", "webp", "png", "gif", "svg", "ttf", "woff", "ico", "csv",
                             "doc", "xls", "zip", "webmanifest"]

  /** A static-file extension starts s: one of the list, or `js` not followed by `on`. */
  predicate StaticExtensionAt(s: string) {
    || (StartsWith(s, "js") && !StartsWith(s[2..], "on"))
    || exists k :: 0 <= k < |StaticExtensions| && StartsWith(s, StaticExtensions[k])
  }

  /** `[^?]*\.(?:...)` at the start of s: a dot with no '?' before it, followed by a static-file extension. */
  predicate StaticFileAt(s: string) {
    exists i :: 0 <= i < |s| && s[i] == '.' && '?' !in s[..i] && StaticExtensionAt(s[i + 1..])
  }

  /**
   * config.matcher: the middleware runs on a path that neither continues
   * with `_next` after the leading slash nor names a static file, and on
   * every path under /api or /trpc. This match is case-sensitive.
   */
  predicate MiddlewareRuns(path: string) {
    || (StartsWith(path, "/") && !StartsWith(path[1..], "_next") && !StaticFileAt(path[1..]))
    || StartsWith(path, "/api")
    || StartsWith(path, "/trpc")
  }

  /** What the middleware does with a request: protect() to sign-in, a redirect to '/', or pass-through. */
  datatype Decision = SignIn | RedirectHome | Pass

  /**
   * The middleware's decision for a caller (signed in or not, with the role
   * in the session's metadata) requesting a path; a path the matcher does
   * not select passes untouched.
   */
  function Decide(signedIn: bool, role: Option<Role>, path: string): (d: Decision)
    ensures !MiddlewareRuns(path) ==> d == Pass
    ensures d == SignIn <==> MiddlewareRuns(path) && IsProtected(path) && !signedIn
    ensures MiddlewareRuns(path) && signedIn && IsAdminRoute(path) ==> (d == Pass <==> role == Some(Admin))
    ensures MiddlewareRuns(path) && signedIn && IsAnalystRoute(path)
            ==> (d == Pass <==> role == Some(Analyst) || role == Some(Admin))
    ensures signedIn && IsUserRoute(path) ==> d == Pass
    ensures !IsProtected(path) ==> d == Pass
  {
    RouteFamiliesDisjoint(path);
    if !MiddlewareRuns(path) then Pass
    else if IsProtected(path) && !signedIn then SignIn
    else if IsAdminRoute(path) && role != Some(Admin) then RedirectHome
    else if IsAnalystRoute(path) && role != Some(Analyst) && role != Some(Admin) then RedirectHome
    else Pass
  }

  /** No path lies in two route families. */
  lemma RouteFamiliesDisjoint(path: string)
    ensures !(IsUserRoute(path) && IsAnalystRoute(path))
    ensures !(IsUserRoute(path) && IsAdminRoute(path))
    ensures !(IsAnalystRoute(path) && IsAdminRoute(path))
  {
    if IsUserRoute(path) {
      assert Text.LowerChar(path[11]) == UserPrefix[11] == 'u';
    }
    if IsAnalystRoute(path) {
      assert Text.LowerChar(path[11]) == AnalystPrefix[11] == 'a';
      assert Text.LowerChar(path[12]) == AnalystPrefix[12] == 'n';
    }
    if IsAdminRoute(path) {
      assert Text.LowerChar(path[11]) == AdminPrefix[11] == 'a';
      assert Text.LowerChar(path[12]) == AdminPrefix[12] == 'd';
    }
  }

  /** Access nests: a path open to a user is open to an analyst, and one open to an analyst is open to an admin. */
  lemma {:induction false} AccessNests(signedIn: bool, path: string)
    ensures Decide(signedIn, None, path) == Pass ==> Decide(signedIn, Some(User), path) == Pass
    ensures Decide(signedIn, Some(User), path) == Pass ==> Decide(signedIn, Some(Analyst), path) == Pass
    ensures Decide(signedIn, Some(Analyst), path) == Pass ==> Decide(signedIn, Some(Admin), path) == Pass
  {
    RouteFamiliesDisjoint(path);
  }

  /** The middleware runs on a path with a leading slash, no '_' right after it and no dot anywhere. */
  lemma PlainPathRuns(path: string)
    requires |path| >= 2 && path[0] == '/' && path[1] != '_'
    requires '.' !in path
    ensures MiddlewareRuns(path)
  {
  }

  /** The middleware runs on each family's own prefix. */
  lemma PrefixesRun()
    ensures MiddlewareRuns(UserPrefix) && MiddlewareRuns(AnalystPrefix) && MiddlewareRuns(AdminPrefix)
  {
    PlainPathRuns(UserPrefix);
    PlainPathRuns(AnalystPrefix);
    PlainPathRuns(AdminPrefix);
  }

  /** Each family's own prefix lies in that family. */
  lemma PrefixesInFamilies()
    ensures IsUserRoute(UserPrefix) && IsAnalystRoute(AnalystPrefix) && IsAdminRoute(AdminPrefix)
  {
  }

  /** A path's route family does not depend on the case of its ASCII letters. */
  lemma RoutesIgnoreCase(path: string)
    ensures IsUserRoute(path) <==> IsUserRoute(Text.ToLowerAscii(path))
    ensures IsAnalystRoute(path) <==> IsAnalystRoute(Text.ToLowerAscii(path))
    ensures IsAdminRoute(path) <==> IsAdminRoute(Text.ToLowerAscii(path))
  {
    var lower := Text.ToLowerAscii(path);
    assert forall k :: 0 <= k < |path| ==> Text.LowerChar(lower[k]) == Text.LowerChar(path[k]);
  }

  /** A path the middleware runs on whose family is admin is sent to sign-in, or home for an analyst. */
  lemma AdminGate(path: string)
    requires MiddlewareRuns(path) && IsAdminRoute(path)
    ensures Decide(false, None, path) == SignIn
    ensures Decide(true, Some(Analyst), path) == RedirectHome
  {
  }

  /** The admin dashboard path written with capitals. */
  const MixedCaseAdminPath := "/Dashboard/Admin"

  /** The matcher selects "/Dashboard/Admin". */
  lemma MixedCaseAdminPathRuns()
    ensures MiddlewareRuns(MixedCaseAdminPath)
  {
    PlainPathRuns(MixedCaseAdminPath);
  }

  /** "/Dashboard/Admin" is in the admin family. */
  lemma MixedCaseAdminPathIsAdmin()
    ensures IsAdminRoute(MixedCaseAdminPath)
  {
  }

  /** The admin family guards "/Dashboard/Admin" as it does "/dashboard/admin". */
  lemma MixedCaseAdminPathGuarded()
    ensures IsAdminRoute(MixedCaseAdminPath)
    ensures Decide(false, None, MixedCaseAdminPath) == SignIn
    ensures Decide(true, Some(Analyst), MixedCaseAdminPath) == RedirectHome
  {
    MixedCaseAdminPathRuns();
    MixedCaseAdminPathIsAdmin();
    AdminGate(MixedCaseAdminPath);
  }

  /** A file-like path under the admin dashboard. */
  const AdminExportPath := "/dashboard/admin/export.csv"

  /** The export path is in the admin family. */
  lemma AdminExportPathIsAdmin()
    ensures IsAdminRoute(AdminExportPath)
  {
  }

  /** A path whose dot, with no '?' before it, starts a ".csv" suffix names a static file. */
  lemma CsvFileSkipped(path: string, dot: nat)
    requires 1 <= dot && dot + 3 < |path| && path[dot] == '.' && '?' !in path
    requires path[dot + 1..dot + 4] == "csv"
    requires !StartsWith(path, "/api") && !StartsWith(path, "/trpc")
    ensures !MiddlewareRuns(path)
  {
    var rest := path[1..];
    assert rest[dot - 1] == '.';
    assert '?' !in rest[..dot - 1] by {
      forall k | 0 <= k < dot - 1 ensures rest[k] != '?' {
        assert rest[k] == path[k + 1];
      }
    }
    assert rest[dot..][..3] == "csv";
    assert StartsWith(rest[dot..], StaticExtensions[11]);
  }

  /** The matcher skips the export path: it names a .csv file. */
  lemma AdminExportPathSkipped()
    ensures !MiddlewareRuns(AdminExportPath)
  {
    var path := AdminExportPath;
    assert path[23] == '.' && path[24..27] == "csv";
    assert path[1] == 'd';
    CsvFileSkipped(path, 23);
  }

  /**
   * A path under a protected family that names a static file is skipped by
   * the matcher, so it passes even without a signed-in caller.
   */
  lemma StaticFileUnderAdminPasses()
    ensures IsAdminRoute(AdminExportPath)
    ensures Decide(false, None, AdminExportPath) == Pass
  {
    AdminExportPathIsAdmin();
    AdminExportPathSkipped();
  }
}
