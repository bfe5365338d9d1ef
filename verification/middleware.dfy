/**
 * The route guard run before page requests (middleware.ts).
 *
 * Without both authentication-backend settings the guard lets every request
 * through (demo mode). Otherwise it looks up the session and classifies the
 * path by prefix: a protected page without a session is redirected to the login
 * page with `redirectTo` carrying the original path; a login or sign-up page
 * with a session is redirected to the dashboard; everything else passes.
 * The redirect is built by cloning the request URL and changing the clone.
 */
module Middleware {
  import opened Js

  /** The two settings the guard reads from the environment. */
  datatype Env = Env(supabaseUrl: Option<string>, supabaseAnonKey: Option<string>)

  /** Demo mode is off only when both settings are present and non-empty. */
  predicate HasSupabase(env: Env) {
    Truthy(env.supabaseUrl) && Truthy(env.supabaseAnonKey)
  }

  /** What obtaining the session gave: an exception (package missing, client
      failure), or a session that is present or absent. */
  datatype SessionLookup = Threw | Fetched(hasSession: bool)

  const ProtectedRoutes: seq<string> := ["/dashboard", "/profile", "/chat", "/trips", "/expenses"]
  const AuthRoutes: seq<string> := ["/auth/login", "/auth/signup"]

  /** `routes.some(route => path.startsWith(route))`. */
  function SomePrefix(routes: seq<string>, path: string): (b: bool)
    ensures b <==> exists i :: 0 <= i < |routes| && StartsWith(path, routes[i])
  {
    if routes == [] then false
    else if StartsWith(path, routes[0]) then true
    else
      var rest := SomePrefix(routes[1..], path);
      assert rest <==> exists i :: 1 <= i < |routes| && StartsWith(path, routes[i]) by {
        if rest {
          var j :| 0 <= j < |routes[1..]| && StartsWith(path, routes[1..][j]);
          assert routes[1..][j] == routes[j + 1];
        }
        if exists i :: 1 <= i < |routes| && StartsWith(path, routes[i]) {
          var i :| 1 <= i < |routes| && StartsWith(path, routes[i]);
          assert routes[1..][i - 1] == routes[i];
        }
      }
      rest
  }

  predicate IsProtectedRoute(path: string) {
    SomePrefix(ProtectedRoutes, path)
  }

  predicate IsAuthRoute(path: string) {
    SomePrefix(AuthRoutes, path)
  }

  // ---------------------------------------------------------------------------
  // Query parameters (URLSearchParams)
  // ---------------------------------------------------------------------------

  type Params = seq<(string, string)>

  /** The pairs of `params` not named `name`, in order. */
  function WithoutName(params: Params, name: string): (r: Params)
    ensures forall i :: 0 <= i < |r| ==> r[i].0 != name
    ensures forall p :: p in r <==> p in params && p.0 != name
  {
    if params == [] then []
    else if params[0].0 == name then WithoutName(params[1..], name)
    else [params[0]] + WithoutName(params[1..], name)
  }

  /** `searchParams.set(name, value)`: the first pair with that name takes the value and
      later pairs with that name are dropped; with no such pair, one is appended. */
  function SetParam(params: Params, name: string, value: string): Params {
    if params == [] then [(name, value)]
    else if params[0].0 == name then [(name, value)] + WithoutName(params[1..], name)
    else [params[0]] + SetParam(params[1..], name, value)
  }

  /** `searchParams.get(name)`: the value of the first pair with that name. */
  function GetParam(params: Params, name: string): Option<string> {
    if params == [] then None
    else if params[0].0 == name then Some(params[0].1)
    else GetParam(params[1..], name)
  }

  /** After `set`, the name has exactly that one value, and every other pair stays, in order. */
  lemma {:induction false} SetParamMeaning(params: Params, name: string, value: string)
    ensures GetParam(SetParam(params, name, value), name) == Some(value)
    ensures WithoutName(SetParam(params, name, value), name) == WithoutName(params, name)
    ensures (name, value) in SetParam(params, name, value)
    ensures forall p :: p in SetParam(params, name, value) && p.0 == name ==> p.1 == value
  {
    if params != [] {
      if params[0].0 == name {
        WithoutNameIdempotent(params[1..], name);
      } else {
        SetParamMeaning(params[1..], name, value);
      }
    }
  }

  lemma {:induction false} WithoutNameIdempotent(params: Params, name: string)
    ensures WithoutName(WithoutName(params, name), name) == WithoutName(params, name)
  {
    if params != [] {
      WithoutNameIdempotent(params[1..], name);
    }
  }

  // ---------------------------------------------------------------------------
  // The decision
  // ---------------------------------------------------------------------------

  /** The parts of the request URL the guard reads or changes. */
  datatype UrlParts = UrlParts(pathname: string, searchParams: Params)

  datatype Response = Next | Redirect(location: UrlParts)

  function Decide(env: Env, url: UrlParts, session: SessionLookup): (r: Response)
    ensures r.Redirect? ==> r.location.pathname in {"/auth/login", "/dashboard"}
    ensures r.Redirect? ==> HasSupabase(env) && session.Fetched?
  {
    if !HasSupabase(env) then Next
    else match session
      case Threw => Next
      case Fetched(hasSession) =>
        if IsProtectedRoute(url.pathname) && !hasSession then
          Redirect(UrlParts("/auth/login", SetParam(url.searchParams, "redirectTo", url.pathname)))
        else if IsAuthRoute(url.pathname) && hasSession then
          Redirect(UrlParts("/dashboard", url.searchParams))
        else Next
  }

  /** The request URL (`req.nextUrl`); a redirect works on a clone of it. */
  class NextUrl {
    var pathname: string
    var searchParams: Params

    constructor (pathname: string, searchParams: Params)
      ensures this.pathname == pathname && this.searchParams == searchParams
    {
      this.pathname := pathname;
      this.searchParams := searchParams;
    }

    function Parts(): UrlParts
      reads this
    {
      UrlParts(pathname, searchParams)
    }

    method Clone() returns (c: NextUrl)
      ensures fresh(c) && c.Parts() == Parts()
    {
      c := new NextUrl(pathname, searchParams);
    }

    method SetSearchParam(name: string, value: string)
      modifies this
      ensures searchParams == SetParam(old(searchParams), name, value)
      ensures pathname == old(pathname)
    {
      searchParams := SetParam(searchParams, name, value);
    }
  }

  /** `middleware(req)`, with the session lookup's outcome given. The request URL is not changed. */
  method HandleRequest(env: Env, nextUrl: NextUrl, session: SessionLookup) returns (res: Response)
    ensures res == Decide(env, nextUrl.Parts(), session)
  {
    if !HasSupabase(env) {
      return Next;
    }
    match session {
      case Threw =>
        return Next;
      case Fetched(hasSession) =>
        var isProtectedRoute := SomePrefix(ProtectedRoutes, nextUrl.pathname);
        var isAuthRoute := SomePrefix(AuthRoutes, nextUrl.pathname);
        if isProtectedRoute && !hasSession {
          var redirectUrl := nextUrl.Clone();
          redirectUrl.pathname := "/auth/login";
          redirectUrl.SetSearchParam("redirectTo", nextUrl.pathname);
          return Redirect(redirectUrl.Parts());
        }
        if isAuthRoute && hasSession {
          var redirectUrl := nextUrl.Clone();
          redirectUrl.pathname := "/dashboard";
          return Redirect(redirectUrl.Parts());
        }
    }
    res := Next;
  }

  // ---------------------------------------------------------------------------
  // Properties
  // ---------------------------------------------------------------------------

  /** Missing either setting, or failing to get the session: every request passes unchanged. */
  lemma PassThroughWithoutBackend(env: Env, url: UrlParts, session: SessionLookup)
    requires !HasSupabase(env) || session == Threw
    ensures Decide(env, url, session) == Next
  {
  }

  /** The protection test is by prefix: sub-pages and longer names such as "/chatroom" pass it
      (whether such a path reaches the guard at all is the matcher's decision). */
  lemma ProtectedByPrefix()
    ensures IsProtectedRoute("/dashboard") && IsProtectedRoute("/trips/42")
    ensures IsProtectedRoute("/chatroom")
  {
    assert StartsWith("/dashboard", ProtectedRoutes[0]);
    assert StartsWith("/trips/42", ProtectedRoutes[3]);
    assert StartsWith("/chatroom", ProtectedRoutes[2]);
  }

  /** The root, the login page and the explore page are not protected. */
  lemma PublicPages()
    ensures !IsProtectedRoute("/") && !IsProtectedRoute("/auth/login") && !IsProtectedRoute("/explore")
  {
    forall p | p in ["/", "/auth/login", "/explore"]
      ensures !IsProtectedRoute(p)
    {
      forall i | 0 <= i < |ProtectedRoutes|
        ensures !StartsWith(p, ProtectedRoutes[i])
      {
        assert |ProtectedRoutes[i]| >= 2 && ProtectedRoutes[i][1] in "dpcte";
      }
    }
  }

  /** The auth-page test is by prefix: it accepts the login and sign-up pages and paths
      under them, and rejects the callback. */
  lemma AuthPagesByPrefix()
    ensures IsAuthRoute("/auth/login") && IsAuthRoute("/auth/signup/x") && !IsAuthRoute("/auth/callback")
  {
    assert StartsWith("/auth/login", AuthRoutes[0]);
    assert StartsWith("/auth/signup/x", AuthRoutes[1]);
    forall i | 0 <= i < |AuthRoutes|
      ensures !StartsWith("/auth/callback", AuthRoutes[i])
    {
      assert "/auth/callback"[6] == 'c' != AuthRoutes[i][6];
    }
  }

  /** No path is both protected and an auth page: the second characters differ. */
  lemma {:induction false} RoutesDisjoint(path: string)
    ensures !(IsProtectedRoute(path) && IsAuthRoute(path))
  {
    if IsAuthRoute(path) {
      var j :| 0 <= j < |AuthRoutes| && StartsWith(path, AuthRoutes[j]);
      assert path[1] == AuthRoutes[j][1] == 'a';
      forall i | 0 <= i < |ProtectedRoutes|
        ensures !StartsWith(path, ProtectedRoutes[i])
      {
        assert ProtectedRoutes[i][1] != 'a';
      }
    }
  }

  /** A protected page without a session goes to the login page, whose `redirectTo`
      holds the original path; the other query pairs are kept. */
  lemma LoginRedirectCarriesPath(env: Env, url: UrlParts)
    requires HasSupabase(env) && IsProtectedRoute(url.pathname)
    ensures Decide(env, url, Fetched(false)).Redirect?
    ensures Decide(env, url, Fetched(false)).location.pathname == "/auth/login"
    ensures GetParam(Decide(env, url, Fetched(false)).location.searchParams, "redirectTo") == Some(url.pathname)
    ensures WithoutName(Decide(env, url, Fetched(false)).location.searchParams, "redirectTo")
         == WithoutName(url.searchParams, "redirectTo")
  {
    SetParamMeaning(url.searchParams, "redirectTo", url.pathname);
  }

  /** A signed-in visitor of the login or sign-up page goes to the dashboard, query kept. */
  lemma SignedInLeavesAuthPages(env: Env, url: UrlParts)
    requires HasSupabase(env) && IsAuthRoute(url.pathname)
    ensures Decide(env, url, Fetched(true)) == Redirect(UrlParts("/dashboard", url.searchParams))
  {
    RoutesDisjoint(url.pathname);
  }

  /** At most one redirect rule applies, and a redirect happens exactly when one does. */
  lemma RedirectExactlyWhenARuleApplies(env: Env, url: UrlParts, session: SessionLookup)
    ensures Decide(env, url, session).Redirect? <==>
      HasSupabase(env) && session.Fetched? &&
      ((IsProtectedRoute(url.pathname) && !session.hasSession) ||
       (IsAuthRoute(url.pathname) && session.hasSession))
  {
  }

  // ---------------------------------------------------------------------------
  // The matcher: which requests reach the guard
  // ---------------------------------------------------------------------------

  /** The `/<section>/:path*` entries of `config.matcher`. */
  const MatcherSections: seq<string> := ["/dashboard", "/profile", "/chat", "/trips", "/expenses"]

  /** The entries of `config.matcher` that name one page exactly. */
  const MatcherPages: seq<string> := ["/auth/login", "/auth/signup"]

  /** `/<section>/:path*` matches the section itself and every path below it. */
  predicate UnderSection(path: string, section: string) {
    path == section || StartsWith(path, section + "/")
  }

  predicate Matched(path: string) {
    (exists i :: 0 <= i < |MatcherSections| && UnderSection(path, MatcherSections[i]))
    || (exists i :: 0 <= i < |MatcherPages| && path == MatcherPages[i])
  }

  /** What a request gets: the guard's decision when the matcher sends it to the guard;
      otherwise it passes untouched. */
  function Route(env: Env, url: UrlParts, session: SessionLookup): (r: Response)
    ensures Matched(url.pathname) ==> r == Decide(env, url, session)
    ensures !Matched(url.pathname) ==> r == Next
  {
    if Matched(url.pathname) then Decide(env, url, session) else Next
  }

  /** On the paths the matcher sends to the guard, the prefix tests agree with the matcher:
      a path is protected iff it is in one of the sections, and an auth page iff it is the
      login or the sign-up page. */
  lemma MatchedPathsAgreeWithTests(path: string)
    requires Matched(path)
    ensures IsProtectedRoute(path) <==> exists i :: 0 <= i < |MatcherSections| && UnderSection(path, MatcherSections[i])
    ensures IsAuthRoute(path) <==> path == "/auth/login" || path == "/auth/signup"
    ensures IsProtectedRoute(path) || IsAuthRoute(path)
  {
    RoutesDisjoint(path);
    if exists i :: 0 <= i < |MatcherSections| && UnderSection(path, MatcherSections[i]) {
      var i :| 0 <= i < |MatcherSections| && UnderSection(path, MatcherSections[i]);
      assert MatcherSections[i] == ProtectedRoutes[i];
      assert StartsWith(path, ProtectedRoutes[i]);
    } else {
      var j :| 0 <= j < |MatcherPages| && path == MatcherPages[j];
      assert path == AuthRoutes[j];
      assert StartsWith(path, AuthRoutes[j]);
    }
  }

  /** "/chatroom" passes the protection test, but the matcher never sends it to the guard,
      so it is never redirected. */
  lemma ChatroomNotGuarded(env: Env, searchParams: Params, session: SessionLookup)
    ensures !Matched("/chatroom")
    ensures Route(env, UrlParts("/chatroom", searchParams), session) == Next
  {
    var p := "/chatroom";
    forall i | 0 <= i < |MatcherSections|
      ensures !UnderSection(p, MatcherSections[i])
    {
      var sec := MatcherSections[i];
      if i == 2 {
        assert (sec + "/")[5] == '/' != p[5];
      } else {
        assert sec[2] != p[2];
      }
    }
    forall j | 0 <= j < |MatcherPages|
      ensures p != MatcherPages[j]
    {
      assert MatcherPages[j][1] == 'a' != p[1];
    }
  }

  /** Paths below the login and sign-up pages never reach the guard. */
  lemma AuthSubPagesNotGuarded(env: Env, searchParams: Params, session: SessionLookup)
    ensures !Matched("/auth/signup/x")
    ensures Route(env, UrlParts("/auth/signup/x", searchParams), session) == Next
  {
    var p := "/auth/signup/x";
    forall i | 0 <= i < |MatcherSections|
      ensures !UnderSection(p, MatcherSections[i])
    {
      assert MatcherSections[i][1] != 'a' == p[1];
    }
    forall j | 0 <= j < |MatcherPages|
      ensures p != MatcherPages[j]
    {
      assert |MatcherPages[j]| < |p|;
    }
  }
}
