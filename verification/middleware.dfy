/**
 * The request gate that runs before every page and API route (middleware.ts):
 * a pure decision from the path, the method, the X-Requested-With header and
 * the role of a verified session token (None when there is no token or it
 * does not verify) to "continue", "redirect" or "403".
 */
module Middleware {
  import opened Common

  datatype Request = Request(pathname: string, verb: string, requestedWith: Option<string>)

  /** `Redirect` carries the target path and the `next` query parameter it sets, if any. */
  datatype Outcome = Next | Redirect(target: string, nextParam: Option<string>) | Forbidden

  const LoginPath: string := "/auth/login"

  /** Paths let through with no token check and no CSRF check. */
  const PublicPrefixes: seq<string> := ["/docs", "/api/docs", "/api/auth", "/_next", "/favicon"]

  /** The landing page of each role. */
  function Dashboard(r: Role): string
  {
    match r
    case Customer => "/customer/book"
    case Provider => "/provider/availability"
    case Admin => "/admin/services"
  }

  /** The page area reserved to each role. */
  function Area(r: Role): string
  {
    match r
    case Customer => "/customer"
    case Provider => "/provider"
    case Admin => "/admin"
  }

  predicate HasAnyPrefix(path: string, prefixes: seq<string>)
  {
    exists i :: 0 <= i < |prefixes| && StartsWith(path, prefixes[i])
  }

  /** Methods that need no X-Requested-With header on API routes. */
  predicate IsSafeMethod(verb: string)
  {
    verb == "GET" || verb == "HEAD" || verb == "OPTIONS"
  }

  /** `redirectToLogin`: send the caller to the login page, remembering where they were going. */
  function RedirectToLogin(pathname: string): Outcome
  {
    Redirect(LoginPath, Some(pathname))
  }

  /** The gate's decision, given the list of public path prefixes. */
  function Gate(publicPrefixes: seq<string>, req: Request, role: Option<Role>): Outcome
  {
    var path := req.pathname;
    if path == "/" then
      match role
      case Some(r) =>
        Redirect(if r == Customer then "/customer/book"
                 else if r == Provider then "/provider/availability"
                 else "/admin/services", None)
      case None => Next
    else if HasAnyPrefix(path, publicPrefixes) then Next
    else if StartsWith(path, "/api") then
      if req.verb != "GET" && req.verb != "HEAD" && req.verb != "OPTIONS"
         && req.requestedWith != Some("fetch")
      then Forbidden
      else Next
    else
      match role
      case None => RedirectToLogin(path)
      case Some(r) =>
        if StartsWith(path, "/customer") && r != Customer then
          Redirect(if r == Provider then "/provider/availability" else "/admin/services", None)
        else if StartsWith(path, "/provider") && r != Provider then
          Redirect(if r == Customer then "/customer/book" else "/admin/services", None)
        else if StartsWith(path, "/admin") && r != Admin then
          Redirect(if r == Customer then "/customer/book" else "/provider/availability", None)
        else Next
  }

  /**
   * `middleware` as written. A 403 only ever answers an API request, and every
   * redirect goes either to the login page (no verified session, remembering
   * the path) or to the caller's own dashboard.
   */
  function Middleware(req: Request, role: Option<Role>): (r: Outcome)
    ensures r.Forbidden? ==> StartsWith(req.pathname, "/api") && !IsSafeMethod(req.verb)
    ensures r.Redirect? ==>
      (role.None? && r == Redirect(LoginPath, Some(req.pathname)))
      || (role.Some? && r == Redirect(Dashboard(role.value), None))
  {
    Gate(PublicPrefixes, req, role)
  }

  /** On "/", a verified session goes to its dashboard; no session, or a bad token, sees the page. */
  lemma HomeRoute(verb: string, header: Option<string>, role: Option<Role>)
    ensures Middleware(Request("/", verb, header), role)
      == if role.Some? then Redirect(Dashboard(role.value), None) else Next
  {
  }

  /** Public paths pass whatever the session, method or header. */
  lemma PublicPathsPass(req: Request, role: Option<Role>)
    requires req.pathname != "/"
    requires HasAnyPrefix(req.pathname, PublicPrefixes)
    ensures Middleware(req, role) == Next
  {
  }

  /**
   * Other API paths get no session check; they are refused exactly when the
   * method is unsafe and X-Requested-With is not exactly "fetch".
   */
  lemma ApiCsrfRule(req: Request, role: Option<Role>)
    requires StartsWith(req.pathname, "/api")
    requires !HasAnyPrefix(req.pathname, PublicPrefixes)
    ensures Middleware(req, role) == Forbidden <==> !IsSafeMethod(req.verb) && req.requestedWith != Some("fetch")
    ensures Middleware(req, role) != Forbidden ==> Middleware(req, role) == Next
  {
    assert req.pathname != "/" by {
      assert !StartsWith("/", "/api");
    }
  }

  /** A page request with no verified session goes to the login page with `next` set to its path. */
  lemma UnauthenticatedGoesToLogin(req: Request)
    requires req.pathname != "/"
    requires !HasAnyPrefix(req.pathname, PublicPrefixes)
    requires !StartsWith(req.pathname, "/api")
    ensures Middleware(req, None) == Redirect(LoginPath, Some(req.pathname))
  {
  }

  /** Two prefixes of one path are prefixes of each other. */
  lemma PrefixesComparable(s: string, a: string, b: string)
    requires StartsWith(s, a) && StartsWith(s, b)
    ensures a <= b || b <= a
  {
    if |a| <= |b| {
      assert a == s[..|a|] == b[..|a|];
    } else {
      assert b == s[..|b|] == a[..|b|];
    }
  }

  /** Strings that differ in their second or third character are not prefixes of one another. */
  lemma Incomparable(a: string, q: string)
    requires |a| >= 3 && |q| >= 3
    requires a[1] != q[1] || a[2] != q[2]
    ensures !(a <= q) && !(q <= a)
  {
  }

  /** Every prefix the gate tests, plus "/auth". */
  const GatePrefixes: seq<string> := ["/api", "/customer", "/provider", "/admin"] + PublicPrefixes + ["/auth"]

  /**
   * A path under one of the role areas or under "/auth" starts with no other
   * prefix the gate tests.
   */
  lemma OnlyPrefixTested(path: string, a: string)
    requires a in ["/customer", "/provider", "/admin", "/auth"]
    requires StartsWith(path, a)
    ensures path != "/"
    ensures forall q :: q in GatePrefixes && StartsWith(path, q) ==> q == a
    ensures !HasAnyPrefix(path, PublicPrefixes)
  {
    forall q | q in GatePrefixes && StartsWith(path, q) ensures q == a {
      PrefixesComparable(path, a, q);
      if q != a {
        Incomparable(a, q);
      }
    }
    forall i | 0 <= i < |PublicPrefixes| ensures !StartsWith(path, PublicPrefixes[i]) {
      assert PublicPrefixes[i] in GatePrefixes;
    }
  }

  lemma AreaPathClassified(path: string, owner: Role)
    requires StartsWith(path, Area(owner))
    ensures path != "/"
    ensures !StartsWith(path, "/api")
    ensures !HasAnyPrefix(path, PublicPrefixes)
    ensures !HasAnyPrefix(path, PublicPrefixes + ["/auth"])
    ensures StartsWith(path, "/customer") ==> owner == Customer
    ensures StartsWith(path, "/provider") ==> owner == Provider
    ensures StartsWith(path, "/admin") ==> owner == Admin
  {
    OnlyPrefixTested(path, Area(owner));
    var pub := PublicPrefixes + ["/auth"];
    forall i | 0 <= i < |pub| ensures !StartsWith(path, pub[i]) {
      assert pub[i] in GatePrefixes;
    }
  }

  /** A verified role on another role's area is always sent to its own dashboard. */
  lemma OtherAreaRedirects(req: Request, r: Role, owner: Role)
    requires r != owner
    requires StartsWith(req.pathname, Area(owner))
    ensures Middleware(req, Some(r)) == Redirect(Dashboard(r), None)
  {
    AreaPathClassified(req.pathname, owner);
  }

  /** A verified role inside its own area passes. */
  lemma OwnAreaPasses(req: Request, r: Role)
    requires StartsWith(req.pathname, Area(r))
    ensures Middleware(req, Some(r)) == Next
  {
    AreaPathClassified(req.pathname, r);
  }

  /** A verified request outside the three role areas passes. */
  lemma OutsideAreasPass(req: Request, r: Role)
    requires req.pathname != "/"
    requires !StartsWith(req.pathname, "/api")
    requires !StartsWith(req.pathname, "/customer")
    requires !StartsWith(req.pathname, "/provider")
    requires !StartsWith(req.pathname, "/admin")
    ensures Middleware(req, Some(r)) == Next
  {
  }

  /** Each dashboard is an ordinary page inside its role's own area and no other. */
  lemma DashboardInOwnArea(r: Role)
    ensures StartsWith(Dashboard(r), Area(r))
    ensures Dashboard(r) != "/"
    ensures !StartsWith(Dashboard(r), "/api")
    ensures !HasAnyPrefix(Dashboard(r), PublicPrefixes)
    ensures !HasAnyPrefix(Dashboard(r), PublicPrefixes + ["/auth"])
    ensures StartsWith(Dashboard(r), "/customer") ==> r == Customer
    ensures StartsWith(Dashboard(r), "/provider") ==> r == Provider
    ensures StartsWith(Dashboard(r), "/admin") ==> r == Admin
  {
    var d := Dashboard(r);
    assert d[..|Area(r)|] == Area(r);
    AreaPathClassified(d, r);
  }

  /**
   * No redirect loop for a verified session: requesting the redirect target
   * with the same token is let through.
   */
  lemma SignedInRedirectsSettle(req: Request, r: Role, verb: string, header: Option<string>)
    requires Middleware(req, Some(r)).Redirect?
    ensures Middleware(Request(Middleware(req, Some(r)).target, verb, header), Some(r)) == Next
  {
    DashboardInOwnArea(r);
  }

  // ----- The login page is gated too -----

  /**
   * As written, "/auth/login" is neither public nor an API path, so without a
   * session the login page itself is redirected to the login page.
   */
  lemma LoginPageRedirectsToItself(verb: string, header: Option<string>)
    ensures Middleware(Request(LoginPath, verb, header), None) == Redirect(LoginPath, Some(LoginPath))
  {
    assert LoginPath[..5] == "/auth";
    OnlyPrefixTested(LoginPath, "/auth");
  }

  /** The public prefixes with the sign-in and registration pages ("/auth/...") added. */
  const PublicPrefixesWithAuthPages: seq<string> := PublicPrefixes + ["/auth"]

  /**
   * The gate with the authentication pages public. Every redirect it issues
   * settles: requesting the target with the same session is let through,
   * whether or not there is a session.
   */
  function MiddlewareWithAuthPages(req: Request, role: Option<Role>): (r: Outcome)
    ensures r.Redirect? ==> Gate(PublicPrefixesWithAuthPages, Request(r.target, "GET", None), role) == Next
  {
    var r := Gate(PublicPrefixesWithAuthPages, req, role);
    if r.Redirect? then
      SettlesWithAuthPages(req, role);
      r
    else r
  }

  lemma SettlesWithAuthPages(req: Request, role: Option<Role>)
    requires Gate(PublicPrefixesWithAuthPages, req, role).Redirect?
    ensures Gate(PublicPrefixesWithAuthPages, Request(Gate(PublicPrefixesWithAuthPages, req, role).target, "GET", None), role) == Next
  {
    var pub := PublicPrefixesWithAuthPages;
    assert LoginPath[..5] == "/auth" == pub[5];
    if role.Some? {
      DashboardInOwnArea(role.value);
    }
  }

  /** With the fix, an unauthenticated visitor reaches the login page. */
  lemma LoginPageReachableWithAuthPages(verb: string, header: Option<string>)
    ensures MiddlewareWithAuthPages(Request(LoginPath, verb, header), None) == Next
  {
    assert LoginPath[..5] == "/auth" == PublicPrefixesWithAuthPages[5];
  }
}
