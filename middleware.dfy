/**
 * The route guard: NextAuth's `withAuth` wrapper first asks the
 * `authorized` callback whether a request may proceed, and only then runs
 * the inner middleware, which lets public paths through and sends
 * requests without a session token to the sign-in page.
 */
module RouteGuard {

  /** `PUBLIC_ROUTES` */
  const PublicRoutes: seq<string> := ["/", "/sign-in", "/sign-up"]

  const SignInPage: string := "/sign-in"
  const AuthApiPrefix: string := "/api/auth"
  const RegisterApiPrefix: string := "/api/auth/register"

  /** `PUBLIC_ROUTES.includes(pathname)`: exact equality with one of the entries. */
  predicate IsPublic(pathname: string) {
    pathname in PublicRoutes
  }

  /** `pathname.startsWith(prefix)` */
  predicate StartsWith(pathname: string, prefix: string) {
    prefix <= pathname
  }

  /** What the inner middleware answers: `NextResponse.next()` or a redirect. */
  datatype Decision = Next | Redirect(location: string)

  /** The inner `middleware` function, given the path and whether a token is present. */
  function Middleware(pathname: string, hasToken: bool): (d: Decision)
    ensures d.Redirect? ==> d.location == SignInPage
    ensures d.Redirect? <==> !IsPublic(pathname) && !hasToken
  {
    if IsPublic(pathname) then Next
    else if !hasToken then Redirect(SignInPage)
    else Next
  }

  /** The `authorized` callback. */
  function Authorized(pathname: string, hasToken: bool): (r: bool)
    ensures hasToken || IsPublic(pathname) || StartsWith(pathname, RegisterApiPrefix) ==> r
    ensures !r ==> !hasToken && !IsPublic(pathname)
  {
    if StartsWith(pathname, AuthApiPrefix)
       || StartsWith(pathname, RegisterApiPrefix)
       || IsPublic(pathname)
    then true
    else hasToken
  }

  /** The outcome of the whole guard: refused by `authorized`, or the inner middleware's decision. */
  datatype Outcome = Unauthorized | Ran(decision: Decision)

  /** `withAuth(middleware, { callbacks: { authorized } })` on one request. */
  function Guard(pathname: string, hasToken: bool): (o: Outcome)
    ensures o.Unauthorized? <==> !Authorized(pathname, hasToken)
    ensures o.Ran? ==> o.decision == Middleware(pathname, hasToken)
  {
    if Authorized(pathname, hasToken) then Ran(Middleware(pathname, hasToken)) else Unauthorized
  }

  /** Public paths pass through the inner middleware whatever the token. */
  lemma PublicPassesThrough(pathname: string, hasToken: bool)
    requires IsPublic(pathname)
    ensures Middleware(pathname, hasToken) == Next
    ensures Authorized(pathname, hasToken)
    ensures Guard(pathname, hasToken) == Ran(Next)
  {
  }

  /** Without a token a non-public path is redirected to exactly "/sign-in". */
  lemma NoTokenRedirects(pathname: string)
    requires !IsPublic(pathname)
    ensures Middleware(pathname, false) == Redirect("/sign-in")
  {
  }

  /** With a token the inner middleware never redirects and the guard never refuses. */
  lemma TokenNeverRedirects(pathname: string)
    ensures Middleware(pathname, true) == Next
    ensures Guard(pathname, true) == Ran(Next)
  {
  }

  /** The "/api/auth/register" test is subsumed by the "/api/auth" test. */
  lemma RegisterPrefixImplied(pathname: string)
    requires StartsWith(pathname, RegisterApiPrefix)
    ensures StartsWith(pathname, AuthApiPrefix)
  {
    assert AuthApiPrefix == RegisterApiPrefix[..|AuthApiPrefix|];
    assert AuthApiPrefix == pathname[..|AuthApiPrefix|];
  }

  /**
   * `authorized` holds exactly for "/api/auth"-prefixed paths, public paths,
   * and any path when a token is present.
   */
  lemma AuthorizedIff(pathname: string, hasToken: bool)
    ensures Authorized(pathname, hasToken)
        <==> StartsWith(pathname, AuthApiPrefix) || IsPublic(pathname) || hasToken
  {
    if StartsWith(pathname, RegisterApiPrefix) {
      RegisterPrefixImplied(pathname);
    }
  }

  /** Outside the public and "/api/auth" paths, `authorized` is token presence. */
  lemma AuthorizedIsTokenElsewhere(pathname: string, hasToken: bool)
    requires !IsPublic(pathname) && !StartsWith(pathname, AuthApiPrefix)
    ensures Authorized(pathname, hasToken) == hasToken
  {
    AuthorizedIff(pathname, hasToken);
  }

  /** `authorized` is monotone in the token. */
  lemma AuthorizedMonotone(pathname: string)
    ensures Authorized(pathname, false) ==> Authorized(pathname, true)
  {
  }

  /** Public membership is exact: a trailing slash makes "/sign-in/" non-public. */
  lemma TrailingSlashNotPublic()
    ensures !IsPublic("/sign-in/") && !IsPublic("/sign-up/")
    ensures Middleware("/sign-in/", false) == Redirect("/sign-in")
  {
  }

  /**
   * Through `withAuth`, the inner redirect is reached exactly on the
   * "/api/auth" paths without a token: elsewhere a request without a token
   * is already refused by `authorized`.
   */
  lemma InnerRedirectOnlyUnderAuthApi(pathname: string, hasToken: bool)
    ensures Guard(pathname, hasToken) == Ran(Redirect(SignInPage))
        <==> StartsWith(pathname, AuthApiPrefix) && !hasToken
  {
    AuthorizedIff(pathname, hasToken);
    if StartsWith(pathname, AuthApiPrefix) {
      NoPublicAuthApiPath(pathname);
    }
  }

  /** No public path starts with "/api/auth". */
  lemma NoPublicAuthApiPath(pathname: string)
    requires StartsWith(pathname, AuthApiPrefix)
    ensures !IsPublic(pathname)
  {
    assert pathname[1] == 'a';
  }
}
