/** `middleware.ts`: which paths the login guard runs on (the `matcher`),
    which of those are public, and the redirect to the login page. */
module Middleware {
  import opened Wrappers
  import opened Strings

  const LOGIN_PATH := "/login"

  /** The public routes: the login page, framework and static assets, and
      the favicon. */
  predicate IsPublicRoute(pathname: string) {
    pathname == LOGIN_PATH || StartsWith(pathname, "/_next") ||
    StartsWith(pathname, "/static") || pathname == "/favicon.ico"
  }

  /** `Response.redirect(new URL('/login', ...))` with `callbackUrl` set to
      the requested path. */
  datatype Redirect = Redirect(path: string, callbackUrl: string)

  /** The guard itself: `None` is `return undefined`, letting the request
      through. */
  function Decide(isLoggedIn: bool, pathname: string): (r: Option<Redirect>)
    ensures r.Some? <==> !IsPublicRoute(pathname) && !isLoggedIn
    ensures r.Some? ==> r.value == Redirect(LOGIN_PATH, pathname)
  {
    if !IsPublicRoute(pathname) && !isLoggedIn then Some(Redirect(LOGIN_PATH, pathname)) else None
  }

  /** `favicon.ico` as a regular expression: the `.` matches any character. */
  predicate FaviconPattern(s: string) {
    |s| >= 11 && s[..7] == "favicon" && s[8..11] == "ico"
  }

  /** The matcher `/((?!api|_next/static|_next/image|favicon.ico).*)`,
      matched against the whole path: a leading `/` not followed by one of
      the excluded prefixes. */
  predicate MatcherApplies(pathname: string)
    ensures MatcherApplies(pathname) ==>
              StartsWith(pathname, "/") && !StartsWith(pathname, "/api") &&
              !StartsWith(pathname, "/_next/static") && !StartsWith(pathname, "/_next/image") &&
              !StartsWith(pathname, "/favicon.ico")
  {
    pathname != [] && pathname[0] == '/' &&
    var rest := pathname[1..];
    ExcludedAfterSlash(pathname);
    FaviconMatches(rest);
    !(StartsWith(rest, "api") || StartsWith(rest, "_next/static") || StartsWith(rest, "_next/image") || FaviconPattern(rest))
  }

  /** The literal `favicon.ico` is one of the names the pattern matches. */
  lemma FaviconMatches(s: string)
    ensures StartsWith(s, "favicon.ico") ==> FaviconPattern(s)
  {
    if StartsWith(s, "favicon.ico") {
      assert s[..7] == s[..11][..7];
      assert s[8..11] == s[..11][8..11];
    }
  }

  /** A path that starts with `/` and an excluded prefix has that prefix
      right after its slash. */
  lemma ExcludedAfterSlash(pathname: string)
    requires pathname != [] && pathname[0] == '/'
    ensures StartsWith(pathname, "/api") ==> StartsWith(pathname[1..], "api")
    ensures StartsWith(pathname, "/_next/static") ==> StartsWith(pathname[1..], "_next/static")
    ensures StartsWith(pathname, "/_next/image") ==> StartsWith(pathname[1..], "_next/image")
    ensures StartsWith(pathname, "/favicon.ico") ==> StartsWith(pathname[1..], "favicon.ico")
  {
    DropSlash(pathname, "/api");
    DropSlash(pathname, "/_next/static");
    DropSlash(pathname, "/_next/image");
    DropSlash(pathname, "/favicon.ico");
  }

  /** Dropping the first character of a path and of a prefix it starts
      with leaves a prefix of the rest. */
  lemma DropSlash(pathname: string, prefix: string)
    requires prefix != []
    ensures StartsWith(pathname, prefix) ==> StartsWith(pathname[1..], prefix[1..])
  {
    if StartsWith(pathname, prefix) {
      assert pathname[1..][..|prefix| - 1] == pathname[..|prefix|][1..];
    }
  }

  /** The middleware as deployed: paths outside the matcher pass untouched. */
  function Handle(isLoggedIn: bool, pathname: string): (r: Option<Redirect>)
    ensures r.Some? <==> MatcherApplies(pathname) && !IsPublicRoute(pathname) && !isLoggedIn
    ensures r.Some? ==> r.value.path == LOGIN_PATH && r.value.callbackUrl == pathname
  {
    if MatcherApplies(pathname) then Decide(isLoggedIn, pathname) else None
  }

  /** Following a redirect never redirects again: the login page is public. */
  lemma RedirectTargetIsPublic(isLoggedIn: bool, pathname: string)
    requires Handle(isLoggedIn, pathname).Some?
    ensures IsPublicRoute(Handle(isLoggedIn, pathname).value.path)
    ensures Handle(isLoggedIn, Handle(isLoggedIn, pathname).value.path).None?
  {
  }

  /** A signed-in user is never redirected. */
  lemma LoggedInNeverRedirected(pathname: string)
    ensures Handle(true, pathname).None?
  {
  }

  /** The guard never runs on API paths, nor on any path whose first
      segment merely begins with `api`: those routes depend on their own
      session checks. */
  lemma ApiPathsBypassGuard(rest: string)
    ensures Handle(false, "/api" + rest).None?
  {
    var p := "/api" + rest;
    assert p[1..][..3] == "api";
  }

  /** The excluded favicon pattern is wider than the file name: any
      character may stand in place of the dot. */
  lemma FaviconDotMatchesAnyCharacter(c: char, rest: string)
    ensures Handle(false, "/favicon" + [c] + "ico" + rest).None?
  {
    var p := "/favicon" + [c] + "ico" + rest;
    var tail := p[1..];
    assert tail == "favicon" + [c] + "ico" + rest;
    assert tail[8] == 'i' && tail[9] == 'c' && tail[10] == 'o';
    assert tail[8..11] == "ico";
    assert tail[..7] == "favicon";
  }

  /** An unauthenticated request for an ordinary page goes to the login
      page with the requested path as callback. */
  lemma PageRedirectsToLogin(rest: string)
    requires rest == [] || (rest[0] != 'a' && rest[0] != '_' && rest[0] != 'f' && rest[0] != 'l' && rest[0] != 's')
    ensures Handle(false, "/" + rest) == Some(Redirect(LOGIN_PATH, "/" + rest))
  {
    var p := "/" + rest;
    assert p[1..] == rest;
    if rest != [] {
      assert p[1] == rest[0];
    }
  }
}
