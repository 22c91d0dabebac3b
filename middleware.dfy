/**
 * The front end's route guard: static assets pass, protected pages need the
 * `token` cookie, and a signed-in visitor is sent from the login and register
 * pages to the dashboard.
 */
module Middleware {
  import opened Wrappers
  import opened Text

  /** Let the request through, or redirect it to another path. */
  datatype Decision = Next | Redirect(path: string)

  const PublicRoutes: seq<string> := ["/", "/login", "/register"]

  /** The `token` cookie's value is present and not empty. */
  predicate HasToken(token: Option<string>) {
    token.Some? && token.value != ""
  }

  predicate IsStaticAsset(pathname: string) {
    StartsWith(pathname, "/_next") || '.' in pathname
  }

  /** `middleware(request)` as a function of the path and the cookie. */
  function Decide(pathname: string, token: Option<string>): (d: Decision)
    ensures IsStaticAsset(pathname) ==> d == Next
    ensures d.Redirect? ==> d.path in {"/login", "/dashboard"}
  {
    var isPublic := pathname in PublicRoutes;
    if IsStaticAsset(pathname) then Next
    else if !isPublic && !HasToken(token) then Redirect("/login")
    else if isPublic && HasToken(token) && pathname != "/" then Redirect("/dashboard")
    else Next
  }

  /** When the guard redirects, and where to. */
  lemma DecideCases(pathname: string, token: Option<string>)
    ensures Decide(pathname, token) == Redirect("/login") <==>
      !IsStaticAsset(pathname) && pathname !in PublicRoutes && !HasToken(token)
    ensures Decide(pathname, token) == Redirect("/dashboard") <==>
      !IsStaticAsset(pathname) && pathname in {"/login", "/register"} && HasToken(token)
    ensures Decide(pathname, token) == Next <==>
      IsStaticAsset(pathname) || (pathname in PublicRoutes && (!HasToken(token) || pathname == "/"))
      || (pathname !in PublicRoutes && HasToken(token))
  {
    if !IsStaticAsset(pathname) && pathname in {"/login", "/register"} {
      assert pathname in PublicRoutes && pathname != "/";
    }
    if pathname in PublicRoutes && pathname != "/" {
      assert pathname == "/login" || pathname == "/register";
    }
  }

  /** The redirect targets pass the guard for the same visitor, so a redirect is never followed by another. */
  lemma NoRedirectLoop(pathname: string, token: Option<string>)
    ensures var d := Decide(pathname, token);
      d.Redirect? ==> Decide(d.path, token) == Next
  {
    assert !StartsWith("/login", "/_next") by { assert "/login"[1] != "/_next"[1]; }
    assert !StartsWith("/dashboard", "/_next") by { assert "/dashboard"[1] != "/_next"[1]; }
    assert "/dashboard" !in PublicRoutes by {
      assert |"/dashboard"| == 10;
    }
    assert "/login" in PublicRoutes;
  }
}
