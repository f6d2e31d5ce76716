/**
 * The page guard: signed-out visitors are sent from the home page to the login
 * page, signed-in users are sent from the login and signup pages to the home
 * page, and everything else passes through. Only the session token's presence
 * matters, so `getToken` becomes a boolean.
 */
module Middleware {
  /** The paths the guard runs on. */
  const Matcher: seq<string> := ["/", "/login", "/signup"]

  datatype Decision = Next | Redirect(target: string)

  predicate IsAuthPage(pathname: string)
  {
    pathname == "/login" || pathname == "/signup"
  }

  predicate IsProtectedPage(pathname: string)
  {
    pathname == "/"
  }

  function Route(hasToken: bool, pathname: string): (d: Decision)
    ensures d == Redirect("/login") <==> !hasToken && pathname == "/"
    ensures d == Redirect("/") <==> hasToken && (pathname == "/login" || pathname == "/signup")
    ensures d.Redirect? ==> d.target in Matcher && d.target != pathname && pathname in Matcher
    ensures d.Next? <==>
      (hasToken && pathname !in ["/login", "/signup"]) || (!hasToken && pathname != "/")
  {
    if !hasToken && IsProtectedPage(pathname) then Redirect("/login")
    else if hasToken && IsAuthPage(pathname) then Redirect("/")
    else Next
  }

  /** Following a redirect with the same session passes through: the guard
      never sends a visitor round in a loop. */
  lemma RedirectSettles(hasToken: bool, pathname: string)
    requires Route(hasToken, pathname).Redirect?
    ensures Route(hasToken, Route(hasToken, pathname).target) == Next
  {
  }
}
