/** The request gate in front of every page: without a session only the
    public paths are reachable, and a signed-in user is sent away from the
    sign-in page. */
module Middleware {

  datatype Decision = Pass | RedirectTo(path: string)

  /** "/login", "/setup" and everything under "/api". */
  predicate IsPublicPath(path: string) {
    path == "/login" || path == "/setup" || "/api" <= path
  }

  /** The decision for a request to `path`; `hasSession` is whether the
      request carries a non-empty session cookie. */
  function Decide(path: string, hasSession: bool): (d: Decision)
    ensures d == RedirectTo("/login") <==> !hasSession && !IsPublicPath(path)
    ensures d == RedirectTo("/") <==> hasSession && path == "/login"
    ensures d == Pass <==> (hasSession && path != "/login") || (!hasSession && IsPublicPath(path))
  {
    if !hasSession && !IsPublicPath(path) then RedirectTo("/login")
    else if hasSession && path == "/login" then RedirectTo("/")
    else Pass
  }

  /** A redirect never leads to another redirect: the target page lets the
      same request through. */
  lemma NoRedirectChains(path: string, hasSession: bool)
    ensures Decide(path, hasSession).RedirectTo? ==> Decide(Decide(path, hasSession).path, hasSession) == Pass
  {
    if Decide(path, hasSession) == RedirectTo("/") {
      assert "/" != "/login";
    }
  }

  /** Signed in, the setup page is reachable; signed out, the API is, and
      so is the sign-in page; signed out, the dashboard is not. */
  lemma GateExamples()
    ensures Decide("/setup", true) == Pass
    ensures Decide("/api/upload", false) == Pass
    ensures Decide("/login", false) == Pass
    ensures Decide("/", false) == RedirectTo("/login")
    ensures Decide("/board/7", false) == RedirectTo("/login")
  {
    assert "/api" <= "/api/upload";
    assert "/setup" != "/login";
    assert !("/api" <= "/");
    assert !("/api" <= "/board/7") by { assert "/board/7"[1] != "/api"[1]; }
  }
}
