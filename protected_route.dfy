/**
 * frontend/src/core/auth/ProtectedRoute.tsx: the token-presence guard. The
 * token is only tested for truthiness; its contents are never decoded.
 */
module ProtectedRoute {
  import opened Wrappers

  /** What a guard renders: nothing yet, a redirect, or the protected children. */
  datatype Screen = Nothing | RedirectTo(path: string) | Children

  const DefaultLoginPath: string := "/login"

  /** `!token`: null and the empty string are both falsy. */
  predicate HasToken(token: Option<string>) {
    token.Some? && token.value != []
  }

  function Guard(token: Option<string>, loginPath: string): (r: Screen)
    ensures r == Children <==> HasToken(token)
    ensures r != Children ==> r == RedirectTo(loginPath)
    ensures r != Nothing
  {
    if !HasToken(token) then RedirectTo(loginPath) else Children
  }

  /** Any two non-empty tokens, however malformed, are let through alike. */
  lemma TokenContentsIgnored(t1: string, t2: string, loginPath: string)
    requires t1 != [] && t2 != []
    ensures Guard(Some(t1), loginPath) == Guard(Some(t2), loginPath) == Children
  {
  }
}
