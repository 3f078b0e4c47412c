/** The edge middleware (middleware.ts): the `authorized` callback and the
    path matcher that decides where it runs. */
module Middleware {
  import opened Wrappers
  import opened Js
  import opened UserModel
  import opened Auth

  const AdminPrefix := "/admin"

  /** The `authorized` callback: admin paths need an admin token, other
      paths any token. */
  predicate Authorized(pathname: string, token: Option<Token>) {
    if StartsWith(pathname, AdminPrefix) then token.Some? && token.value.role == Some(AdminRole)
    else token.Some?
  }

  /** `matcher: ['/admin/:path*']`: `/admin` itself and every path below
      it. */
  predicate MatcherApplies(pathname: string) {
    pathname == AdminPrefix || StartsWith(pathname, AdminPrefix + "/")
  }

  /** A request passes the middleware when the matcher skips it or the
      callback authorizes it. */
  predicate Admitted(pathname: string, token: Option<Token>) {
    !MatcherApplies(pathname) || Authorized(pathname, token)
  }

  /** Without a token, the callback refuses every path. */
  lemma NoTokenNoAccess(pathname: string)
    ensures !Authorized(pathname, None)
  {
  }

  lemma AdminPathNeedsAdminRole(pathname: string, token: Option<Token>)
    requires StartsWith(pathname, AdminPrefix)
    ensures Authorized(pathname, token) <==> token.Some? && token.value.role == Some(AdminRole)
  {
  }

  lemma OtherPathNeedsToken(pathname: string, token: Option<Token>)
    requires !StartsWith(pathname, AdminPrefix)
    ensures Authorized(pathname, token) <==> token.Some?
  {
  }

  /** Every path the matcher covers is an admin path. */
  lemma MatchedPathIsAdminPath(pathname: string)
    requires MatcherApplies(pathname)
    ensures StartsWith(pathname, AdminPrefix)
  {
    if pathname != AdminPrefix {
      StartsWithTransitive(pathname, AdminPrefix + "/", AdminPrefix);
    }
  }

  /** A request without an admin token never gets past the middleware on a
      guarded path, and a request with one always does. */
  lemma GuardedPathsNeedAdmin(pathname: string, token: Option<Token>)
    requires MatcherApplies(pathname)
    ensures Admitted(pathname, token) <==> token.Some? && token.value.role == Some(AdminRole)
  {
    MatchedPathIsAdminPath(pathname);
  }

  /** Paths outside the matcher are never checked, whatever the token. */
  lemma UnmatchedPathsAreOpen(pathname: string, token: Option<Token>)
    requires !MatcherApplies(pathname)
    ensures Admitted(pathname, token)
  {
  }
}
