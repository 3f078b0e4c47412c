/** The credential provider and the session callbacks (lib/auth.ts). The
    token and the session are the records next-auth hands to the callbacks;
    signing, decoding and expiry checks happen inside next-auth and are not
    part of this model, except for the session lifetime. */
module Auth {
  import opened Wrappers
  import opened Js
  import opened Documents
  import opened UserModel

  /** `session.maxAge`, in seconds. */
  const SessionMaxAge: nat := 24 * 60 * 60

  lemma SessionLastsOneDay()
    ensures SessionMaxAge == 86400
  {
  }

  /** The `credentials` argument of `authorize`; it may itself be absent. */
  datatype Credentials = Credentials(username: Option<string>, password: Option<string>)

  predicate HasCredentials(c: Option<Credentials>) {
    c.Some? && Truthy(c.value.username) && Truthy(c.value.password)
  }

  /** `authorize`: null without asking the store when a field is missing;
      otherwise the summary of the validated user, or null when validation
      fails (`fault` is a store failure, which validation turns into
      null). */
  method Authorize(store: UserStore, credentials: Option<Credentials>, fault: bool) returns (user: Option<SessionUser>)
    requires store.Valid()
    ensures !HasCredentials(credentials) ==> user.None?
    ensures user.Some? <==>
      && HasCredentials(credentials) && !fault
      && exists i :: 0 <= i < |store.docs| && store.docs[i].username == credentials.value.username.value
                     && Bcrypt.Verify(credentials.value.password.value, store.docs[i].password)
    ensures user.Some? ==>
      exists i :: 0 <= i < |store.docs| && user.value == Summary(store.docs[i])
                  && store.docs[i].username == credentials.value.username.value
  {
    if !HasCredentials(credentials) {
      return None;
    }
    var validated := store.ValidatePassword(credentials.value.username.value, credentials.value.password.value, fault);
    if validated.Some? {
      user := Some(Summary(validated.value));
    } else {
      user := None;
    }
  }

  /** The JWT payload: next-auth's `sub` and `email` claims, and the two
      claims the `jwt` callback adds. */
  datatype Token = Token(sub: Option<string>, email: Option<string>, username: Option<string>, role: Option<string>)

  /** The token next-auth builds from the user `authorize` returned, before
      it calls `jwt`: the user's id becomes `sub`. */
  function SignInToken(u: SessionUser): Token {
    Token(Some(u.id), u.email, None, None)
  }

  /** The `jwt` callback: copies username and role onto the token when a
      user is supplied (at sign-in), and otherwise returns the token as it
      came. */
  function Jwt(token: Token, user: Option<SessionUser>): (t: Token)
    ensures user.None? ==> t == token
    ensures user.Some? ==> t.username == Some(user.value.username) && t.role == Some(user.value.role)
    ensures t.sub == token.sub && t.email == token.email
  {
    match user
    case None => token
    case Some(u) => token.(username := Some(u.username), role := Some(u.role))
  }

  /** `session.user` as the `session` callback writes it. Username and
      role are cast from the token without a check, so they are absent
      when the token lacks them. */
  datatype SessionUserView = SessionUserView(id: string, username: Option<string>, email: Option<string>, role: Option<string>)

  datatype Session = Session(user: SessionUserView, expires: Time)

  /** The `session` callback: the session's user is rebuilt from the
      token; `id` is `sub`, or `''` when that is absent. */
  function SessionCallback(session: Session, token: Option<Token>): (s: Session)
    ensures s.expires == session.expires
    ensures token.None? ==> s == session
    ensures token.Some? ==>
      && s.user.id == (if Truthy(token.value.sub) then token.value.sub.value else "")
      && s.user.username == token.value.username
      && s.user.email == token.value.email
      && s.user.role == token.value.role
  {
    match token
    case None => session
    case Some(t) => session.(user := SessionUserView(OrElse(t.sub, ""), t.username, t.email, t.role))
  }

  /** The session a signed-in user sees: sign-in token, then `jwt` with the
      user, then `session`. */
  function SignedInSession(u: SessionUser, session: Session): Session {
    SessionCallback(session, Some(Jwt(SignInToken(u), Some(u))))
  }

  /** Signing in and reading the session back gives the authorized user's
      id, username, email and role. */
  lemma SignInRoundTrip(u: SessionUser, session: Session)
    ensures SignedInSession(u, session).user == SessionUserView(u.id, Some(u.username), u.email, Some(u.role))
  {
  }

  /** Later `jwt` calls, which carry no user, keep the claims of sign-in. */
  lemma {:induction false} RefreshKeepsClaims(u: SessionUser, rounds: nat)
    ensures Refreshed(Jwt(SignInToken(u), Some(u)), rounds) == Jwt(SignInToken(u), Some(u))
  {
    if rounds > 0 {
      RefreshKeepsClaims(u, rounds - 1);
    }
  }

  /** `rounds` successive `jwt` calls without a user. */
  function Refreshed(t: Token, rounds: nat): Token {
    if rounds == 0 then t else Jwt(Refreshed(t, rounds - 1), None)
  }

  /** next-auth's expiry rule for a token issued at `issuedAt` (seconds):
      it is accepted until `maxAge` has passed. */
  predicate Live(issuedAt: nat, now: nat) {
    now < issuedAt + SessionMaxAge
  }

  lemma LifetimeIsOneDay(issuedAt: nat)
    ensures Live(issuedAt, issuedAt + 23 * 3600 + 59 * 60)
    ensures !Live(issuedAt, issuedAt + 24 * 3600 + 60)
  {
  }
}
