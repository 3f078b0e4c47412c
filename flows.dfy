/** Properties that span several files: the three access checks agree,
    what a registration makes possible, and how repeated calls behave. */
module Flows {
  import opened Wrappers
  import opened Documents
  import opened Bcrypt
  import opened UserModel
  import opened RegisterApi
  import opened SetupApi
  import opened Auth
  import opened Middleware
  import opened NextServer
  import opened LoginPage
  import opened AdminDashboard
  import opened GalleryStore
  import opened ImagesApi

  /** The login page sends to the dashboard exactly the sessions the
      dashboard admits, and the dashboard sends back to the login page only
      sessions that the login page does not send to the dashboard: the two
      pages never bounce a user between them. */
  lemma LoginAndDashboardAgree(session: Option<Session>)
    ensures LoginServerSideProps(session) == Redirect(DashboardPath, false) <==> AdminSession(session)
    ensures !AdminSession(session) ==> LoginServerSideProps(session) != Redirect(DashboardPath, false)
  {
  }

  /** The dashboard path is one the middleware guards. */
  lemma DashboardIsGuarded()
    ensures MatcherApplies(DashboardPath)
  {
    assert DashboardPath[..|AdminPrefix + "/"|] == AdminPrefix + "/";
  }

  /** For a session built from a token, the dashboard's own guard and the
      middleware reach the same verdict on the dashboard path. */
  lemma PageGuardMatchesMiddleware(token: Token, session: Session)
    ensures AdminSession(Some(SessionCallback(session, Some(token)))) <==> Admitted(DashboardPath, Some(token))
  {
    DashboardIsGuarded();
    GuardedPathsNeedAdmin(DashboardPath, Some(token));
  }

  /** A user signed in with role admin passes the middleware on every
      guarded path, is sent to the dashboard by the login page, and is
      admitted by the dashboard; any other signed-in user is kept out of
      every guarded path. */
  lemma SignedInAccess(u: SessionUser, session: Session, pathname: string)
    requires MatcherApplies(pathname)
    ensures var token := Jwt(SignInToken(u), Some(u));
      && (Admitted(pathname, Some(token)) <==> u.role == AdminRole)
      && (AdminSession(Some(SignedInSession(u, session))) <==> u.role == AdminRole)
      && (LoginServerSideProps(Some(SignedInSession(u, session))) ==
            if u.role == AdminRole then Redirect(DashboardPath, false) else Redirect(HomePath, false))
  {
    GuardedPathsNeedAdmin(pathname, Some(Jwt(SignInToken(u), Some(u))));
  }

  /** The API routes lie outside the middleware's matcher: registration,
      the admin bootstrap, paywall creation and the listing take requests
      without any session. */
  lemma ApiRoutesAreUnguarded(token: Option<Token>)
    ensures Admitted("/api/auth/register", token)
    ensures Admitted("/api/setup/admin", token)
    ensures Admitted("/api/post/paywall", token)
    ensures Admitted("/api/images", token)
  {
    OutsideAdmin("/api/auth/register", token);
    OutsideAdmin("/api/setup/admin", token);
    OutsideAdmin("/api/post/paywall", token);
    OutsideAdmin("/api/images", token);
  }

  /** A path whose third character differs from that of `/admin` is
      neither an admin path nor guarded. */
  lemma OutsideAdmin(pathname: string, token: Option<Token>)
    requires |pathname| >= 3 && pathname[2] != AdminPrefix[2]
    ensures !MatcherApplies(pathname) && Admitted(pathname, token)
  {
    if |AdminPrefix| <= |pathname| {
      assert pathname[..|AdminPrefix|][2] != AdminPrefix[2];
    }
    if |AdminPrefix + "/"| <= |pathname| {
      assert pathname[..|AdminPrefix + "/"|][2] != (AdminPrefix + "/")[2];
    }
  }

  /** A registration that names no role asks for an admin. */
  lemma DefaultRegistrationIsAdmin(username: string, password: string, email: Option<string>)
    ensures Requested(RegisterBody(Some(username), Some(password), email, None)).role == AdminRole
  {
  }

  /** Registering then signing in with the same credentials yields the
      created user's summary. */
  method RegisterThenSignIn(store: UserStore, username: string, password: string, salt: Salt, now: Time)
    returns (registered: AuthResponse, signedIn: Option<SessionUser>)
    requires store.Valid()
    modifies store
    ensures store.Valid()
    ensures registered.status == 201 ==> signedIn == registered.user
    ensures username != "" && password != "" && Find(old(store.docs), username).None? ==> registered.status == 201
  {
    var body := RegisterBody(Some(username), Some(password), None, None);
    registered := Register(store, "POST", body, false, salt, now, NoFault);
    signedIn := Authorize(store, Some(Credentials(Some(username), Some(password))), false);
    if registered.status == 201 {
      var u := NewRecord(Requested(body), old(store.nextId), salt, now);
      var last := |store.docs| - 1;
      assert store.docs[last] == u;
      assert Verify(password, store.docs[last].password);
    }
  }

  /** A second registration under a created username gets 409 when the
      lookup works. */
  method RegisterTwice(store: UserStore, body: RegisterBody, salt1: Salt, salt2: Salt, now1: Time, now2: Time)
    returns (first: AuthResponse, second: AuthResponse)
    requires store.Valid()
    modifies store
    ensures store.Valid()
    ensures first.status == 201 ==> second.status == 409
  {
    first := Register(store, "POST", body, false, salt1, now1, NoFault);
    ghost var afterFirst := store.docs;
    second := Register(store, "POST", body, false, salt2, now2, NoFault);
    if first.status == 201 {
      assert afterFirst[|afterFirst| - 1].username == body.username.value;
      assert Find(afterFirst, body.username.value).Some?;
    }
  }

  /** The bootstrap works once: after a 201, a later call whose user listing
      works gets 409, whatever its body. */
  method SetupTwice(store: UserStore, body1: SetupBody, body2: SetupBody, salt1: Salt, salt2: Salt,
                    now1: Time, now2: Time, create2: CreateFault)
    returns (first: SetupResponse, second: SetupResponse)
    requires store.Valid()
    modifies store
    ensures store.Valid()
    ensures first.status == 201 ==> second.status == 409
  {
    first := SetupAdmin(store, "POST", body1, false, salt1, now1, NoFault);
    second := SetupAdmin(store, "POST", body2, false, salt2, now2, create2);
  }

  /** Creating a second paywall for an image that has one adds a record the
      listing never shows: the first record's URL stays the one served. */
  lemma SecondPaywallShadowed(records: seq<PaywallRecord>, first: PaywallRecord, second: PaywallRecord, publicId: string)
    requires FindPaywall(records, publicId).None?
    requires first.public_id == Some(publicId) && second.public_id == Some(publicId)
    ensures PaywallOf(records + [first] + [second], publicId) == PaywallLink(first.paywall)
  {
    AppendedPaywallFound(records, first, [second], publicId);
  }
}
