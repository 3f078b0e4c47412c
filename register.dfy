/** The registration endpoint (pages/api/auth/register.ts): a chain of
    early-return status decisions, ending in `createUser` on the store. */
module RegisterApi {
  import opened Wrappers
  import opened Js
  import opened Documents
  import opened Bcrypt
  import opened UserModel

  /** The JSON body fields the handler reads; `None` is an absent field. */
  datatype RegisterBody = RegisterBody(
    username: Option<string>,
    password: Option<string>,
    email: Option<string>,
    role: Option<string>)

  /** `AuthResponse` with its HTTP status. */
  datatype AuthResponse = AuthResponse(status: nat, success: bool, message: string, user: Option<SessionUser>)

  /** The user record the handler asks the store to create: the role
      defaults to admin only when the field is absent. */
  function Requested(body: RegisterBody): (data: NewUser)
    requires body.username.Some? && body.password.Some?
    ensures data.username == body.username.value && data.password == body.password.value
    ensures data.email == body.email
    ensures body.role.None? ==> data.role == AdminRole
    ensures body.role.Some? ==> data.role == body.role.value
  {
    NewUser(body.username.value, body.password.value, body.email, body.role.GetOr(AdminRole))
  }

  /** The handler. `lookupFault` and `createFault` are the store failures
      `findByUsername` and `createUser` swallow; `salt` and `now` are
      bcrypt's salt and the clock. */
  method Register(store: UserStore, httpMethod: string, body: RegisterBody,
                  lookupFault: bool, salt: Salt, now: Time, createFault: CreateFault)
    returns (res: AuthResponse)
    requires store.Valid()
    modifies store
    ensures store.Valid()
    ensures res.status in {201, 400, 405, 409, 500}
    // each early status exactly under its own condition
    ensures res.status == 405 <==> httpMethod != "POST"
    ensures res.status == 400 <==> httpMethod == "POST" && !(Truthy(body.username) && Truthy(body.password))
    ensures res.status == 409 <==>
      && httpMethod == "POST" && Truthy(body.username) && Truthy(body.password)
      && !lookupFault && Find(old(store.docs), body.username.value).Some?
    // 405: wrong method, nothing touched
    ensures httpMethod != "POST" ==>
      res == AuthResponse(405, false, "Method not allowed", None) && unchanged(store)
    // 400: a missing or empty username or password, nothing created
    ensures httpMethod == "POST" && !(Truthy(body.username) && Truthy(body.password)) ==>
      res == AuthResponse(400, false, "Username and password are required", None) && unchanged(store)
    // 409: the username is taken (when the lookup did not fail)
    ensures (httpMethod == "POST" && Truthy(body.username) && Truthy(body.password)
             && !lookupFault && Find(old(store.docs), body.username.value).Some?) ==>
      res == AuthResponse(409, false, "Username already exists", None) && unchanged(store)
    // 201 exactly when the creation went through
    ensures res.status == 201 <==>
      && httpMethod == "POST" && Truthy(body.username) && Truthy(body.password)
      && Find(old(store.docs), body.username.value).None? && createFault == NoFault
    ensures res.status == 201 ==>
      var u := NewRecord(Requested(body), old(store.nextId), salt, now);
      && store.docs == old(store.docs) + [u]
      && res == AuthResponse(201, true, "User created successfully", Some(Summary(u)))
    // 500: the store returned null; the record may still have been written
    ensures res.status !in {201, 405, 400, 409} ==>
      && httpMethod == "POST" && Truthy(body.username) && Truthy(body.password)
      && res == AuthResponse(500, false, "Failed to create user", None)
      && store.docs == (if createFault == AfterInsert && Find(old(store.docs), body.username.value).None?
                        then old(store.docs) + [NewRecord(Requested(body), old(store.nextId), salt, now)]
                        else old(store.docs))
    ensures res.success <==> res.status == 201
  {
    if httpMethod != "POST" {
      return AuthResponse(405, false, "Method not allowed", None);
    }
    if !(Truthy(body.username) && Truthy(body.password)) {
      return AuthResponse(400, false, "Username and password are required", None);
    }
    var existing := store.FindByUsername(body.username.value, lookupFault);
    if existing.Some? {
      return AuthResponse(409, false, "Username already exists", None);
    }
    var newUser := store.CreateUser(Requested(body), salt, now, createFault);
    if newUser.Some? {
      res := AuthResponse(201, true, "User created successfully", Some(Summary(newUser.value)));
    } else {
      res := AuthResponse(500, false, "Failed to create user", None);
    }
  }
}
