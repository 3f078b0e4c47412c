/** The first-admin bootstrap endpoint (pages/api/setup/admin.ts). */
module SetupApi {
  import opened Wrappers
  import opened Js
  import opened Documents
  import opened Bcrypt
  import opened UserModel

  datatype SetupBody = SetupBody(username: Option<string>, password: Option<string>, email: Option<string>)

  /** The `user` object of a 201 response: no email, no password. */
  datatype AdminSummary = AdminSummary(id: string, username: string, role: string)

  datatype SetupResponse = SetupResponse(status: nat, message: string, user: Option<AdminSummary>)

  /** The record the handler creates: always an admin, the email `''` when
      absent or empty. */
  function FirstAdmin(body: SetupBody): (data: NewUser)
    requires body.username.Some? && body.password.Some?
    ensures data.role == AdminRole
    ensures data.username == body.username.value && data.password == body.password.value
    ensures data.email == Some(if Truthy(body.email) then body.email.value else "")
  {
    NewUser(body.username.value, body.password.value, Some(OrElse(body.email, "")), AdminRole)
  }

  /** The handler. `listFault` is a store failure inside `getAllUsers`,
      which then reports no users at all. */
  method SetupAdmin(store: UserStore, httpMethod: string, body: SetupBody,
                    listFault: bool, salt: Salt, now: Time, createFault: CreateFault)
    returns (res: SetupResponse)
    requires store.Valid()
    modifies store
    ensures store.Valid()
    ensures res.status in {201, 400, 405, 409, 500}
    // each early status exactly under its own condition
    ensures res.status == 405 <==> httpMethod != "POST"
    ensures res.status == 409 <==> httpMethod == "POST" && !listFault && AdminExists(old(store.docs))
    ensures res.status == 400 <==>
      && httpMethod == "POST" && (listFault || !AdminExists(old(store.docs)))
      && !(Truthy(body.username) && Truthy(body.password))
    ensures httpMethod != "POST" ==>
      res == SetupResponse(405, "Method not allowed", None) && unchanged(store)
    // 409 as soon as an admin is seen, before the fields are looked at
    ensures httpMethod == "POST" && !listFault && AdminExists(old(store.docs)) ==>
      res == SetupResponse(409, "Admin user already exists. Setup not needed.", None) && unchanged(store)
    ensures (httpMethod == "POST" && (listFault || !AdminExists(old(store.docs)))
             && !(Truthy(body.username) && Truthy(body.password))) ==>
      res == SetupResponse(400, "Username and password are required", None) && unchanged(store)
    ensures res.status == 201 <==>
      && httpMethod == "POST" && (listFault || !AdminExists(old(store.docs)))
      && Truthy(body.username) && Truthy(body.password)
      && Find(old(store.docs), body.username.value).None? && createFault == NoFault
    ensures res.status == 201 ==>
      var u := NewRecord(FirstAdmin(body), old(store.nextId), salt, now);
      && store.docs == old(store.docs) + [u]
      && res == SetupResponse(201, "Admin user created successfully",
                              Some(AdminSummary(IdText(u.id), u.username, AdminRole)))
      && AdminExists(store.docs)
    // 500: the store returned null; the record may still have been written
    ensures res.status !in {201, 405, 409, 400} ==>
      && httpMethod == "POST" && (listFault || !AdminExists(old(store.docs)))
      && Truthy(body.username) && Truthy(body.password)
      && res == SetupResponse(500, "Failed to create admin user", None)
      && store.docs == (if createFault == AfterInsert && Find(old(store.docs), body.username.value).None?
                        then old(store.docs) + [NewRecord(FirstAdmin(body), old(store.nextId), salt, now)]
                        else old(store.docs))
  {
    if httpMethod != "POST" {
      return SetupResponse(405, "Method not allowed", None);
    }
    var existingUsers := store.GetAllUsers(listFault);
    if AdminExists(existingUsers) {
      return SetupResponse(409, "Admin user already exists. Setup not needed.", None);
    }
    if !(Truthy(body.username) && Truthy(body.password)) {
      return SetupResponse(400, "Username and password are required", None);
    }
    var adminUser := store.CreateUser(FirstAdmin(body), salt, now, createFault);
    if adminUser.Some? {
      var u := adminUser.value;
      assert store.docs[|store.docs| - 1] == u;
      res := SetupResponse(201, "Admin user created successfully",
                           Some(AdminSummary(IdText(u.id), u.username, u.role)));
    } else {
      res := SetupResponse(500, "Failed to create admin user", None);
    }
  }
}
