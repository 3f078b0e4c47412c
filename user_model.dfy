/** The user collection and its access class (models/User.ts). The
    collection is the sequence of user documents in the database's natural
    order; the unique index on `username` is the store's invariant. Every
    operation that can fail takes a fault parameter standing for a thrown
    driver, connection or hashing error, which the class swallows and turns
    into null, [], false or 0. */
module UserModel {
  import opened Wrappers
  import opened Documents
  import opened Bcrypt

  const AdminRole := "admin"

  /** A stored user document. `role` is a plain string: the callers cast
      request input to it without checking. */
  datatype User = User(
    id: ObjectId,
    username: string,
    email: Option<string>,
    password: StoredPassword,
    role: string,
    createdAt: Time,
    updatedAt: Time)

  /** The argument of `createUser`: a user without id and timestamps, whose
      password is still plaintext. */
  datatype NewUser = NewUser(username: string, password: string, email: Option<string>, role: string)

  /** The `Partial<User>` argument of `updateUser`; `None` is a field
      absent from the update. `password` is plaintext on the way in. */
  datatype UserUpdate = UserUpdate(
    username: Option<string>,
    email: Option<string>,
    password: Option<string>,
    role: Option<string>,
    createdAt: Option<Time>)

  /** Where `createUser` may throw: before the insert (connection, hashing,
      or the insert itself), or after it, while reading the new document
      back. */
  datatype CreateFault = NoFault | BeforeInsert | AfterInsert

  predicate UniqueUsernames(docs: seq<User>) {
    forall i, j :: 0 <= i < j < |docs| ==> docs[i].username != docs[j].username
  }

  predicate UniqueIds(docs: seq<User>) {
    forall i, j :: 0 <= i < j < |docs| ==> docs[i].id != docs[j].id
  }

  predicate IdsBelow(docs: seq<User>, bound: ObjectId) {
    forall i :: 0 <= i < |docs| ==> docs[i].id < bound
  }

  /** `findOne({ username })`: the first document in natural order with
      that username. */
  function Find(docs: seq<User>, username: string): (r: Option<User>)
    ensures r.Some? ==> r.value in docs && r.value.username == username
    ensures r.None? <==> forall i :: 0 <= i < |docs| ==> docs[i].username != username
  {
    if docs == [] then None
    else if docs[0].username == username then Some(docs[0])
    else Find(docs[1..], username)
  }

  /** With unique usernames, the lookup finds the one document that carries
      the name. */
  lemma {:induction false} FindUnique(docs: seq<User>, i: nat)
    requires UniqueUsernames(docs)
    requires i < |docs|
    ensures Find(docs, docs[i].username) == Some(docs[i])
  {
    if i > 0 {
      assert docs[0].username != docs[i].username;
      assert UniqueUsernames(docs[1..]) by {
        forall a, b | 0 <= a < b < |docs| - 1
          ensures docs[1..][a].username != docs[1..][b].username
        {
          assert docs[1..][a] == docs[a + 1] && docs[1..][b] == docs[b + 1];
        }
      }
      FindUnique(docs[1..], i - 1);
      assert docs[1..][i - 1] == docs[i];
    }
  }

  /** The document `createUser` inserts: the plaintext replaced by its hash,
      both timestamps set to the creation time. */
  function NewRecord(data: NewUser, id: ObjectId, salt: Salt, now: Time): (u: User)
    ensures u.id == id && u.username == data.username && u.email == data.email
    ensures u.role == data.role && u.createdAt == now && u.updatedAt == now
    ensures u.password == Hash(data.password, salt) && Verify(data.password, u.password)
  {
    VerifyHash(data.password, data.password, salt);
    User(id, data.username, data.email, Hash(data.password, salt), data.role, now, now)
  }

  /** The password field an update writes: a non-empty password is hashed;
      an empty one fails the `if (updates.password)` test and is written
      as it is. */
  function UpdatedPassword(current: StoredPassword, update: Option<string>, salt: Salt): (p: StoredPassword)
    ensures update.None? ==> p == current
    ensures update.Some? && update.value != "" ==> p == Hash(update.value, salt)
    ensures update == Some("") ==> p == Raw("")
  {
    match update
    case None => current
    case Some(plain) => if plain != "" then Hash(plain, salt) else Raw(plain)
  }

  /** `$set: updates` on one document, after `updatedAt` was set to now. */
  function ApplyUpdate(u: User, upd: UserUpdate, salt: Salt, now: Time): (v: User)
    ensures v.id == u.id && v.updatedAt == now
    ensures v.username == upd.username.GetOr(u.username)
    ensures v.email == (if upd.email.Some? then upd.email else u.email)
    ensures v.role == upd.role.GetOr(u.role)
    ensures v.createdAt == upd.createdAt.GetOr(u.createdAt)
    ensures v.password == UpdatedPassword(u.password, upd.password, salt)
  {
    u.(username := upd.username.GetOr(u.username),
       email := if upd.email.Some? then upd.email else u.email,
       password := UpdatedPassword(u.password, upd.password, salt),
       role := upd.role.GetOr(u.role),
       createdAt := upd.createdAt.GetOr(u.createdAt),
       updatedAt := now)
  }

  /** The collection after `updateOne({ username }, ...)` wrote `v`. */
  function Replace(docs: seq<User>, username: string, v: User): seq<User> {
    seq(|docs|, i requires 0 <= i < |docs| => if docs[i].username == username then v else docs[i])
  }

  /** True when writing `v` in place of the document named `username` would
      break the unique index on `username`. */
  predicate RenameConflicts(docs: seq<User>, username: string, v: User) {
    v.username != username && Find(docs, v.username).Some?
  }

  /** The collection after `deleteOne({ username })`. */
  function Without(docs: seq<User>, username: string): (r: seq<User>)
    ensures |r| <= |docs|
    ensures forall d :: d in r <==> d in docs && d.username != username
  {
    if docs == [] then []
    else (if docs[0].username == username then [] else [docs[0]]) + Without(docs[1..], username)
  }

  lemma UniqueTail(docs: seq<User>)
    requires UniqueUsernames(docs) && docs != []
    ensures UniqueUsernames(docs[1..])
    ensures forall d :: d in docs[1..] ==> d.username != docs[0].username
  {
    forall a, b | 0 <= a < b < |docs| - 1
      ensures docs[1..][a].username != docs[1..][b].username
    {
      assert docs[1..][a] == docs[a + 1] && docs[1..][b] == docs[b + 1];
    }
  }

  /** Deleting a name no document carries changes nothing. */
  lemma {:induction false} WithoutAbsent(docs: seq<User>, username: string)
    requires Find(docs, username).None?
    ensures Without(docs, username) == docs
  {
    if docs != [] {
      assert docs[0].username != username;
      WithoutAbsent(docs[1..], username);
      assert [docs[0]] + docs[1..] == docs;
    }
  }

  /** With unique usernames, deleting removes exactly one document when one
      carries the name and none otherwise. */
  lemma {:induction false} WithoutLength(docs: seq<User>, username: string)
    requires UniqueUsernames(docs)
    ensures |Without(docs, username)| == |docs| - (if Find(docs, username).Some? then 1 else 0)
  {
    if docs != [] {
      UniqueTail(docs);
      if docs[0].username == username {
        WithoutAbsent(docs[1..], username);
      } else {
        WithoutLength(docs[1..], username);
      }
    }
  }

  /** Deleting keeps usernames unique. */
  lemma {:induction false} WithoutUnique(docs: seq<User>, username: string)
    requires UniqueUsernames(docs)
    ensures UniqueUsernames(Without(docs, username))
  {
    if docs != [] {
      UniqueTail(docs);
      WithoutUnique(docs[1..], username);
      var rest := Without(docs[1..], username);
      if docs[0].username != username {
        var r := [docs[0]] + rest;
        forall a, b | 0 <= a < b < |r| ensures r[a].username != r[b].username {
          assert r[b] == rest[b - 1];
          if a > 0 {
            assert r[a] == rest[a - 1];
          } else {
            assert rest[b - 1] in rest;
          }
        }
      }
    }
  }

  /** Deleting keeps ids unique and below the counter. */
  lemma {:induction false} WithoutKeepsIds(docs: seq<User>, username: string, bound: ObjectId)
    requires UniqueIds(docs) && IdsBelow(docs, bound)
    ensures UniqueIds(Without(docs, username)) && IdsBelow(Without(docs, username), bound)
  {
    if docs != [] {
      var tail := docs[1..];
      assert UniqueIds(tail) by {
        forall a, b | 0 <= a < b < |tail| ensures tail[a].id != tail[b].id {
          assert tail[a] == docs[a + 1] && tail[b] == docs[b + 1];
        }
      }
      assert IdsBelow(tail, bound) by {
        forall a | 0 <= a < |tail| ensures tail[a].id < bound {
          assert tail[a] == docs[a + 1];
        }
      }
      WithoutKeepsIds(tail, username, bound);
      var rest := Without(tail, username);
      var r := Without(docs, username);
      forall a | 0 <= a < |r| ensures r[a].id < bound {
        assert r[a] in docs;
      }
      if docs[0].username != username {
        assert r == [docs[0]] + rest;
        forall a, b | 0 <= a < b < |r| ensures r[a].id != r[b].id {
          assert r[b] == rest[b - 1];
          if a > 0 {
            assert r[a] == rest[a - 1];
          } else {
            assert rest[b - 1] in tail;
            var k :| 0 <= k < |tail| && tail[k] == rest[b - 1];
            assert tail[k] == docs[k + 1];
          }
        }
      }
    }
  }

  /** Writing `v` over the document named `username` keeps the collection's
      invariants, unless it renames onto a name already taken. */
  lemma ReplaceKeepsInvariants(docs: seq<User>, username: string, u: User, v: User, bound: ObjectId)
    requires UniqueUsernames(docs) && UniqueIds(docs) && IdsBelow(docs, bound)
    requires Find(docs, username) == Some(u) && v.id == u.id
    requires !RenameConflicts(docs, username, v)
    ensures var r := Replace(docs, username, v);
      UniqueUsernames(r) && UniqueIds(r) && IdsBelow(r, bound)
  {
    var r := Replace(docs, username, v);
    var k :| 0 <= k < |docs| && docs[k] == u;
    forall i, j | 0 <= i < j < |r| ensures r[i].username != r[j].username && r[i].id != r[j].id {
      if i == k {
        assert r[i] == v;
        assert docs[j].username != username;
        assert r[j] == docs[j];
        if v.username != username {
          assert Find(docs, v.username).None?;
        }
      } else if j == k {
        assert r[j] == v;
        assert docs[i].username != username;
        assert r[i] == docs[i];
        if v.username != username {
          assert Find(docs, v.username).None?;
        }
      } else {
        assert r[i] == docs[i] && r[j] == docs[j];
      }
    }
  }

  /** What `validatePassword` decides on a healthy store: the user exactly
      when a document with that username exists and the password verifies
      against its hash. A missing user and a wrong password both give
      None. */
  function Validate(docs: seq<User>, username: string, password: string): (r: Option<User>)
    requires UniqueUsernames(docs)
    ensures r.Some? <==> exists i :: 0 <= i < |docs| && docs[i].username == username && Verify(password, docs[i].password)
    ensures r.Some? ==> r.value in docs && r.value.username == username && Verify(password, r.value.password)
  {
    match Find(docs, username)
    case None => None
    case Some(u) =>
      if Verify(password, u.password) then Some(u)
      else
        assert forall i :: 0 <= i < |docs| && docs[i].username == username ==> docs[i] == u by {
          forall i | 0 <= i < |docs| && docs[i].username == username ensures docs[i] == u {
            FindUnique(docs, i);
          }
        }
        None
  }

  /** Creating a user and then validating its username accepts exactly the
      password it was created with, and returns the created record. */
  lemma CreateThenValidate(docs: seq<User>, data: NewUser, id: ObjectId, salt: Salt, now: Time, password: string)
    requires UniqueUsernames(docs) && Find(docs, data.username).None?
    ensures UniqueUsernames(docs + [NewRecord(data, id, salt, now)])
    ensures Validate(docs + [NewRecord(data, id, salt, now)], data.username, password)
      == if password == data.password then Some(NewRecord(data, id, salt, now)) else None
  {
    var u := NewRecord(data, id, salt, now);
    var d := docs + [u];
    assert d[|docs|] == u;
    FindUnique(d, |docs|);
    VerifyHash(password, data.password, salt);
  }

  /** `SessionUser`: the public summary of a user, without its password. */
  datatype SessionUser = SessionUser(id: string, username: string, email: Option<string>, role: string)

  /** `{ id: user._id?.toString() || '', username, email, role }`. A stored
      document always has an id and its text is never empty, so the `''`
      fallback is never taken. */
  function Summary(u: User): (s: SessionUser)
    ensures s.id == IdText(u.id) && s.id != ""
    ensures s.username == u.username && s.email == u.email && s.role == u.role
  {
    SessionUser(IdText(u.id), u.username, u.email, u.role)
  }

  /** True when some user in the list has role admin (`users.some(...)`). */
  predicate AdminExists(users: seq<User>) {
    exists i :: 0 <= i < |users| && users[i].role == AdminRole
  }

  /** `UserModel`: the `users` collection with its operations. */
  class UserStore {
    /** The documents of the collection, in natural order. */
    var docs: seq<User>
    /** The next ObjectId the driver will hand out. */
    var nextId: ObjectId

    /** The unique index on `username`, and `_id` uniqueness. */
    ghost predicate Valid()
      reads this
    {
      UniqueUsernames(docs) && UniqueIds(docs) && IdsBelow(docs, nextId)
    }

    constructor ()
      ensures Valid() && docs == [] && nextId == 0
    {
      docs := [];
      nextId := 0;
    }

    /** `createUser`: inserts the hashed record. A taken username makes the
        insert fail on the unique index, so the collection is unchanged and
        null comes back; a failure after the insert leaves the record stored
        but still returns null. */
    method CreateUser(data: NewUser, salt: Salt, now: Time, fault: CreateFault) returns (r: Option<User>)
      requires Valid()
      modifies this
      ensures Valid()
      ensures fault == BeforeInsert || Find(old(docs), data.username).Some? ==>
        r.None? && docs == old(docs) && nextId == old(nextId)
      ensures fault != BeforeInsert && Find(old(docs), data.username).None? ==>
        var u := NewRecord(data, old(nextId), salt, now);
        && docs == old(docs) + [u] && nextId == old(nextId) + 1
        && r == (if fault == NoFault then Some(u) else None)
    {
      r := None;
      if fault == BeforeInsert {
        return;
      }
      var existing := Find(docs, data.username);
      if existing.Some? {
        return;
      }
      var u := NewRecord(data, nextId, salt, now);
      docs := docs + [u];
      nextId := nextId + 1;
      if fault == NoFault {
        r := Some(u);
      }
    }

    /** `findByUsername`: the document, or null when there is none or the
        store failed. */
    method FindByUsername(username: string, fault: bool) returns (r: Option<User>)
      ensures fault ==> r.None?
      ensures !fault ==> r == Find(docs, username)
    {
      if fault {
        r := None;
      } else {
        r := Find(docs, username);
      }
    }

    /** `validatePassword`: looks the user up and checks the password;
        a failure gives null like a missing user or a wrong password. */
    method ValidatePassword(username: string, password: string, fault: bool) returns (r: Option<User>)
      requires Valid()
      ensures r == (if fault then None else Validate(docs, username, password))
    {
      var user := FindByUsername(username, fault);
      if user.None? {
        return None;
      }
      if Verify(password, user.value.password) {
        r := user;
      } else {
        r := None;
      }
    }

    /** `getAllUsers`: every document, or [] on failure. */
    method GetAllUsers(fault: bool) returns (users: seq<User>)
      ensures users == (if fault then [] else docs)
    {
      users := if fault then [] else docs;
    }

    /** `countUsers`: the number of documents, or 0 on failure. */
    method CountUsers(fault: bool) returns (n: nat)
      ensures n == (if fault then 0 else |docs|)
    {
      n := if fault then 0 else |docs|;
    }

    /** `updateUser`: writes the update, with a new `updatedAt` and a
        re-hashed password, over the one document named `username`, and
        reports whether that document changed. A missing document, a rename
        onto a taken username and a failure leave the collection unchanged
        and give false. */
    method UpdateUser(username: string, updates: UserUpdate, salt: Salt, now: Time, fault: bool) returns (modified: bool)
      requires Valid()
      modifies this
      ensures Valid() && nextId == old(nextId)
      ensures Find(old(docs), username).None? ==> !modified && docs == old(docs)
      ensures Find(old(docs), username).Some? ==>
        var u := Find(old(docs), username).value;
        var v := ApplyUpdate(u, updates, salt, now);
        if fault || RenameConflicts(old(docs), username, v) then !modified && docs == old(docs)
        else modified == (v != u) && docs == Replace(old(docs), username, v)
    {
      modified := false;
      if fault {
        return;
      }
      var found := Find(docs, username);
      if found.None? {
        return;
      }
      var u := found.value;
      var v := ApplyUpdate(u, updates, salt, now);
      if RenameConflicts(docs, username, v) {
        return;
      }
      ReplaceKeepsInvariants(docs, username, u, v, nextId);
      docs := Replace(docs, username, v);
      modified := v != u;
    }

    /** `deleteUser`: removes the document named `username` and reports
        whether there was one; every other document stays. */
    method DeleteUser(username: string, fault: bool) returns (deleted: bool)
      requires Valid()
      modifies this
      ensures Valid() && nextId == old(nextId)
      ensures deleted <==> !fault && Find(old(docs), username).Some?
      ensures docs == (if fault then old(docs) else Without(old(docs), username))
      ensures !fault ==> Find(docs, username).None? && |docs| == |old(docs)| - (if deleted then 1 else 0)
    {
      if fault {
        return false;
      }
      deleted := Find(docs, username).Some?;
      WithoutUnique(docs, username);
      WithoutLength(docs, username);
      WithoutKeepsIds(docs, username, nextId);
      docs := Without(docs, username);
    }
  }
}
