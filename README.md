# lnbits-gallery: a Dafny model of the request-handling core

This project models the server-side logic of a photo gallery. Admins sign in with a username and password. Some images are locked behind a pay-per-view link that an LNbits paywall extension mints. Images live on a media host; users and paywall records live in two document collections.

The model covers:

- **User store** (`UserModel`). The `users` collection is a class holding the documents in natural order. The unique index on `username` is the class invariant `Valid()`, along with `_id` uniqueness. The methods mirror `createUser`, `findByUsername`, `validatePassword`, `getAllUsers`, `updateUser`, `deleteUser` and `countUsers`. The driver, connection and hashing failures that the class swallows are explicit fault parameters. Passwords pass through an abstract salted `Hash` and `Verify` pair (`Bcrypt`).
- **Account endpoints** (`RegisterApi`, `SetupApi`). These are the status-code decisions of registration and the first-admin bootstrap. Each changes the store only through `createUser`.
- **Access decisions** (`Auth`, `Middleware`, `LoginPage`, `AdminDashboard`). These cover the credential provider, the `jwt` and `session` callbacks, the middleware's `authorized` callback and matcher, and the two pages' server-side redirects.
- **Gallery** (`GalleryStore`, `ImagesApi`, `PaywallApi`). The image listing annotates each media-host resource with its paywall record. It then merges blur placeholders by position. Paywall creation builds the LNbits request and stores one record, and only when LNbits answered.
- **Flows.** These are properties across files. The login page, the dashboard and the middleware agree on who is an admin. A registered user can sign in. A second registration or bootstrap gets 409. A duplicate paywall is shadowed in the listing.

What the model exposes about the code as written:

- Every API route lies outside the middleware's matcher (`/admin/:path*`). Registration needs no session and defaults the role to `admin`. So an anonymous request can create an admin account (`Flows.ApiRoutesAreUnguarded`, `Flows.DefaultRegistrationIsAdmin`).
- The role in a registration is cast from the request without a check, so any string can be stored as a role.
- `updateUser` hashes the password only when it is non-empty. An empty password is still written, unhashed, and afterwards no password verifies (`UserModel.UpdatedPassword`, `Bcrypt.RawNeverVerifies`).
- A failure while reading a new user back makes registration answer 500, although the record was stored. A retry then gets 409.
- The paywall endpoint checks neither the HTTP method nor an existing record. Each success mints a new link and adds a record, but the listing keeps serving the first one (`Flows.SecondPaywallShadowed`). A request whose JSON body is `null` makes the destructuring throw into a catch that only logs, so it gets no response at all.
- The dashboard props carry the full user documents, password hashes included.

Two facts of the code that the model follows as written:
- The registration role defaults to `admin` when the body names none (pages/api/auth/register.ts:17).
- Nothing enforces one paywall record per image: the insert at pages/api/post/paywall.tsx:43-50 runs without a prior lookup.

## Model

| member | source | states |
|---|---|---|
| `Bcrypt.Hash` | models/User.ts:27-28 | a hash records the cost factor 12 and the salt it was drawn with |
| `Bcrypt.DigestInjective` | models/User.ts:69 | the modelled key derivation gives no two passwords the same digest under one salt |
| `Bcrypt.Verify` | models/User.ts:69 | `bcrypt.compare` re-derives the digest under the stored salt; text that is not a bcrypt hash never matches (its properties are `VerifyHash` and `RawNeverVerifies`) |
| `Bcrypt.VerifyHash` | models/User.ts:69 | a hash verifies exactly the password it was made from |
| `Bcrypt.RawNeverVerifies` | models/User.ts:69 | text written unhashed into the password field never verifies |
| `Documents.IdText` | pages/api/auth/register.ts:48 | an id's text form is a non-empty string of digits, so the `|| ''` fallback is never used |
| `Js.Truthy` | pages/api/auth/register.ts:19 | a string field is truthy exactly when it is present and non-empty, as `!username` tests |
| `Js.StartsWith` | middleware.ts:11 | `pathname.startsWith(prefix)`: the prefix is no longer than the path and equals its first characters |
| `Js.OrElse` | pages/api/setup/admin.ts:34 | `x || d` yields the field when it is a non-empty string, else the default |
| `Js.JsString` | pages/api/post/paywall.tsx:20 | string concatenation inserts the value, or `"undefined"` for an absent one |
| `UserModel.Find` | models/User.ts:51-55 | the lookup returns a stored document with that username, and none exactly when no document carries it |
| `UserModel.FindUnique` | models/User.ts:17 | under the unique index, the lookup finds the one document with that name |
| `UserModel.NewRecord` | models/User.ts:27-35 | the inserted record keeps the input fields, stores `Hash(password)` (which verifies the plaintext) and sets both timestamps to the creation time |
| `UserModel.Validate` | models/User.ts:62-74 | the user is returned iff a document with that username exists and the password verifies; otherwise None |
| `UserModel.CreateThenValidate` | models/User.ts:22-72 | after creating a user, validation accepts exactly the creation password and returns the created record |
| `UserModel.UpdatedPassword` | models/User.ts:96-100 | a non-empty new password is hashed, an absent one keeps the stored hash, an empty one is written raw |
| `UserModel.ApplyUpdate` | models/User.ts:96-107 | an update keeps the id, overwrites exactly the supplied fields and always sets `updatedAt` to now |
| `UserModel.Replace` | models/User.ts:104-107 | `updateOne({username}, {$set})` writes the updated document in place of the one carrying the name and leaves every other document where it was |
| `UserModel.RenameConflicts` | models/User.ts:104-107 | the write would rename the document onto a username another document already carries, which the unique index refuses |
| `UserModel.ReplaceKeepsInvariants` | models/User.ts:104-107 | writing an update that does not rename onto a taken username keeps usernames and ids unique |
| `UserModel.Without` | models/User.ts:119 | deleting keeps exactly the documents with another username |
| `UserModel.WithoutAbsent` | models/User.ts:119 | deleting a name no document carries leaves the collection as it was |
| `UserModel.WithoutLength` | models/User.ts:119-120 | deleting removes one document iff one has the name, so `deletedCount > 0` means it existed |
| `UserModel.WithoutUnique` | models/User.ts:119 | deleting keeps usernames unique |
| `UserModel.WithoutKeepsIds` | models/User.ts:119 | deleting keeps ids unique and allocated |
| `UserModel.Summary` | pages/api/auth/register.ts:47-52 | the public summary carries the id's text (never empty), username, email and role, and no password |
| `UserModel.AdminExists` | pages/api/setup/admin.ts:15 | `existingUsers.some(user => user.role === 'admin')`: some document has role admin |
| `UserModel.UserStore.CreateUser` | models/User.ts:22-48 | a taken username or an early failure returns null with the store unchanged; otherwise exactly the hashed record is appended, and returned unless reading it back failed |
| `UserModel.UserStore.FindByUsername` | models/User.ts:51-60 | the lookup's result, or null on failure |
| `UserModel.UserStore.ValidatePassword` | models/User.ts:62-78 | validation's result, or null on failure |
| `UserModel.UserStore.GetAllUsers` | models/User.ts:81-90 | all documents, or [] on failure |
| `UserModel.UserStore.CountUsers` | models/User.ts:127-135 | the number of documents, which is the length of `getAllUsers`, or 0 on failure |
| `UserModel.UserStore.UpdateUser` | models/User.ts:92-114 | only the named document is rewritten; true iff it existed, the write succeeded and the document changed; the store is otherwise unchanged and stays valid |
| `UserModel.UserStore.DeleteUser` | models/User.ts:116-125 | true iff the named document existed; afterwards no document has that name and one fewer is stored; all others stay |
| `RegisterApi.Requested` | pages/api/auth/register.ts:17 | the role defaults to admin exactly when it is absent |
| `RegisterApi.Register` | pages/api/auth/register.ts:5-67 | the status is one of 201, 400, 405, 409, 500; 405 iff not POST, 400 iff a POST lacks a username or password, 409 iff the lookup that worked found the name, each with the store unchanged; 201 iff the record was created, with the summary; so a null from `createUser` gives 500, with the store as the failure left it |
| `SetupApi.FirstAdmin` | pages/api/setup/admin.ts:32-37 | the bootstrap user is an admin, with email `''` when none is given |
| `SetupApi.SetupAdmin` | pages/api/setup/admin.ts:5-59 | the status is one of 201, 400, 405, 409, 500; 405 iff not POST; 409 iff a listing that worked shows an admin, before field checks; 400 iff no admin was seen and a field is missing; 201 iff created, after which an admin exists; so a null from `createUser` gives 500, with the store as the failure left it |
| `Auth.SessionLastsOneDay` | lib/auth.ts:44 | the session lifetime is 86400 seconds |
| `Auth.LifetimeIsOneDay` | lib/auth.ts:42-45 | a token is still live 23h59m after issue and expired 24h01m after |
| `Auth.HasCredentials` | lib/auth.ts:15 | the credentials are present with a non-empty username and password, the test `authorize` makes before asking the store |
| `Auth.Authorize` | lib/auth.ts:14-39 | null without a username or password; otherwise the summary of a stored user with that name whose hash verifies the password, and null when there is none or the store failed |
| `Auth.SignInToken` | lib/auth.ts:26-31 | the token next-auth starts from the object `authorize` returns carries the user's id as `sub` and the email, and no username or role yet |
| `Auth.Jwt` | lib/auth.ts:47-52 | username and role are copied onto the token only when a user is supplied; otherwise the token is returned unchanged |
| `Auth.SessionCallback` | lib/auth.ts:54-62 | the session user's id is the token's `sub`, or `''`; username, email and role come from the token |
| `Auth.SignInRoundTrip` | lib/auth.ts:47-62 | the session of a freshly signed-in user carries that user's id, username, email and role |
| `Auth.RefreshKeepsClaims` | lib/auth.ts:47-53 | later `jwt` calls without a user keep the sign-in claims |
| `Middleware.Authorized` | middleware.ts:11-16 | the `authorized` callback: paths starting with `/admin` need a token whose role is admin, all other paths need a token |
| `Middleware.MatcherApplies` | middleware.ts:22-27 | `matcher: ['/admin/:path*']` covers `/admin` itself and every path below `/admin/` |
| `Middleware.Admitted` | middleware.ts:8-27 | a request passes when the matcher does not cover its path or the callback authorizes it |
| `Middleware.NoTokenNoAccess` | middleware.ts:11-16 | without a token no path is authorized |
| `Middleware.AdminPathNeedsAdminRole` | middleware.ts:11-13 | on a path starting `/admin`, authorized iff the token's role is admin |
| `Middleware.OtherPathNeedsToken` | middleware.ts:16 | on any other path, authorized iff a token exists |
| `Middleware.MatchedPathIsAdminPath` | middleware.ts:24 | every path the matcher covers starts with `/admin` |
| `Middleware.GuardedPathsNeedAdmin` | middleware.ts:9-27 | on a guarded path a request passes iff its token has role admin |
| `Middleware.UnmatchedPathsAreOpen` | middleware.ts:22-27 | paths outside the matcher always pass |
| `LoginPage.LoginServerSideProps` | pages/login.tsx:19-44 | no session renders empty props; an admin goes to `/admin/dashboard`, anyone else to `/`; never permanently |
| `AdminDashboard.AdminSession` | pages/admin/dashboard.tsx:336 | the page's guard `!session || session.user?.role !== 'admin'` fails exactly for a session whose user has role admin |
| `AdminDashboard.DashboardServerSideProps` | pages/admin/dashboard.tsx:332-376 | no session or a non-admin goes to `/login`; an admin gets all users and their count (each [] or 0 on failure), or empty props on an exception; the gallery stats are always zero |
| `GalleryStore.FindPaywall` | pages/api/images.ts:33-36 | the lookup returns the first record for the image, and none exactly when no record names it |
| `GalleryStore.FirstPaywallWins` | pages/api/images.ts:33-36 | once an image has a record, later inserts do not change what the lookup finds |
| `GalleryStore.AppendedPaywallFound` | pages/api/post/paywall.tsx:43-50 | the first record inserted for an image without one is what the lookup finds from then on |
| `GalleryStore.Gallery.InsertOne` | pages/api/post/paywall.tsx:43-50 | a failure changes nothing; otherwise exactly one record with a fresh id is appended and acknowledged |
| `ImagesApi.PaywallOf` | pages/api/images.ts:44 | the paywall field is the URL of the first record for the image, and false exactly when there is none |
| `ImagesApi.ListImages` | pages/api/images.ts:7-76 | 405 iff not GET; 500 iff a GET threw, with the error's message; `success` iff status 200; otherwise one image per resource in order, with id i, the resource's metadata, its paywall field and its blur URL, and count equal to the length |
| `PaywallApi.ConfiguredAmount` | pages/api/post/paywall.tsx:14 | the amount is the configured text, or 1000 when unset or empty |
| `PaywallApi.BuildRequest` | pages/api/post/paywall.tsx:18-24 | memo and description both equal `"gallery_" + public_id`, the URL is the request's, `remembers` is true |
| `PaywallApi.PaywallsEndpoint` | pages/api/post/paywall.tsx:12 | the request goes to `LNBITS_URL + "/paywall/api/v1/paywalls"`, with `"undefined"` for an unset base |
| `PaywallApi.PaywallUrl` | pages/api/post/paywall.tsx:37 | the stored URL is `LNBITS_URL + "/paywall/" + id`, each part as JavaScript concatenates it |
| `PaywallApi.Created` | pages/api/post/paywall.tsx:30-36 | LNbits counts as having created the paywall when the fetch resolved with an ok status and a JSON body; anything else reaches the 500 catch |
| `PaywallApi.PaywallUrlNamesId` | pages/api/post/paywall.tsx:37 | the stored URL is the LNbits base, `/paywall/`, then the returned id, which can be read back |
| `PaywallApi.PaywallUrlInjective` | pages/api/post/paywall.tsx:37 | distinct paywall ids give distinct stored URLs |
| `PaywallApi.CreatePaywall` | pages/api/post/paywall.tsx:4-64 | with a body, the built request is sent; an upstream or insert failure gives 500 and stores nothing; success appends exactly one record with the composed URL, with no existing-record check, and echoes the insert result; a JSON `null` body gets no response |
| `Flows.LoginAndDashboardAgree` | pages/login.tsx:23-37 | the login page sends to the dashboard exactly the sessions the dashboard admits, so the two never bounce a user between them |
| `Flows.DashboardIsGuarded` | middleware.ts:24 | the dashboard path is inside the matcher |
| `Flows.PageGuardMatchesMiddleware` | pages/admin/dashboard.tsx:336 | the dashboard's own guard and the middleware agree on every token |
| `Flows.SignedInAccess` | middleware.ts:11-13 | a signed-in user reaches guarded paths and the dashboard iff their role is admin, and the login page routes them accordingly |
| `Flows.OutsideAdmin` | middleware.ts:22-27 | a path that differs from `/admin` in its third character is not guarded |
| `Flows.ApiRoutesAreUnguarded` | middleware.ts:22-27 | registration, bootstrap, paywall and listing routes pass the middleware with or without a token |
| `Flows.DefaultRegistrationIsAdmin` | pages/api/auth/register.ts:17 | a registration naming no role asks for an admin |
| `Flows.RegisterThenSignIn` | pages/api/auth/register.ts:36-53 | a new username registers with 201, and signing in then returns the same summary as the registration response |
| `Flows.RegisterTwice` | pages/api/auth/register.ts:26-33 | a second registration of a created username gets 409 |
| `Flows.SetupTwice` | pages/api/setup/admin.ts:14-21 | after a 201 bootstrap, a later call gets 409 |
| `Flows.SecondPaywallShadowed` | pages/api/post/paywall.tsx:43-50 | a second paywall record for an image is never listed; the first record's URL stays the one served |

## Left out

- Connection set-up and index creation (models/User.ts:10-20, `Connect()`): the collections exist from the start. The unique index is the invariant `UserStore.Valid()`.
- bcrypt internals: the key derivation is a concrete injective stand-in. Salts are parameters. Cost 12 is only recorded. bcrypt's 72-byte password truncation is not modelled, so passwords are compared in full.
- ObjectIds: a counter per collection stands in for them, and their text form is decimal digits rather than 24 hex characters.
- `UserModel.NewRecord`: uses one clock reading for both timestamps where the source reads the clock twice.
- `UserModel.UserStore.UpdateUser`: does not model that the source also changes its `updates` argument (`password`, `updatedAt`). No caller in these files reads the argument back. Updates of `_id` and `updatedAt` through the argument are not modelled either.
- Request bodies: fields are absent or strings. Other JSON values, and a body that is missing altogether in registration and bootstrap, are not modelled. The registration handler's outer catch is unreachable in the model, because the store swallows its own failures.
- next-auth internals: JWT signing, cookies and decoding are not modelled, nor are the `name`/`picture` claims. The page the middleware redirects a refused request to is not modelled either; `Authorized`/`Admitted` give only the verdict. Expiry is modelled only by `Auth.Live`.
- Media host and placeholder helper: the search (folder, sort, 400-result cap) is not modelled; its `resources` and the placeholder function are inputs. A thrown failure anywhere in the listing is one `thrown` parameter.
- Concurrency: `Promise.all` is a positional map, and the listing reads one snapshot of the `gallery` collection. Concurrent requests are not modelled.
- Network: the LNbits `fetch` is an `Upstream` input. The outgoing call is returned as a record (endpoint, API key, body).
- `AdminDashboard.DashboardServerSideProps`: the JSON round trip of the users (dates become strings) is not modelled.
- Logging, environment reads (parameters instead), and all rendering: the page components, `handleCreateUser`, the client-side `createPaywall`, `_app`, `_document` and the home page.
