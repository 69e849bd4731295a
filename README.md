# DevTrack backend: sessions, accounts, tasks and profiles in Dafny

This project models the request-handling core of the DevTrack backend, an Express service
over a MongoDB document store. The backend keeps three collections: users, a ledger of issued
session tokens (`AuthToken`) and tasks. Four groups of behaviour act on them:

- **The auth guard** (`auth` middleware). It accepts a request only when all of these hold:
  - the request carries a `Bearer` header (section 2.1 of RFC 6750);
  - a signing secret is configured;
  - the token verifies as a JSON Web Token (RFC 7519);
  - the ledger holds an unrevoked entry for that token and the user it names;
  - that user still exists.
- **Accounts and sessions** (`register`, `login`, `logout`, `signToken`):
  - input checks in a fixed order;
  - e-mail normalisation (`trim` then `toLowerCase`) and uniqueness;
  - one new ledger entry per successful sign-in;
  - a one-way, owner-scoped revocation on logout.
- **Tasks** (`getTasks`, `createTask`, `updateTask`, `deleteTask`):
  - every handler is scoped to the requester;
  - listings are ordered newest first;
  - `completed` is derived from `status`;
  - `owner` is stripped from updates;
  - the schema's enum and required validators apply.
- **Profiles** (`getProfile`, `updateProfile`): a projection of the stored user, and a partial
  in-place update of name, bio and avatar.

The three schemas are datatypes with validity predicates: `UserModel`, `TaskModel` and
`AuthTokenModel`. The decisions that only read the stores are functions, in `AuthMiddleware`,
`AuthController`, `TaskController` and `ProfileController`. The handlers that write the stores
are methods of the class `Service.Backend`. Its fields are the three collections, kept in
insertion order, and the store's identifier counter. Each method's contract ties the new state
to the functions above. `Backend.Valid()` is the invariant that every handler preserves:
- every stored user is valid;
- user ids and normalised e-mails are unique;
- every ledger entry has a token and refers to a registered user;
- every task is valid and has a unique id.

The libraries and the environment are parameters:
- JWT signing and verification, and bcrypt hashing and comparison, are the uninterpreted
  functions of `Crypto.Primitives`;
- the `JWT_SECRET` and `JWT_EXPIRES_IN` variables form `Crypto.Config`;
- the clock is a millisecond count `now`;
- bcrypt's random salt is a parameter;
- the file name the upload middleware chose is an optional parameter.

The guard is a function of the header and the two stores, so by construction it cannot change
them. The task and profile handlers take the requester id that the guard attached.

Behaviours of the code that the model keeps as written:
- The signing secret is read on every call. Without it, `register` has already stored the user
  when `signToken` throws, and answers 500 (`Service.Backend.Register`). The guard answers 500
  to every bearer request (`AuthMiddleware.Authenticate`). Nothing is checked at startup.
- A duplicate e-mail is answered 400 "Email is already registered", not a separate conflict
  status.
- The guard's rejections carry different messages ("Authentication required", "Token is no
  longer valid", "User no longer exists", "Invalid or expired token") and the missing secret is
  a 500. They are not collapsed into one outcome.
- `updateTask` recomputes `completed` only when the body carries a truthy `status`. A body
  with `completed` and no `status` is written through, so a stored task can have
  `completed == true` with status `todo`. `TaskController.CompletedWithoutStatusBreaksDerivation`
  exhibits it, and `TaskController.UpdateKeepsDerivation` states when the derivation survives.
- Schema validation errors carry no status code. The application's error handler answers them
  with 500 (`Http.ValidationFailed`), so an invalid enum value in an update is a 500, not a 400.
- A token's payload is the user id and its issue time in whole seconds. Two sign-ins of the
  same user within one second get the same token string (`AuthController.SameSecondSameToken`).
  If the first was revoked, the lookup keeps finding the revoked entry first. The second
  sign-in then answers a token the guard rejects (`Service.ReissuedTokenRejected`).
  `Service.Backend.Login` states exactly when the new session is live.

## Model

| member | source | states |
|---|---|---|
| AuthMiddleware.Authenticate | backend/src/middleware/auth.js:5-56 | No header or no `Bearer ` prefix gives 401 before anything else; no secret gives 500; a token the library rejects (the empty one among them) gives 401 "Invalid or expired token"; no live entry for (token, decoded id) gives 401; a missing user gives 401; acceptance only when every check passed, with the attached id equal to the token's id and the context built from that stored user |
| AuthMiddleware.ContextOf | backend/src/middleware/auth.js:43-49 | The attached id is the user's id and the entity is the selected profile; the short identity (id, name, email) agrees with that entity |
| Text.BearerToken | backend/src/middleware/auth.js:8-12 | A token exists exactly when the header starts with `Bearer `; it is the text after the scheme up to the first space or the end of the header, as `split(' ')[1]` gives |
| Text.UpToSpace | backend/src/middleware/auth.js:12 | The first field of `split(' ')`: a space-free prefix ending at the first space or at the end |
| Text.BearerTokenRoundTrip | backend/src/middleware/auth.js:8-12 | `Bearer <token>` parses back to the token when the token has no space |
| Crypto.Secret | backend/src/middleware/auth.js:15-17 | The secret is absent exactly when the variable is unset or empty, and is the variable's value otherwise |
| Crypto.ExpiresIn | backend/src/controllers/authController.js:8 | The lifetime is the variable's value when set and non-empty, and "7d" otherwise |
| Crypto.Verify | backend/src/middleware/auth.js:24 | The empty token never verifies |
| Http.UploadPath | backend/src/controllers/taskController.js:28 | Present exactly when a file was uploaded; the path is `/uploads/` followed by the stored file name, which it gives back |
| Service.SessionAuthenticates | backend/src/middleware/auth.js:24-51 | A live token that verifies to a stored user, sent as `Bearer <token>`, is accepted as exactly that user |
| AuthController.SignToken | backend/src/controllers/authController.js:6-15 | Fails with the 500 configuration error exactly when no secret is configured; otherwise signs the id with the configured or default lifetime and the current second |
| AuthController.SameSecondSameToken | backend/src/controllers/authController.js:14 | Tokens signed for one user within the same second are equal |
| AuthController.RegistrationError | backend/src/controllers/authController.js:22-34 | Name, then email, then password: a missing or blank name, a missing or blank email and a password shorter than 6 are each rejected with 400 in that order, and no error exactly when all three pass |
| AuthController.NewAccount | backend/src/controllers/authController.js:20-49 | Input errors first; then 400 "Email is already registered" exactly when a user already holds the normalised email; with a fresh email a refusal is the schema's 500 validation error; an accepted user has the trimmed name, the normalised email, the password's hash, bio "" and avatar null, is valid, and its email differs from every stored one |
| AuthController.NewAccountAccepted | backend/src/controllers/authController.js:36-49 | A user is created exactly when the input checks pass, no stored user has the normalised email, the trimmed name fits 100 characters and the hash is not empty |
| AuthController.CheckCredentials | backend/src/controllers/authController.js:80-98 | Missing or empty email or password gives 400 exactly; success names a user whose email is the normalised input and whose hash the password matches; every other outcome is 401 "Invalid credentials" |
| AuthController.UniformInvalidCredentials | backend/src/controllers/authController.js:90-98 | An unknown email and a wrong password give the identical answer |
| AuthController.FindUniqueEmail | backend/src/models/User.js:13-16 | With unique emails, looking up a stored email finds that very user |
| AuthController.RegisteredUserLogsIn | backend/src/controllers/authController.js:88-98 | Any email whose normalised form is a stored one, with a matching password, logs that user in |
| AuthController.AppendedUserLogsIn | backend/src/controllers/authController.js:88-98 | A user appended with an email no stored user has is found by login under any spelling of its email, and logs in with a matching password |
| AuthController.NewAccountLogsIn | backend/src/controllers/authController.js:36-98 | The account registration creates, once stored, logs in with the registered password under any case or padding of the registered email |
| AuthController.RevokeFor | backend/src/controllers/authController.js:138-147 | The requester's first entry for the token ends revoked; no entry found leaves the ledger as it was; no other user's or token's entry changes, and no later entry for the same pair; a revoked entry is never touched; the ledger only grows |
| AuthController.RevokeForIdempotent | backend/src/controllers/authController.js:144-147 | Logging out twice is logging out once |
| Service.LogoutRevokes | backend/src/controllers/authController.js:144-147 | Once revoked, the token never again lets a request through as the requester, however the ledger grows later |
| Service.LogoutSparesOtherSessions | backend/src/controllers/authController.js:138-147 | Every other live (token, user) pair stays live after a logout |
| Service.ReissuedTokenRejected | backend/src/middleware/auth.js:26-33 | Appending an entry for a revoked (token, user) pair does not make it live again |
| Service.FreshEntryIsLive | backend/src/models/AuthToken.js:18-22 | An unused entry for a pair the ledger has never seen makes that pair live |
| Service.AppendEntryLiveness | backend/src/controllers/authController.js:53-57 | Appending an unused entry keeps every live pair live, and makes the new pair live exactly when the ledger holds no revoked entry for it |
| Service.NoEntryForFreshUser | backend/src/models/AuthToken.js:7-12 | No ledger entry refers to the identifier the store hands out next |
| Text.Trim | backend/src/controllers/authController.js:22 | `trim` returns a string whose ends are not whitespace and which is no longer than its input |
| Text.TrimIdempotent | backend/src/models/User.js:10 | Trimming twice is trimming once |
| Text.TrimEmptyIffBlank | backend/src/controllers/authController.js:22 | `s.trim()` is empty exactly when `s` is whitespace only |
| Text.TrimIgnoresPadding | backend/src/controllers/authController.js:36 | Whitespace added on either side does not change `trim`'s result |
| Text.ToLower | backend/src/controllers/authController.js:36 | Lower-casing keeps the length and maps each character |
| Text.ToLowerIdempotent | backend/src/models/User.js:17 | Lower-casing twice is lower-casing once |
| Text.NormalizeEmail | backend/src/controllers/authController.js:36 | A normalised email has no whitespace at its ends and no capital letter |
| Text.NormalizedIsFixed | backend/src/models/User.js:17-18 | The schema's `lowercase` and `trim` setters leave a normalised email as it is |
| Text.NormalizeEmailIdempotent | backend/src/models/User.js:17-18 | Normalising twice is normalising once |
| Text.NormalizeEmailEmptyIffBlank | backend/src/controllers/authController.js:26-36 | The normalised email is empty exactly when the input was whitespace only |
| Text.NormalizeEmailIgnoresPadding | backend/src/controllers/authController.js:36-38 | Emails differing by surrounding whitespace collide in the uniqueness check |
| Text.NormalizeEmailIgnoresCase | backend/src/controllers/authController.js:36-38 | Emails differing in letter case collide in the uniqueness check |
| Store.FirstIndex | backend/src/controllers/authController.js:38 | `findOne` answers the first matching document in store order, or none exactly when nothing matches |
| UserModel.PassesValidators | backend/src/models/User.js:7-29 | After the `trim` setter, `required` rejects a name or an email that was whitespace only |
| UserModel.ValidUser | backend/src/models/User.js:7-33 | A stored user passes the validators again on its next save, and its name and email are not whitespace only |
| UserModel.CreateUser | backend/src/models/User.js:7-33 | Created exactly when the trimmed name is non-empty and at most 100 characters, the email is not blank and the hash is not empty; the document has the trimmed name, the normalised email, bio "" and avatar null, and is valid; otherwise a validation error |
| UserModel.NewUserValid | backend/src/models/User.js:7-29 | A fresh document with setter-processed fields that passes the validators is valid |
| UserModel.SaveUser | backend/src/controllers/profileController.js:38 | Saved exactly when the validators pass; the update time moves only when a field changed |
| UserModel.FindUserById | backend/src/middleware/auth.js:35-37 | Finds a user with the id, or none exactly when no user has it |
| UserModel.FindUserByEmail | backend/src/controllers/authController.js:38 | Finds a user with the email, or none exactly when no user has it |
| AuthTokenModel.CreateAuthToken | backend/src/models/AuthToken.js:5-27 | Created exactly when the token is non-empty, unused by default, with both times now; otherwise a validation error |
| AuthTokenModel.FindEntry | backend/src/middleware/auth.js:26-29 | The first entry matching both the token and the user, or none exactly when no entry matches both |
| AuthTokenModel.Live | backend/src/middleware/auth.js:26-33 | A live pair has an unused entry and is never also revoked; a pair is live or revoked exactly when some entry records it |
| AuthTokenModel.FindEntryStable | backend/src/controllers/authController.js:138 | While the ledger only grows, a lookup that found an entry keeps finding the same one |
| AuthTokenModel.RevokedStaysRevoked | backend/src/controllers/authController.js:144-147 | A revoked pair stays revoked and never becomes live again |
| AuthTokenModel.LiveSurvivesAppend | backend/src/controllers/authController.js:102-106 | Appending an entry ends no live session |
| TaskModel.ParsePriority | backend/src/models/Task.js:16-20 | Only the three priority names pass, each to the priority it names |
| TaskModel.PriorityRoundTrip | backend/src/models/Task.js:18 | Every priority's name parses back to it |
| TaskModel.ParseStatus | backend/src/models/Task.js:21-25 | Only the four status names pass, each to the status it names |
| TaskModel.StatusRoundTrip | backend/src/models/Task.js:23 | Every status's name parses back to it |
| TaskModel.ParseStatusDone | backend/src/controllers/taskController.js:26 | A status string means done exactly when it is "done" |
| TaskModel.ValidTask | backend/src/models/Task.js:7-15 | A stored task's title is never whitespace only |
| TaskModel.TrimOption | backend/src/models/Task.js:12-15 | The `trim` setter on an optional field: present exactly when the input is, trimmed, and empty exactly when the input was blank |
| TaskModel.CreateTask | backend/src/models/Task.js:5-46 | Created exactly when the title is not blank and priority and status are enum names; trimmed title and description, defaults Medium, todo and false for absent fields, the given image and owner, both times now; the task is valid |
| TaskModel.DefaultsAgree | backend/src/models/Task.js:21-29 | The default status and the default `completed` agree |
| TaskController.CheckTitle | backend/src/controllers/taskController.js:21-23 | Accepted exactly when the title is a string that is not blank; the accepted title is trimmed and non-empty |
| TaskController.ResolvedStatus | backend/src/controllers/taskController.js:25 | `status \|\| 'todo'`: a sent non-empty status as it is, `todo` otherwise; never empty |
| TaskController.NewTask | backend/src/controllers/taskController.js:19-38 | A bad title gives 400; past it every refusal is the schema's 500 validation error, and the task is created exactly when priority and the resolved status are valid; the task is owned by the requester and has the trimmed title, the trimmed description, the sent priority (Medium when none), the sent status (todo when none or empty), `completed` true exactly when that status is "done", the upload path or null, and both times now |
| TaskController.CreateIgnoresCompletedAndOwner | backend/src/controllers/taskController.js:30-38 | The body's `completed` and `owner` have no effect on creation |
| TaskController.Truthy | backend/src/controllers/taskController.js:61 | Among optional strings, exactly a missing value and the empty string are falsy |
| TaskController.DeriveCompleted | backend/src/controllers/taskController.js:61-63 | A truthy status sets `completed` to whether it is "done", and nothing else changes; without one the updates are unchanged |
| TaskController.StripOwner | backend/src/controllers/taskController.js:65 | The updates lose their owner and nothing else |
| TaskController.CastUpdate | backend/src/controllers/taskController.js:67-74 | The update validators: accepted exactly when a sent title is not blank and sent priority and status are enum names; the patch carries the trimmed, parsed fields |
| TaskController.PrepareUpdate | backend/src/controllers/taskController.js:55-74 | Accepted exactly when a sent title is not blank and a sent priority and status are enum names; the patch never carries an owner; with a status, `completed` matches it; without one, the body's `completed` goes through |
| TaskController.ApplyPatch | backend/src/controllers/taskController.js:67-74 | Each of title, description, priority, status, completed, image and owner is replaced when the patch sets it and kept otherwise; the id and creation time are kept; the update time is now |
| TaskController.UpdateKeepsOwner | backend/src/controllers/taskController.js:65 | No update changes a task's owner |
| TaskController.UpdateKeepsTaskValid | backend/src/controllers/taskController.js:70-73 | An accepted update keeps a valid task valid |
| TaskController.UpdateWithStatusDerivesCompleted | backend/src/controllers/taskController.js:61-63 | An update naming a status leaves `completed` agreeing with it |
| TaskController.UpdateKeepsDerivation | backend/src/controllers/taskController.js:61-63 | The derivation survives an update that names a status or omits `completed` |
| TaskController.CompletedWithoutStatusBreaksDerivation | backend/src/controllers/taskController.js:61-63 | `{ completed: true }` on a todo task is accepted and breaks the derivation |
| TaskController.AnyStatusReachable | backend/src/controllers/taskController.js:61-63 | One update takes any task to any status, with the matching `completed` |
| TaskController.FindOwnedTask | backend/src/controllers/taskController.js:67-68 | Finds a task with both the id and the owner, or none exactly when no task has both |
| TaskController.OwnedBy | backend/src/controllers/taskController.js:6 | Exactly the tasks whose owner is the requester |
| TaskController.InsertNewestFirst | backend/src/controllers/taskController.js:7 | Inserting into a newest-first sequence keeps it newest first and adds exactly the task |
| TaskController.HeadNotOlder | backend/src/controllers/taskController.js:7 | A task not older than every element stays first in any newest-first arrangement of them |
| TaskController.SortNewestFirst | backend/src/controllers/taskController.js:7 | The result is newest first and a permutation of the input |
| TaskController.ListTasks | backend/src/controllers/taskController.js:6-8 | Exactly the requester's tasks, each as often as stored, newest first |
| ProfileController.GetProfileAnswersRequester | backend/src/controllers/profileController.js:4-13 | `ProfileController.GetProfile`, the handler itself, behind the guard: the answer is 200 with the id, name, email, bio, avatar and creation time of the stored user the token names |
| ProfileController.EditProfile | backend/src/controllers/profileController.js:26-36 | A sent name or bio replaces the stored one, trimmed; an unsent one is kept; the avatar changes only with an upload; id, email, hash and times are kept |
| ProfileController.SavedEditIsValid | backend/src/controllers/profileController.js:26-38 | A saved edit of a valid user is valid |
| ProfileController.EmptyEditChangesNothing | backend/src/controllers/profileController.js:21-38 | An edit sending nothing saves the user unchanged |
| Service.Backend.StoreUser | backend/src/controllers/authController.js:45-49 | Appends a valid user with a fresh id and an unused email, keeping the invariant and the other stores |
| Service.Backend.StoreEntry | backend/src/controllers/authController.js:53-57 | Appends a ledger entry for a registered user under a fresh id, keeping the invariant and the other stores |
| Service.Backend.StoreTask | backend/src/controllers/taskController.js:30-38 | Appends a valid task under a fresh id, keeping the invariant and the other stores |
| Service.Backend.ReplaceUser | backend/src/controllers/profileController.js:38 | Replaces one user by a valid one with the same id and email, keeping the invariant |
| Service.Backend.ReplaceTask | backend/src/controllers/taskController.js:67-74 | Replaces one task by a valid one with the same id, keeping the invariant |
| Service.Backend.RemoveTask | backend/src/controllers/taskController.js:100-103 | Removes one task, keeping the invariant |
| Service.Backend.IssueSession | backend/src/controllers/authController.js:51-57 | Without a secret, the 500 error and no entry; succeeds exactly when a non-empty token is signed, appending exactly one new unused entry for it and the user; no live session ends; the new one is live exactly when its pair was not already revoked |
| Service.Backend.Register | backend/src/controllers/authController.js:18-75 | A refused account changes nothing; an accepted account is stored even when no token can be signed; success is 201 with a token recorded live for the new user and one entry appended; an accepted account with a secret that signs a non-empty token always succeeds; no earlier session ends |
| Service.Backend.Login | backend/src/controllers/authController.js:78-124 | Credential errors and a missing secret change nothing; success is 200 for the user the credentials name, with exactly one new unused entry; matching credentials with a secret that signs a non-empty token always succeed; no earlier session ends |
| Service.Backend.Logout | backend/src/controllers/authController.js:127-159 | No bearer token gives 400 and changes nothing; otherwise 200 and the ledger becomes `RevokeFor` of the old one; users and tasks are untouched |
| Service.Backend.GetTasks | backend/src/controllers/taskController.js:4-14 | 200 with exactly the requester's tasks, each as often as stored, newest first |
| Service.Backend.CreateTask | backend/src/controllers/taskController.js:17-49 | Refusals change nothing; otherwise 201 and exactly the built task is appended; no other owner's tasks change |
| Service.Backend.UpdateTask | backend/src/controllers/taskController.js:52-89 | No id gives 400, a rejected update 500, no owned task 404, each changing nothing; success replaces exactly the requester's task by the patched one and answers it; a valid update of an owned task always succeeds, and one naming a status answers a task whose `completed` agrees with it; other owners' tasks never change |
| Service.Backend.DeleteTask | backend/src/controllers/taskController.js:92-118 | No id gives 400, no owned task 404, each changing nothing; success removes exactly that task, leaves no task with the id and keeps every other task and every other owner's listing |
| Service.Backend.UpdateProfile | backend/src/controllers/profileController.js:21-56 | The requester's user becomes the saved edit and is answered as its public fields; a failed save changes nothing; the ledger and tasks are untouched |
| Service.RemoveKeepsOthers | backend/src/controllers/taskController.js:100-103 | Removing the task with an id keeps every other task and leaves none with that id |
| Service.OwnedByUnaffected | backend/src/controllers/taskController.js:67-68 | Changing another owner's task leaves an owner's listing unchanged |
| Service.OwnedByAfterRemove | backend/src/controllers/taskController.js:100-103 | Removing another owner's task leaves an owner's listing unchanged |
| Service.OwnedByAfterAppend | backend/src/controllers/taskController.js:30-38 | Adding another owner's task leaves an owner's listing unchanged |
| Service.OthersUnaffectedByUpdate | backend/src/controllers/taskController.js:67-68 | An update by the requester leaves every other owner's listing unchanged |
| Service.OthersUnaffectedByRemove | backend/src/controllers/taskController.js:100-103 | A delete by the requester leaves every other owner's listing unchanged |
| Service.OthersUnaffectedByAppend | backend/src/controllers/taskController.js:30-38 | A create by the requester leaves every other owner's listing unchanged |
| Service.AppendUserKeepsUsersValid | backend/src/models/User.js:13-16 | A valid user with a fresh id and an unused email keeps ids and emails unique |
| Service.AppendEntryKeepsLedgerValid | backend/src/models/AuthToken.js:7-17 | An entry with a token, a registered user and a fresh id keeps the ledger valid |
| Service.RevokeKeepsLedgerValid | backend/src/controllers/authController.js:144-146 | Flipping an entry to used keeps the ledger valid |

## Left out

- HTTP transport is not part of this model: routing (`app.js`, the route files), CORS, the 404 handler, JSON parsing and serving uploaded files. Responses are typed outcomes: a status with a payload, or a status with a message.
- `authRoutes.js` is not part of this model. `Service.Backend.Logout` takes the requester id the guard attached, as the handler reads `req.user.id`.
- The upload middleware (multer storage, the image-type filter, the size limit and generated file names) is left out. The stored file name is a parameter, and the avatar and image paths are `/uploads/<name>`.
- The cryptographic libraries are not modelled. JWT signing, verification and expiry, and bcrypt hashing and comparison, are uninterpreted functions; the clock and the salt are parameters.
- Store failures, ObjectId cast errors of malformed ids, concurrent requests and the race between the uniqueness lookup and `User.create` are left out. Each handler runs atomically on in-memory sequences, and ids come from one counter.
- Console logging is not modelled.
- Store.FirstIndex: takes a collection's natural order to be insertion order. MongoDB does not guarantee any natural order for `findOne` without a sort. The facts that depend on which match comes first (`Service.ReissuedTokenRejected`, and the liveness stated by `Service.Backend.Login` and `AuthController.RevokeFor` when a (token, user) pair is recorded twice) rest on this assumption.
- Text.ToLower: lower-cases the ASCII letters only; JavaScript's `toLowerCase` also maps other Unicode letters. String lengths count code points, not UTF-16 units.
- Http.ValidationFailed: the message is "<Model> validation failed", not Mongoose's full text listing each failing path.
- AuthController.RegistrationError, AuthController.CheckCredentials, ProfileController.EditProfile and TaskController.UpdateBody take request bodies whose fields are strings (a boolean for `completed`) or absent. Other JSON values are not modelled: a numeric password that passes the length check and then makes `bcrypt.hash` throw (500), a null or non-string name or bio that makes `trim` throw (500), or a `completed` value the document store casts to a boolean.
- TaskController.CreateBody: of the non-string JSON values, only a non-string title is modelled (it gives 400). Description, priority and status are strings or absent; casting other JSON types is left out.
- TaskController.UpdateBody: an update can set a field but never clear it to null. Updates of other paths (`_id`, `createdAt`, unknown keys) are not modelled. `owner` is carried only to show that it is stripped.
- Service.Backend.UpdateProfile: requires that the guard's user exists in the store, as the guard has just loaded it. The handler writes to the loaded document; a user deleted between the two steps is not modelled.
- `getProfile`'s error path (a `try` around a projection that cannot throw) is not modelled.
