/** The backend as one sequential state machine: the user store, the token ledger and the task
    store are fields of one object, and each request handler that writes them is a method. */
module Service {
  import opened Wrappers
  import opened Text
  import opened Store
  import opened Http
  import opened Crypto
  import opened UserModel
  import opened TaskModel
  import opened AuthTokenModel
  import opened AuthMiddleware
  import opened AuthController
  import opened TaskController
  import opened ProfileController

  /** Every user is valid, and ids and normalised emails are unique. */
  ghost predicate UsersValid(users: seq<User>, nextId: nat) {
    && (forall i :: 0 <= i < |users| ==> ValidUser(users[i]) && users[i].id < nextId)
    && (forall i, j :: 0 <= i < j < |users| ==> users[i].id != users[j].id && users[i].email != users[j].email)
  }

  /** Every ledger entry holds a token string and refers to a registered user. */
  ghost predicate LedgerValid(ledger: seq<AuthToken>, users: seq<User>, nextId: nat) {
    && (forall k :: 0 <= k < |ledger| ==> ledger[k].token != "" && ledger[k].id < nextId && FindUserById(users, ledger[k].user).Some?)
    && (forall i, j :: 0 <= i < j < |ledger| ==> ledger[i].id != ledger[j].id)
  }

  /** Every task is valid and task ids are unique. */
  ghost predicate TasksValid(tasks: seq<Task>, nextId: nat) {
    && (forall i :: 0 <= i < |tasks| ==> ValidTask(tasks[i]) && tasks[i].id < nextId)
    && (forall i, j :: 0 <= i < j < |tasks| ==> tasks[i].id != tasks[j].id)
  }

  class Backend {
    var users: seq<User>
    var ledger: seq<AuthToken>
    var tasks: seq<Task>
    /** The next identifier the store hands out. */
    var nextId: ObjectId
    const config: Config
    const primitives: Primitives

    ghost predicate Valid()
      reads this
    {
      UsersValid(users, nextId) && LedgerValid(ledger, users, nextId) && TasksValid(tasks, nextId)
    }

    constructor (config: Config, primitives: Primitives)
      ensures Valid()
      ensures users == [] && ledger == [] && tasks == []
      ensures this.config == config && this.primitives == primitives
    {
      users, ledger, tasks, nextId := [], [], [], 0;
      this.config, this.primitives := config, primitives;
    }

    /** Inserts a new user document under the next identifier. */
    method StoreUser(u: User)
      requires Valid() && ValidUser(u) && u.id == nextId
      requires forall j :: 0 <= j < |users| ==> users[j].email != u.email
      modifies this
      ensures Valid()
      ensures users == old(users) + [u] && nextId == old(nextId) + 1
      ensures ledger == old(ledger) && tasks == old(tasks)
    {
      AppendUserKeepsUsersValid(users, u, nextId);
      AppendUserKeepsLedgerValid(ledger, users, u, nextId);
      TasksValidLater(tasks, nextId);
      users := users + [u];
      nextId := nextId + 1;
    }

    /** Inserts a new ledger entry under the next identifier. */
    method StoreEntry(e: AuthToken)
      requires Valid() && e.token != "" && e.id == nextId && FindUserById(users, e.user).Some?
      modifies this
      ensures Valid()
      ensures ledger == old(ledger) + [e] && nextId == old(nextId) + 1
      ensures users == old(users) && tasks == old(tasks)
    {
      AppendEntryKeepsLedgerValid(ledger, users, e, nextId);
      UsersValidLater(users, nextId);
      TasksValidLater(tasks, nextId);
      ledger := ledger + [e];
      nextId := nextId + 1;
    }

    /** Inserts a new task under the next identifier. */
    method StoreTask(t: Task)
      requires Valid() && ValidTask(t) && t.id == nextId
      modifies this
      ensures Valid()
      ensures tasks == old(tasks) + [t] && nextId == old(nextId) + 1
      ensures users == old(users) && ledger == old(ledger)
    {
      AppendTaskKeepsTasksValid(tasks, t, nextId);
      AppendIdKeepsLedgerValid(ledger, users, nextId);
      UsersValidLater(users, nextId);
      tasks := tasks + [t];
      nextId := nextId + 1;
    }

    /** Saves a changed user document in place. */
    method ReplaceUser(i: nat, u: User)
      requires Valid() && i < |users| && ValidUser(u) && u.id == users[i].id && u.email == users[i].email
      modifies this
      ensures Valid()
      ensures users == old(users)[i := u]
      ensures ledger == old(ledger) && tasks == old(tasks) && nextId == old(nextId)
    {
      ReplaceUserKeepsUsersValid(users, i, u, nextId);
      SameKeysKeepLedgerValid(ledger, users, users[i := u], nextId, i);
      users := users[i := u];
    }

    /** Saves a changed task document in place (`findOneAndUpdate`). */
    method ReplaceTask(k: nat, t: Task)
      requires Valid() && k < |tasks| && ValidTask(t) && t.id == tasks[k].id
      modifies this
      ensures Valid()
      ensures tasks == old(tasks)[k := t]
      ensures users == old(users) && ledger == old(ledger) && nextId == old(nextId)
    {
      ReplaceTaskKeepsTasksValid(tasks, k, t, nextId);
      tasks := tasks[k := t];
    }

    /** Deletes a task document (`findOneAndDelete`). */
    method RemoveTask(k: nat)
      requires Valid() && k < |tasks|
      modifies this
      ensures Valid()
      ensures tasks == old(tasks)[..k] + old(tasks)[k + 1..]
      ensures users == old(users) && ledger == old(ledger) && nextId == old(nextId)
    {
      RemoveKeepsTasksValid(tasks, k, nextId);
      tasks := tasks[..k] + tasks[k + 1..];
    }

    /** Signs a token for a stored user and records it in the ledger, as `register` and
        `login` both do after the user is known. */
    method IssueSession(user: User, now: nat) returns (r: Result<Session, Failure>)
      requires Valid() && FindUserById(users, user.id).Some?
      modifies this
      ensures Valid()
      ensures users == old(users) && tasks == old(tasks) && LedgerGrows(old(ledger), ledger)
      ensures SignToken(config, primitives, user.id, now).Err? ==> r == Err(SecretMissing) && ledger == old(ledger)
      ensures SignToken(config, primitives, user.id, now) == Ok("") ==>
                r == Err(ValidationFailed("AuthToken")) && ledger == old(ledger)
      ensures r.Ok? <==> SignToken(config, primitives, user.id, now).Ok? && SignToken(config, primitives, user.id, now) != Ok("")
      ensures r.Ok? ==>
                && r.value == Session(SignToken(config, primitives, user.id, now).value, SummaryOf(user))
                && ledger == old(ledger) + [AuthToken(old(nextId), user.id, r.value.token, false, now, now)]
      // Every session that was live stays live; the new one is live unless the ledger already
      // holds a revoked entry for the same token string and user.
      ensures forall t, u :: Live(old(ledger), t, u) ==> Live(ledger, t, u)
      ensures r.Ok? ==> (Live(ledger, r.value.token, user.id) <==> !Revoked(old(ledger), r.value.token, user.id))
    {
      var token := SignToken(config, primitives, user.id, now);
      if token.Err? {
        return Err(token.error);
      }
      var entry := CreateAuthToken(nextId, user.id, token.value, None, now);
      if entry.Err? {
        return Err(entry.error);
      }
      AppendEntryLiveness(ledger, entry.value);
      StoreEntry(entry.value);
      r := Ok(Session(token.value, SummaryOf(user)));
    }

    /** `register`: the checks and the user document of `NewAccount`, then the user is stored,
        then a token is signed and recorded. A failure after the user is stored leaves it stored. */
    method Register(name: Option<string>, email: Option<string>, password: Option<string>, salt: nat, now: nat)
      returns (r: Response<Session>)
      requires Valid()
      modifies this
      ensures Valid()
      ensures tasks == old(tasks) && LedgerGrows(old(ledger), ledger)
      // Refused accounts change nothing.
      ensures NewAccount(old(users), old(nextId), name, email, password, primitives, salt, now).Err? ==>
                && r == Error(NewAccount(old(users), old(nextId), name, email, password, primitives, salt, now).error)
                && users == old(users) && ledger == old(ledger)
      // An accepted account is stored whatever happens next ...
      ensures NewAccount(old(users), old(nextId), name, email, password, primitives, salt, now).Ok? ==>
                users == old(users) + [NewAccount(old(users), old(nextId), name, email, password, primitives, salt, now).value]
      // ... but without a secret no token is issued.
      ensures NewAccount(old(users), old(nextId), name, email, password, primitives, salt, now).Ok? && Secret(config).None? ==>
                r == Error(SecretMissing) && ledger == old(ledger)
      // Success: the answered token is recorded, unused, for the new user.
      ensures r.Success? ==>
                && r.status == 201 && |users| == |old(users)| + 1
                && r.value == Session(SignToken(config, primitives, old(nextId), now).value, SummaryOf(users[|old(users)|]))
                && ledger == old(ledger) + [AuthToken(old(nextId) + 1, old(nextId), r.value.token, false, now, now)]
      // The new session passes the guard's ledger check, and no earlier session is ended.
      ensures r.Success? ==> Live(ledger, r.value.token, old(nextId))
      ensures forall t, u :: Live(old(ledger), t, u) ==> Live(ledger, t, u)
      // An accepted account with a secret that signs a non-empty token is registered.
      ensures (&& NewAccount(old(users), old(nextId), name, email, password, primitives, salt, now).Ok?
               && SignToken(config, primitives, old(nextId), now).Ok?
               && SignToken(config, primitives, old(nextId), now).value != "")
              ==> r.Success?
    {
      var account := NewAccount(users, nextId, name, email, password, primitives, salt, now);
      if account.Err? {
        return Error(account.error);
      }
      var user := account.value;
      ghost var users0, ledger0 := users, ledger;
      StoreUser(user);
      assert users[|users| - 1] == user;
      var session := IssueSession(user, now);
      if session.Err? {
        return Error(session.error);
      }
      NoEntryForFreshUser(ledger0, users0, user.id, session.value.token);
      r := Success(201, session.value);
    }

    /** `login`: the credential checks, then a fresh token recorded for the user found. */
    method Login(email: Option<string>, password: Option<string>, now: nat) returns (r: Response<Session>)
      requires Valid()
      modifies this
      ensures Valid()
      ensures users == old(users) && tasks == old(tasks) && LedgerGrows(old(ledger), ledger)
      ensures CheckCredentials(users, email, password, primitives).Err? ==>
                r == Error(CheckCredentials(users, email, password, primitives).error) && ledger == old(ledger)
      ensures CheckCredentials(users, email, password, primitives).Ok? && Secret(config).None? ==>
                r == Error(SecretMissing) && ledger == old(ledger)
      // Success: the user the credentials name, and one new unused entry for the answered token.
      ensures r.Success? ==>
                && r.status == 200 && CheckCredentials(users, email, password, primitives).Ok?
                && var u := users[CheckCredentials(users, email, password, primitives).value];
                && r.value == Session(SignToken(config, primitives, u.id, now).value, SummaryOf(u))
                && ledger == old(ledger) + [AuthToken(old(nextId), u.id, r.value.token, false, now, now)]
      // The new session passes the guard's ledger check unless the same token string was
      // already revoked for this user; no earlier session is ended.
      ensures r.Success? ==>
                var u := users[CheckCredentials(users, email, password, primitives).value];
                Live(ledger, r.value.token, u.id) <==> !Revoked(old(ledger), r.value.token, u.id)
      ensures forall t, u :: Live(old(ledger), t, u) ==> Live(ledger, t, u)
      // Matching credentials with a secret that signs a non-empty token log the user in.
      ensures CheckCredentials(users, email, password, primitives).Ok? ==>
                var id := users[CheckCredentials(users, email, password, primitives).value].id;
                SignToken(config, primitives, id, now).Ok? && SignToken(config, primitives, id, now).value != ""
                ==> r.Success?
    {
      var found := CheckCredentials(users, email, password, primitives);
      if found.Err? {
        return Error(found.error);
      }
      var user := users[found.value];
      assert FindUserById(users, user.id).Some?;
      var session := IssueSession(user, now);
      if session.Err? {
        return Error(session.error);
      }
      r := Success(200, session.value);
    }

    /** `logout` for the requester the guard attached: the bearer token of the header is looked
        up among the requester's entries, and a live entry is flipped to used and saved. */
    method Logout(header: Option<string>, requester: ObjectId, now: nat) returns (r: Response<string>)
      requires Valid()
      modifies this
      ensures Valid()
      ensures users == old(users) && tasks == old(tasks) && nextId == old(nextId)
      ensures BearerToken(header) in {None, Some("")} ==> r == Error(NoTokenProvided) && ledger == old(ledger)
      ensures BearerToken(header) !in {None, Some("")} ==>
                r == Success(200, LoggedOut) && ledger == RevokeFor(old(ledger), BearerToken(header).value, requester, now)
    {
      var token := BearerToken(header);
      if token.None? || token.value == "" {
        return Error(NoTokenProvided);
      }
      var record := FindEntry(ledger, token.value, requester);
      if record.Some? && !ledger[record.value].isUsed {
        var k := record.value;
        RevokeKeepsLedgerValid(ledger, users, nextId, k, now);
        ledger := ledger[k := ledger[k].(isUsed := true, updatedAt := now)];
      }
      r := Success(200, LoggedOut);
    }

    /** `getTasks`: the requester's tasks, newest first. */
    function GetTasks(requester: ObjectId): (r: Response<seq<Task>>)
      reads this
      ensures r.Success? && r.status == 200
      ensures forall t :: t in r.value <==> t in tasks && t.owner == requester
      ensures NewestFirst(r.value)
      ensures multiset(r.value) == multiset(OwnedBy(tasks, requester))
    {
      Success(200, ListTasks(tasks, requester))
    }

    /** `createTask` for the requester: the task `NewTask` builds, stored under the next id. */
    method CreateTask(requester: ObjectId, body: CreateBody, filename: Option<string>, now: nat)
      returns (r: Response<Task>)
      requires Valid()
      modifies this
      ensures Valid()
      ensures users == old(users) && ledger == old(ledger)
      ensures NewTask(requester, body, filename, old(nextId), now).Err? ==>
                r == Error(NewTask(requester, body, filename, old(nextId), now).error) && tasks == old(tasks)
      ensures NewTask(requester, body, filename, old(nextId), now).Ok? ==>
                && r == Success(201, NewTask(requester, body, filename, old(nextId), now).value)
                && tasks == old(tasks) + [r.value]
      ensures forall o :: o != requester ==> OwnedBy(tasks, o) == OwnedBy(old(tasks), o)
    {
      var task := NewTask(requester, body, filename, nextId, now);
      if task.Err? {
        return Error(task.error);
      }
      OthersUnaffectedByAppend(tasks, task.value, requester);
      StoreTask(task.value);
      r := Success(201, task.value);
    }

    /** `updateTask` for the requester: the `updates` object is built from the body step by
        step, cast and validated, and applied to the requester's task with this id. */
    method UpdateTask(requester: ObjectId, id: Option<ObjectId>, body: UpdateBody, now: nat)
      returns (r: Response<Task>)
      requires Valid()
      modifies this
      ensures Valid()
      ensures users == old(users) && ledger == old(ledger) && nextId == old(nextId)
      ensures id.None? ==> r == Error(TaskIdRequired) && tasks == old(tasks)
      ensures id.Some? && PrepareUpdate(body).Err? ==> r == Error(ValidationFailed("Task")) && tasks == old(tasks)
      ensures id.Some? && PrepareUpdate(body).Ok? && FindOwnedTask(old(tasks), id.value, requester).None? ==>
                r == Error(TaskNotFound) && tasks == old(tasks)
      ensures r.Success? ==>
                && id.Some? && PrepareUpdate(body).Ok? && FindOwnedTask(old(tasks), id.value, requester).Some?
                && var k := FindOwnedTask(old(tasks), id.value, requester).value;
                && tasks == old(tasks)[k := ApplyPatch(old(tasks)[k], PrepareUpdate(body).value, now)]
                && r == Success(200, tasks[k])
      // Tasks of other owners are never touched.
      ensures |tasks| == |old(tasks)|
      ensures forall j :: 0 <= j < |tasks| && old(tasks)[j].owner != requester ==> tasks[j] == old(tasks)[j]
      ensures forall o :: o != requester ==> OwnedBy(tasks, o) == OwnedBy(old(tasks), o)
      // A valid update of one of the requester's tasks succeeds, and a status in it leaves
      // the stored `completed` agreeing with that status.
      ensures id.Some? && PrepareUpdate(body).Ok? && FindOwnedTask(old(tasks), id.value, requester).Some? ==> r.Success?
      ensures r.Success? && Truthy(body.status) ==> CompletedMatchesStatus(r.value)
    {
      var updates := body;
      if id.None? {
        return Error(TaskIdRequired);
      }
      if Truthy(updates.status) {
        updates := updates.(completed := Some(updates.status.value == "done"));
      }
      updates := updates.(owner := None);
      assert updates == StripOwner(DeriveCompleted(body));
      var patch := CastUpdate(updates);
      if patch.Err? {
        return Error(patch.error);
      }
      var found := FindOwnedTask(tasks, id.value, requester);
      if found.None? {
        return Error(TaskNotFound);
      }
      var k := found.value;
      UpdateKeepsTaskValid(tasks[k], body, now);
      UpdateKeepsOwner(tasks[k], body, now);
      if Truthy(body.status) {
        UpdateWithStatusDerivesCompleted(tasks[k], body, now);
      }
      var updated := ApplyPatch(tasks[k], patch.value, now);
      OthersUnaffectedByUpdate(tasks, k, updated, requester);
      ReplaceTask(k, updated);
      r := Success(200, updated);
    }

    /** `deleteTask` for the requester: the requester's task with this id is removed. */
    method DeleteTask(requester: ObjectId, id: Option<ObjectId>) returns (r: Response<string>)
      requires Valid()
      modifies this
      ensures Valid()
      ensures users == old(users) && ledger == old(ledger) && nextId == old(nextId)
      ensures id.None? ==> r == Error(TaskIdRequired) && tasks == old(tasks)
      ensures id.Some? && FindOwnedTask(old(tasks), id.value, requester).None? ==>
                r == Error(TaskNotFound) && tasks == old(tasks)
      ensures id.Some? && FindOwnedTask(old(tasks), id.value, requester).Some? ==>
                && r == Success(200, TaskDeleted)
                && var k := FindOwnedTask(old(tasks), id.value, requester).value;
                && tasks == old(tasks)[..k] + old(tasks)[k + 1..]
      // After a successful delete no task has that id; every other task is still stored.
      ensures r.Success? ==> forall t :: t in tasks ==> t.id != id.value
      ensures forall t :: t in old(tasks) && (id.None? || t.id != id.value) ==> t in tasks
      ensures forall o :: o != requester ==> OwnedBy(tasks, o) == OwnedBy(old(tasks), o)
    {
      if id.None? {
        return Error(TaskIdRequired);
      }
      var found := FindOwnedTask(tasks, id.value, requester);
      if found.None? {
        return Error(TaskNotFound);
      }
      var k := found.value;
      RemoveKeepsOthers(tasks, k, id.value);
      OthersUnaffectedByRemove(tasks, k, requester);
      RemoveTask(k);
      r := Success(200, TaskDeleted);
    }

    /** `updateProfile` on the user the guard loaded: name, bio and avatar are assigned one by
        one on the loaded user, which is then saved and answered as its public fields. */
    method UpdateProfile(requester: ObjectId, name: Option<string>, bio: Option<string>,
                         filename: Option<string>, now: nat) returns (r: Response<Profile>)
      requires Valid() && FindUserById(users, requester).Some?
      modifies this
      ensures Valid()
      ensures ledger == old(ledger) && tasks == old(tasks) && nextId == old(nextId)
      ensures var i := FindUserById(old(users), requester).value;
              var saved := SaveUser(old(users)[i], EditProfile(old(users)[i], name, bio, filename), now);
              && (saved.Err? ==> r == Error(saved.error) && users == old(users))
              && (saved.Ok? ==> users == old(users)[i := saved.value] && r == Success(200, ProfileOf(saved.value)))
    {
      var i := FindUserById(users, requester).value;
      var user := users[i];
      if name.Some? {
        user := user.(name := Trim(name.value));
      }
      if bio.Some? {
        user := user.(bio := Trim(bio.value));
      }
      if filename.Some? {
        user := user.(avatarUrl := UploadPath(filename));
      }
      assert user == EditProfile(users[i], name, bio, filename);
      var saved := SaveUser(users[i], user, now);
      if saved.Err? {
        return Error(saved.error);
      }
      SavedEditIsValid(users[i], name, bio, filename, now);
      ReplaceUser(i, saved.value);
      r := Success(200, ProfileOf(saved.value));
    }
  }

  /** A user appended to the store keeps every ledger entry's user registered. */
  lemma AppendUserKeepsLedgerValid(ledger: seq<AuthToken>, users: seq<User>, u: User, nextId: nat)
    requires LedgerValid(ledger, users, nextId)
    ensures LedgerValid(ledger, users + [u], nextId + 1)
  {
    forall k | 0 <= k < |ledger| ensures FindUserById(users + [u], ledger[k].user).Some? {
      var i :| 0 <= i < |users| && users[i].id == ledger[k].user;
      assert (users + [u])[i] == users[i];
    }
  }

  /** Removing the task at `k` keeps every task with another id, and with unique ids leaves
      none with the id of the removed one. */
  lemma RemoveKeepsOthers(tasks: seq<Task>, k: nat, id: ObjectId)
    requires k < |tasks| && tasks[k].id == id
    requires forall i, j :: 0 <= i < j < |tasks| ==> tasks[i].id != tasks[j].id
    ensures forall t :: t in tasks && t.id != id ==> t in tasks[..k] + tasks[k + 1..]
    ensures forall t :: t in tasks[..k] + tasks[k + 1..] ==> t.id != id
  {
    var rest := tasks[..k] + tasks[k + 1..];
    forall t | t in tasks && t.id != id ensures t in rest {
      var j :| 0 <= j < |tasks| && tasks[j] == t;
      if j < k { assert rest[j] == t; } else { assert j != k; assert rest[j - 1] == t; }
    }
    forall t | t in rest ensures t.id != id {
      var j :| 0 <= j < |rest| && rest[j] == t;
      if j < k { assert t == tasks[j]; } else { assert t == tasks[j + 1]; }
    }
  }

  /** Replacing a user by one with the same id keeps every ledger entry's user registered. */
  lemma SameKeysKeepLedgerValid(ledger: seq<AuthToken>, users: seq<User>, users': seq<User>, nextId: nat, i: nat)
    requires LedgerValid(ledger, users, nextId)
    requires i < |users| && |users'| == |users| && users'[i].id == users[i].id
    requires forall j :: 0 <= j < |users| && j != i ==> users'[j] == users[j]
    ensures LedgerValid(ledger, users', nextId)
  {
    forall k | 0 <= k < |ledger| ensures FindUserById(users', ledger[k].user).Some? {
      var j :| 0 <= j < |users| && users[j].id == ledger[k].user;
      assert users'[j].id == users[j].id;
    }
  }

  lemma AppendTaskKeepsTasksValid(tasks: seq<Task>, t: Task, nextId: nat)
    requires TasksValid(tasks, nextId) && ValidTask(t) && t.id == nextId
    ensures TasksValid(tasks + [t], nextId + 1)
  {
  }

  lemma AppendIdKeepsLedgerValid(ledger: seq<AuthToken>, users: seq<User>, nextId: nat)
    requires LedgerValid(ledger, users, nextId)
    ensures LedgerValid(ledger, users, nextId + 1)
  {
  }

  /** Replacing a valid user by a valid one with the same id and email keeps the store valid. */
  lemma ReplaceUserKeepsUsersValid(users: seq<User>, i: nat, u: User, nextId: nat)
    requires UsersValid(users, nextId) && i < |users|
    requires ValidUser(u) && u.id == users[i].id && u.email == users[i].email
    ensures UsersValid(users[i := u], nextId)
  {
  }

  /** A new unused entry for a pair the ledger has never seen makes that pair live. */
  lemma FreshEntryIsLive(ledger: seq<AuthToken>, e: AuthToken)
    requires !e.isUsed && FindEntry(ledger, e.token, e.user).None?
    ensures Live(ledger + [e], e.token, e.user)
  {
    assert (ledger + [e])[|ledger|] == e;
  }

  /** A new entry cannot revive a revoked token: when a token string comes back (the same user
      signed in again within the same second gets the same token), the lookup still finds the
      revoked entry first and the guard keeps rejecting it. */
  lemma ReissuedTokenRejected(ledger: seq<AuthToken>, e: AuthToken)
    requires Revoked(ledger, e.token, e.user)
    ensures !Live(ledger + [e], e.token, e.user)
  {
    RevokedStaysRevoked(ledger, ledger + [e], e.token, e.user);
  }

  /** A session is accepted by the guard: sent as `Bearer <token>`, a token that verifies to a
      stored user and is live for that user lets the request through as that user. */
  lemma {:induction false} SessionAuthenticates(users: seq<User>, ledger: seq<AuthToken>, i: nat, token: string,
                                                config: Config, primitives: Primitives, now: nat)
    requires i < |users| && forall a, b :: 0 <= a < b < |users| ==> users[a].id != users[b].id
    requires ' ' !in token && Secret(config).Some?
    requires Verify(primitives, token, Secret(config).value, now) == Some(users[i].id)
    requires Live(ledger, token, users[i].id)
    ensures Authenticate(Some(BearerScheme + token), config, primitives, now, users, ledger) == Ok(ContextOf(users[i]))
  {
    BearerTokenRoundTrip(token);
    var k := FindUserById(users, users[i].id);
    assert k.Some?;
  }

  /** After `logout` has revoked the requester's entry for a token, however the ledger grows
      afterwards, no request carrying that token is accepted as the requester. */
  lemma LogoutRevokes(ledger: seq<AuthToken>, token: string, requester: ObjectId, now: nat,
                      later: seq<AuthToken>, header: Option<string>, config: Config, primitives: Primitives,
                      now2: nat, users: seq<User>)
    requires FindEntry(ledger, token, requester).Some?
    requires LedgerGrows(RevokeFor(ledger, token, requester, now), later)
    requires BearerToken(header) == Some(token)
    ensures Authenticate(header, config, primitives, now2, users, later).Ok? ==>
              Authenticate(header, config, primitives, now2, users, later).value.id != requester
  {
    RevokedStaysRevoked(RevokeFor(ledger, token, requester, now), later, token, requester);
  }

  /** `logout` ends only the session it names: every other live (token, user) pair stays live. */
  lemma LogoutSparesOtherSessions(ledger: seq<AuthToken>, token: string, requester: ObjectId, now: nat,
                                  otherToken: string, otherUser: ObjectId)
    requires Live(ledger, otherToken, otherUser)
    requires otherToken != token || otherUser != requester
    ensures Live(RevokeFor(ledger, token, requester, now), otherToken, otherUser)
  {
    var after := RevokeFor(ledger, token, requester, now);
    FindEntryStable(ledger, after, otherToken, otherUser);
  }

  /** Changing a task of one owner, or a task changed to keep an owner other than `o`, leaves
      `o`'s tasks as they were. */
  lemma {:induction false} OwnedByUnaffected(tasks: seq<Task>, k: nat, t: Task, o: ObjectId)
    requires k < |tasks| && tasks[k].owner != o && t.owner != o
    ensures OwnedBy(tasks[k := t], o) == OwnedBy(tasks, o)
    decreases k
  {
    var after := tasks[k := t];
    if k > 0 {
      OwnedByUnaffected(tasks[1..], k - 1, t, o);
      assert after[1..] == tasks[1..][k - 1 := t];
    } else {
      assert after[1..] == tasks[1..];
    }
  }

  /** Removing a task of one owner leaves every other owner's tasks as they were. */
  lemma {:induction false} OwnedByAfterRemove(tasks: seq<Task>, k: nat, o: ObjectId)
    requires k < |tasks| && tasks[k].owner != o
    ensures OwnedBy(tasks[..k] + tasks[k + 1..], o) == OwnedBy(tasks, o)
    decreases k
  {
    var after := tasks[..k] + tasks[k + 1..];
    if k > 0 {
      OwnedByAfterRemove(tasks[1..], k - 1, o);
      assert after[0] == tasks[0];
      assert after[1..] == tasks[1..][..k - 1] + tasks[1..][k..];
    } else {
      assert after == tasks[1..];
    }
  }

  /** Appending a task of one owner leaves every other owner's tasks as they were. */
  lemma {:induction false} OwnedByAfterAppend(tasks: seq<Task>, t: Task, o: ObjectId)
    requires t.owner != o
    ensures OwnedBy(tasks + [t], o) == OwnedBy(tasks, o)
    decreases |tasks|
  {
    if tasks == [] {
      assert OwnedBy([t], o) == OwnedBy([t][1..], o);
    } else {
      OwnedByAfterAppend(tasks[1..], t, o);
      assert (tasks + [t])[1..] == tasks[1..] + [t];
    }
  }

  /** No ledger entry belongs to the identifier the store hands out next. */
  lemma NoEntryForFreshUser(ledger: seq<AuthToken>, users: seq<User>, nextId: nat, token: string)
    requires UsersValid(users, nextId) && LedgerValid(ledger, users, nextId)
    ensures FindEntry(ledger, token, nextId).None?
  {
    forall k | 0 <= k < |ledger| ensures ledger[k].user != nextId {
      var i :| 0 <= i < |users| && users[i].id == ledger[k].user;
    }
  }

  /** Each task handler acts on the requester's tasks only: every other owner's listing is the
      same after an update, a delete or a create by the requester. */
  lemma OthersUnaffectedByUpdate(tasks: seq<Task>, k: nat, t: Task, requester: ObjectId)
    requires k < |tasks| && tasks[k].owner == requester && t.owner == requester
    ensures forall o :: o != requester ==> OwnedBy(tasks[k := t], o) == OwnedBy(tasks, o)
  {
    forall o | o != requester ensures OwnedBy(tasks[k := t], o) == OwnedBy(tasks, o) {
      OwnedByUnaffected(tasks, k, t, o);
    }
  }

  lemma OthersUnaffectedByRemove(tasks: seq<Task>, k: nat, requester: ObjectId)
    requires k < |tasks| && tasks[k].owner == requester
    ensures forall o :: o != requester ==> OwnedBy(tasks[..k] + tasks[k + 1..], o) == OwnedBy(tasks, o)
  {
    forall o | o != requester ensures OwnedBy(tasks[..k] + tasks[k + 1..], o) == OwnedBy(tasks, o) {
      OwnedByAfterRemove(tasks, k, o);
    }
  }

  lemma OthersUnaffectedByAppend(tasks: seq<Task>, t: Task, requester: ObjectId)
    requires t.owner == requester
    ensures forall o :: o != requester ==> OwnedBy(tasks + [t], o) == OwnedBy(tasks, o)
  {
    forall o | o != requester ensures OwnedBy(tasks + [t], o) == OwnedBy(tasks, o) {
      OwnedByAfterAppend(tasks, t, o);
    }
  }

  /** Appending an entry keeps every live pair live, and makes the new pair live exactly when
      the ledger does not already hold a revoked entry for it. */
  lemma AppendEntryLiveness(ledger: seq<AuthToken>, e: AuthToken)
    requires !e.isUsed
    ensures forall t, u :: Live(ledger, t, u) ==> Live(ledger + [e], t, u)
    ensures Live(ledger + [e], e.token, e.user) <==> !Revoked(ledger, e.token, e.user)
  {
    forall t, u | Live(ledger, t, u) ensures Live(ledger + [e], t, u) {
      LiveSurvivesAppend(ledger, e, t, u);
    }
    if FindEntry(ledger, e.token, e.user).Some? {
      FindEntryStable(ledger, ledger + [e], e.token, e.user);
    } else {
      FreshEntryIsLive(ledger, e);
    }
  }

  lemma AppendUserKeepsUsersValid(users: seq<User>, u: User, nextId: nat)
    requires UsersValid(users, nextId) && ValidUser(u) && u.id == nextId
    requires forall j :: 0 <= j < |users| ==> users[j].email != u.email
    ensures UsersValid(users + [u], nextId + 1)
  {
    var after := users + [u];
    forall i, j | 0 <= i < j < |after| ensures after[i].id != after[j].id && after[i].email != after[j].email {
      if j == |users| {
        assert after[i] == users[i];
      } else {
        assert after[i] == users[i] && after[j] == users[j];
      }
    }
  }

  lemma AppendEntryKeepsLedgerValid(ledger: seq<AuthToken>, users: seq<User>, e: AuthToken, nextId: nat)
    requires LedgerValid(ledger, users, nextId)
    requires e.token != "" && e.id == nextId && FindUserById(users, e.user).Some?
    ensures LedgerValid(ledger + [e], users, nextId + 1)
  {
    var after := ledger + [e];
    forall i, j | 0 <= i < j < |after| ensures after[i].id != after[j].id {
      assert after[i] == ledger[i];
    }
  }

  lemma UsersValidLater(users: seq<User>, nextId: nat)
    requires UsersValid(users, nextId)
    ensures UsersValid(users, nextId + 1)
  {
  }

  lemma TasksValidLater(tasks: seq<Task>, nextId: nat)
    requires TasksValid(tasks, nextId)
    ensures TasksValid(tasks, nextId + 1)
  {
  }

  lemma ReplaceTaskKeepsTasksValid(tasks: seq<Task>, k: nat, t: Task, nextId: nat)
    requires TasksValid(tasks, nextId) && k < |tasks| && ValidTask(t) && t.id == tasks[k].id
    ensures TasksValid(tasks[k := t], nextId)
  {
  }

  lemma RemoveKeepsTasksValid(tasks: seq<Task>, k: nat, nextId: nat)
    requires TasksValid(tasks, nextId) && k < |tasks|
    ensures TasksValid(tasks[..k] + tasks[k + 1..], nextId)
  {
    var after := tasks[..k] + tasks[k + 1..];
    forall i | 0 <= i < |after| ensures after[i] == tasks[if i < k then i else i + 1] {
    }
  }

  lemma RevokeKeepsLedgerValid(ledger: seq<AuthToken>, users: seq<User>, nextId: nat, k: nat, now: nat)
    requires LedgerValid(ledger, users, nextId) && k < |ledger|
    ensures LedgerValid(ledger[k := ledger[k].(isUsed := true, updatedAt := now)], users, nextId)
  {
  }
}
