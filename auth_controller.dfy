/** The decisions of registration, login and logout that do not touch the stores, and the
    ledger update of logout. The handlers themselves, which append to the stores, are methods
    of `Service.Backend`. */
module AuthController {
  import opened Wrappers
  import opened Text
  import opened Store
  import opened Http
  import opened Crypto
  import opened UserModel
  import opened AuthTokenModel

  const MinPasswordLength: nat := 6

  const NameRequired := Failure(400, "Name is required")
  const EmailRequired := Failure(400, "Email is required")
  const PasswordTooShort := Failure(400, "Password must be at least 6 characters")
  const EmailTaken := Failure(400, "Email is already registered")
  const CredentialsRequired := Failure(400, "Email and password are required")
  const InvalidCredentials := Failure(401, "Invalid credentials")
  const NoTokenProvided := Failure(400, "No token provided")
  const LoggedOut: string := "Logged out"
  /** `signToken` throws this error; the application's error handler answers it with 500. */
  const SecretMissing := Failure(500, "JWT_SECRET is not configured")

  /** What registration and login answer: the new token and the user's public fields. */
  datatype Session = Session(token: string, user: Summary)

  /** `signToken(userId)`: fails when no secret is configured, and otherwise signs the id with
      the configured lifetime (default "7d") and the current second as issue time. */
  function SignToken(config: Config, primitives: Primitives, id: ObjectId, now: nat): (r: Result<string, Failure>)
    ensures r.Err? <==> Secret(config).None?
    ensures r.Err? ==> r.error == SecretMissing
    ensures r.Ok? ==> r.value == primitives.sign(id, Secret(config).value, ExpiresIn(config), now / 1000)
  {
    match Secret(config)
    case None => Err(SecretMissing)
    case Some(secret) => Ok(primitives.sign(id, secret, ExpiresIn(config), now / 1000))
  }

  /** Two tokens signed for the same user within the same second are the same string: the
      payload is the id and the issue time, which counts seconds. */
  lemma SameSecondSameToken(config: Config, primitives: Primitives, id: ObjectId, now1: nat, now2: nat)
    requires now1 / 1000 == now2 / 1000
    ensures SignToken(config, primitives, id, now1) == SignToken(config, primitives, id, now2)
  {
  }

  /** The input checks of registration, in their order: name, then email, then password;
      each answers 400 before any store is read. */
  function RegistrationError(name: Option<string>, email: Option<string>, password: Option<string>)
    : (r: Option<Failure>)
    ensures r.None? <==> && name.Some? && !Blank(name.value) && email.Some? && !Blank(email.value)
                         && password.Some? && |password.value| >= MinPasswordLength
    ensures (name.None? || Blank(name.value)) ==> r == Some(NameRequired)
    ensures name.Some? && !Blank(name.value) && (email.None? || Blank(email.value)) ==> r == Some(EmailRequired)
    ensures (name.Some? && !Blank(name.value) && email.Some? && !Blank(email.value)
             && (password.None? || |password.value| < MinPasswordLength)) ==> r == Some(PasswordTooShort)
    ensures r.Some? ==> r.value.status == 400
  {
    if name.None? || Blank(name.value) then Some(NameRequired)
    else if email.None? || Blank(email.value) then Some(EmailRequired)
    else if password.None? || |password.value| < MinPasswordLength then Some(PasswordTooShort)
    else None
  }

  /** What registration stores before any token is signed: after the input checks and the
      normalised-email lookup, the user document built from the trimmed name, the normalised
      email and the hash of the password, which the schema validators may still refuse (a name
      longer than the schema allows, or an empty hash). */
  function NewAccount(users: seq<User>, id: ObjectId, name: Option<string>, email: Option<string>,
                      password: Option<string>, primitives: Primitives, salt: nat, now: nat)
    : (r: Result<User, Failure>)
    ensures RegistrationError(name, email, password).Some? ==> r == Err(RegistrationError(name, email, password).value)
    ensures RegistrationError(name, email, password).None? && FindUserByEmail(users, NormalizeEmail(email.value)).Some?
            ==> r == Err(EmailTaken)
    ensures r.Ok? ==> && r.value == User(id, Trim(name.value), NormalizeEmail(email.value),
                                         primitives.hash(password.value, salt), "", None, now, now)
                      && ValidUser(r.value)
                      && forall j :: 0 <= j < |users| ==> users[j].email != r.value.email
    ensures r.Err? ==> r.error.status == 400 || r.error == ValidationFailed("User")
    // With valid input and an unused email, a refusal is the schema's validation error (500).
    ensures (&& RegistrationError(name, email, password).None?
             && FindUserByEmail(users, NormalizeEmail(email.value)).None?
             && r.Err?)
            ==> r.error == ValidationFailed("User")
  {
    match RegistrationError(name, email, password)
    case Some(f) => Err(f)
    case None =>
      var normalized := NormalizeEmail(email.value);
      if FindUserByEmail(users, normalized).Some? then Err(EmailTaken)
      else
        var created := CreateUser(id, Trim(name.value), normalized, primitives.hash(password.value, salt), now);
        assert created.Ok? ==> created.value == User(id, Trim(name.value), normalized,
                                                     primitives.hash(password.value, salt), "", None, now, now) by {
          NormalizeEmailIdempotent(email.value);
          TrimIdempotent(name.value);
        }
        created
  }

  /** Registration stores a user exactly when the input checks pass, no user has the
      normalised email, the trimmed name fits the schema and the hash is not empty. */
  lemma NewAccountAccepted(users: seq<User>, id: ObjectId, name: Option<string>, email: Option<string>,
                           password: Option<string>, primitives: Primitives, salt: nat, now: nat)
    ensures NewAccount(users, id, name, email, password, primitives, salt, now).Ok? <==>
              && RegistrationError(name, email, password).None?
              && FindUserByEmail(users, NormalizeEmail(email.value)).None?
              && |Trim(name.value)| <= NameMaxLength && primitives.hash(password.value, salt) != ""
  {
    if RegistrationError(name, email, password).None? {
      var normalized := NormalizeEmail(email.value);
      NormalizeEmailEmptyIffBlank(email.value);
      NormalizeEmailEmptyIffBlank(normalized);
      TrimIdempotent(name.value);
      TrimEmptyIffBlank(name.value);
      assert !Blank(normalized) && Trim(Trim(name.value)) != "";
    }
  }

  /** The credential checks of login: both fields present and non-empty, then the user found by
      normalised email, then the password compared. Answers the user's position. */
  function CheckCredentials(users: seq<User>, email: Option<string>, password: Option<string>,
                            primitives: Primitives): (r: Result<nat, Failure>)
    ensures r.Ok? ==> && email.Some? && password.Some? && r.value < |users|
                      && users[r.value].email == NormalizeEmail(email.value)
                      && primitives.compare(password.value, users[r.value].passwordHash)
    ensures r.Err? ==> r.error in {CredentialsRequired, InvalidCredentials}
    ensures (email.None? || email.value == "" || password.None? || password.value == "")
            <==> r == Err(CredentialsRequired)
  {
    if email.None? || email.value == "" || password.None? || password.value == "" then
      Err(CredentialsRequired)
    else match FindUserByEmail(users, NormalizeEmail(email.value))
      case None => Err(InvalidCredentials)
      case Some(i) =>
        if primitives.compare(password.value, users[i].passwordHash) then Ok(i) else Err(InvalidCredentials)
  }

  /** An unknown email and a wrong password give the very same answer. */
  lemma UniformInvalidCredentials(users: seq<User>, primitives: Primitives,
                                  unknown: string, anyPassword: string, known: string, wrongPassword: string)
    requires unknown != "" && anyPassword != "" && known != "" && wrongPassword != ""
    requires forall j :: 0 <= j < |users| ==> users[j].email != NormalizeEmail(unknown)
    requires forall j :: 0 <= j < |users| && users[j].email == NormalizeEmail(known)
               ==> !primitives.compare(wrongPassword, users[j].passwordHash)
    ensures CheckCredentials(users, Some(unknown), Some(anyPassword), primitives) == Err(InvalidCredentials)
    ensures CheckCredentials(users, Some(known), Some(wrongPassword), primitives) == Err(InvalidCredentials)
  {
  }

  /** With unique emails, looking up a stored email finds that very user. */
  lemma FindUniqueEmail(users: seq<User>, i: nat)
    requires i < |users|
    requires forall a, b :: 0 <= a < b < |users| ==> users[a].email != users[b].email
    ensures FindUserByEmail(users, users[i].email) == Some(i)
  {
    var k := FindUserByEmail(users, users[i].email);
    assert k.Some?;
    assert users[k.value].email == users[i].email;
  }

  /** With unique emails, the stored email and the password that hashes to the stored hash log
      that user in, whatever case and surrounding whitespace the email is typed with. */
  lemma {:induction false} RegisteredUserLogsIn(users: seq<User>, i: nat, email: string, password: string,
                                                primitives: Primitives)
    requires i < |users|
    requires forall a, b :: 0 <= a < b < |users| ==> users[a].email != users[b].email
    requires email != "" && NormalizeEmail(email) == users[i].email && password != ""
    requires primitives.compare(password, users[i].passwordHash)
    ensures CheckCredentials(users, Some(email), Some(password), primitives) == Ok(i)
  {
    FindUniqueEmail(users, i);
  }

  /** A user appended with an email no stored user has logs in with its password under any
      spelling of the email that normalises to the stored one. */
  lemma AppendedUserLogsIn(users: seq<User>, u: User, login: string, password: string, primitives: Primitives)
    requires forall a, b :: 0 <= a < b < |users| ==> users[a].email != users[b].email
    requires forall j :: 0 <= j < |users| ==> users[j].email != u.email
    requires login != "" && NormalizeEmail(login) == u.email && password != ""
    requires primitives.compare(password, u.passwordHash)
    ensures CheckCredentials(users + [u], Some(login), Some(password), primitives) == Ok(|users|)
  {
    var after := users + [u];
    forall a, b | 0 <= a < b < |after| ensures after[a].email != after[b].email {
      assert after[a] == users[a];
    }
    RegisteredUserLogsIn(after, |users|, login, password, primitives);
  }

  /** Registration then login: once the user `NewAccount` builds is appended to a store with
      unique emails, the registered password logs that user in under any spelling of the email
      that normalises to the stored one, provided the hash library accepts its own hashes. */
  lemma NewAccountLogsIn(users: seq<User>, id: ObjectId, name: Option<string>,
                         email: Option<string>, password: Option<string>,
                         primitives: Primitives, salt: nat, now: nat, login: string)
    requires forall a, b :: 0 <= a < b < |users| ==> users[a].email != users[b].email
    requires NewAccount(users, id, name, email, password, primitives, salt, now).Ok?
    requires primitives.compare(password.value, primitives.hash(password.value, salt))
    requires login != "" && NormalizeEmail(login) == NormalizeEmail(email.value)
    ensures var u := NewAccount(users, id, name, email, password, primitives, salt, now).value;
            CheckCredentials(users + [u], Some(login), password, primitives) == Ok(|users|)
  {
    var u := NewAccount(users, id, name, email, password, primitives, salt, now).value;
    assert password == Some(password.value) && password.value != "" by {
      assert RegistrationError(name, email, password).None?;
    }
    AppendedUserLogsIn(users, u, login, password.value, primitives);
  }

  /** `logout`'s ledger update: the requester's first entry for this token is flipped to
      revoked and saved if it was live; otherwise the ledger is left as it is. */
  function RevokeFor(ledger: seq<AuthToken>, token: string, requester: ObjectId, now: nat)
    : (r: seq<AuthToken>)
    ensures LedgerGrows(ledger, r) && |r| == |ledger|
    ensures FindEntry(ledger, token, requester).Some? ==> Revoked(r, token, requester)
    ensures FindEntry(ledger, token, requester).None? ==> r == ledger
    // Nobody else's entry, and no entry for another token, changes.
    ensures forall i :: 0 <= i < |ledger| && (ledger[i].user != requester || ledger[i].token != token)
              ==> r[i] == ledger[i]
    // A revoked entry is never touched again.
    ensures forall i :: 0 <= i < |ledger| && ledger[i].isUsed ==> r[i] == ledger[i]
    // Only the first entry for the pair can change; later duplicates are kept as they were.
    ensures forall i :: 0 <= i < |ledger| && FindEntry(ledger, token, requester) != Some(i) ==> r[i] == ledger[i]
  {
    match FindEntry(ledger, token, requester)
    case None => ledger
    case Some(k) =>
      if ledger[k].isUsed then ledger
      else
        var r := ledger[k := ledger[k].(isUsed := true, updatedAt := now)];
        FindEntryStable(ledger, r, token, requester);
        r
  }

  /** Logging out twice is logging out once: the second call finds the entry revoked and
      saves nothing. */
  lemma RevokeForIdempotent(ledger: seq<AuthToken>, token: string, requester: ObjectId, now1: nat, now2: nat)
    ensures RevokeFor(RevokeFor(ledger, token, requester, now1), token, requester, now2)
            == RevokeFor(ledger, token, requester, now1)
  {
    var once := RevokeFor(ledger, token, requester, now1);
    if FindEntry(ledger, token, requester).Some? {
      FindEntryStable(ledger, once, token, requester);
    }
  }
}
