/** The auth guard in front of the profile and task routes: a chain of checks, each of which
    either answers an error or passes on, and which only reads the user store and the ledger. */
module AuthMiddleware {
  import opened Wrappers
  import opened Text
  import opened Store
  import opened Http
  import opened Crypto
  import opened UserModel
  import opened AuthTokenModel

  const AuthenticationRequired := Failure(401, "Authentication required")
  const NotConfigured := Failure(500, "Authentication is not configured on this server")
  const NoLongerValid := Failure(401, "Token is no longer valid")
  const UserGone := Failure(401, "User no longer exists")
  const InvalidOrExpired := Failure(401, "Invalid or expired token")

  /** What the guard attaches to the request: `req.user` (id, name, email) and
      `req.userEntity` (the selected fields of the user). */
  datatype AuthContext = AuthContext(id: ObjectId, name: string, email: string, entity: Profile)

  /** `req.user` and `req.userEntity` for the user the guard found. */
  function ContextOf(u: User): (r: AuthContext)
    ensures r.id == u.id && r.entity == ProfileOf(u)
    // The short identity agrees with the selected document it was read from.
    ensures r.entity.id == r.id && r.entity.name == r.name && r.entity.email == r.email
  {
    AuthContext(u.id, u.name, u.email, ProfileOf(u))
  }

  /** The guard's decision for one request, given the `Authorization` header, the configuration,
      the clock and the two stores it reads. */
  function Authenticate(header: Option<string>, config: Config, primitives: Primitives, now: nat,
                        users: seq<User>, ledger: seq<AuthToken>): (r: Result<AuthContext, Failure>)
    // No header, or not a bearer header: 401, whatever the configuration and the stores hold.
    ensures BearerToken(header).None? ==> r == Err(AuthenticationRequired)
    // No secret: 500 for every bearer header.
    ensures BearerToken(header).Some? && Secret(config).None? ==> r == Err(NotConfigured)
    // A token the library rejects, the empty token among them: 401.
    ensures BearerToken(header).Some? && Secret(config).Some?
            && Verify(primitives, BearerToken(header).value, Secret(config).value, now).None?
            ==> r == Err(InvalidOrExpired)
    // A verified token without a live ledger entry for its own user: 401.
    ensures BearerToken(header).Some? && Secret(config).Some?
            && Verify(primitives, BearerToken(header).value, Secret(config).value, now).Some?
            && !Live(ledger, BearerToken(header).value, Verify(primitives, BearerToken(header).value, Secret(config).value, now).value)
            ==> r == Err(NoLongerValid)
    // Every check passed except that the user is gone: 401.
    ensures BearerToken(header).Some? && Secret(config).Some?
            && Verify(primitives, BearerToken(header).value, Secret(config).value, now).Some?
            && Live(ledger, BearerToken(header).value, Verify(primitives, BearerToken(header).value, Secret(config).value, now).value)
            && FindUserById(users, Verify(primitives, BearerToken(header).value, Secret(config).value, now).value).None?
            ==> r == Err(UserGone)
    // Acceptance: every check passed, and the requester is the user the token names.
    ensures r.Ok? ==> && BearerToken(header).Some? && Secret(config).Some?
                      && Verify(primitives, BearerToken(header).value, Secret(config).value, now) == Some(r.value.id)
                      && Live(ledger, BearerToken(header).value, r.value.id)
                      && FindUserById(users, r.value.id).Some?
                      && r.value == ContextOf(users[FindUserById(users, r.value.id).value])
    // Every rejection is a 401, except the missing secret.
    ensures r.Err? ==> r.error.status == 401 || r.error == NotConfigured
  {
    match BearerToken(header)
    case None => Err(AuthenticationRequired)
    case Some(token) =>
      match Secret(config)
      case None => Err(NotConfigured)
      case Some(secret) =>
        match Verify(primitives, token, secret, now)
        case None => Err(InvalidOrExpired)
        case Some(id) =>
          if !Live(ledger, token, id) then Err(NoLongerValid)
          else match FindUserById(users, id)
            case None => Err(UserGone)
            case Some(i) => Ok(ContextOf(users[i]))
  }
}
