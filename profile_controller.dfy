/** The profile handlers behind the auth guard: reading the requester's public fields, and the
    partial update of name, bio and avatar. The store write is `Service.Backend.UpdateProfile`. */
module ProfileController {
  import opened Wrappers
  import opened Text
  import opened Store
  import opened Http
  import opened Crypto
  import opened UserModel
  import opened AuthTokenModel
  import opened AuthMiddleware

  /** `getProfile`: the user the guard loaded, as its public fields. */
  function GetProfile(ctx: AuthContext): Response<Profile> {
    Success(200, ctx.entity)
  }

  /** Behind the guard, `getProfile` answers exactly the id, name, email, bio, avatar and
      creation time of the stored user the token names, and nothing else of it. */
  lemma GetProfileAnswersRequester(header: Option<string>, config: Config, primitives: Primitives, now: nat,
                                   users: seq<User>, ledger: seq<AuthToken>)
    requires Authenticate(header, config, primitives, now, users, ledger).Ok?
    ensures var ctx := Authenticate(header, config, primitives, now, users, ledger).value;
            var u := users[FindUserById(users, ctx.id).value];
            && u.id == ctx.id
            && GetProfile(ctx) == Success(200, Profile(u.id, u.name, u.email, u.bio, u.avatarUrl, u.createdAt))
  {
  }

  /** The assignments of `updateProfile` on the loaded user: a name or a bio that is sent
      replaces the stored one, trimmed; an uploaded file replaces the avatar. */
  function EditProfile(u: User, name: Option<string>, bio: Option<string>, filename: Option<string>)
    : (r: User)
    ensures r.id == u.id && r.email == u.email && r.passwordHash == u.passwordHash
    ensures r.createdAt == u.createdAt && r.updatedAt == u.updatedAt
    ensures name.None? ==> r.name == u.name
    ensures name.Some? ==> r.name == Trim(name.value) && Trimmed(r.name)
    ensures bio.None? ==> r.bio == u.bio
    ensures bio.Some? ==> r.bio == Trim(bio.value) && Trimmed(r.bio)
    ensures r.avatarUrl == (if filename.Some? then UploadPath(filename) else u.avatarUrl)
  {
    u.(name := if name.Some? then Trim(name.value) else u.name,
       bio := if bio.Some? then Trim(bio.value) else u.bio,
       avatarUrl := if filename.Some? then UploadPath(filename) else u.avatarUrl)
  }

  /** A saved profile edit leaves a valid user valid: the edit only writes trimmed values, and
      the validators bound their lengths. */
  lemma SavedEditIsValid(u: User, name: Option<string>, bio: Option<string>, filename: Option<string>, now: nat)
    requires ValidUser(u)
    requires SaveUser(u, EditProfile(u, name, bio, filename), now).Ok?
    ensures ValidUser(SaveUser(u, EditProfile(u, name, bio, filename), now).value)
  {
  }

  /** Sending nothing to change saves nothing: the stored user, its update time included, stays
      as it was. */
  lemma EmptyEditChangesNothing(u: User, now: nat)
    requires ValidUser(u)
    ensures SaveUser(u, EditProfile(u, None, None, None), now) == Ok(u)
  {
  }
}
