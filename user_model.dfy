/** The User schema: required, trimmed name of at most 100 characters; required, unique,
    lower-cased and trimmed email; required password hash; trimmed bio of at most 500
    characters defaulting to ""; avatar URL defaulting to null; creation and update times. */
module UserModel {
  import opened Wrappers
  import opened Text
  import opened Store
  import opened Http

  const NameMaxLength: nat := 100
  const BioMaxLength: nat := 500

  datatype User = User(
    id: ObjectId,
    name: string,
    email: string,
    passwordHash: string,
    bio: string,
    avatarUrl: Option<string>,
    createdAt: nat,
    updatedAt: nat)

  /** The fields the auth guard selects and the profile handlers answer. */
  datatype Profile = Profile(
    id: ObjectId,
    name: string,
    email: string,
    bio: string,
    avatarUrl: Option<string>,
    createdAt: nat)

  /** The user object that registration and login answer beside the token. */
  datatype Summary = Summary(
    id: ObjectId,
    name: string,
    email: string,
    bio: string,
    avatarUrl: Option<string>)

  function ProfileOf(u: User): Profile {
    Profile(u.id, u.name, u.email, u.bio, u.avatarUrl, u.createdAt)
  }

  function SummaryOf(u: User): Summary {
    Summary(u.id, u.name, u.email, u.bio, u.avatarUrl)
  }

  /** What the schema guarantees of every stored user (email uniqueness is a property of the
      collection, stated where the collection is). */
  predicate ValidUser(u: User)
    // A stored user passes the validators again on the next save, and neither its name nor its
    // email is whitespace only.
    ensures ValidUser(u) ==> PassesValidators(u.name, u.email, u.passwordHash, u.bio) && !Blank(u.name) && !Blank(u.email)
  {
    && u.name != "" && Trimmed(u.name) && |u.name| <= NameMaxLength
    && u.email != "" && EmailNormalized(u.email)
    && u.passwordHash != ""
    && Trimmed(u.bio) && |u.bio| <= BioMaxLength
  }

  /** The validators run on save, on values the setters have already trimmed. */
  predicate PassesValidators(name: string, email: string, passwordHash: string, bio: string)
    // After the `trim` setter, `required` turns away a name or an email that was whitespace only.
    ensures Trimmed(name) && Blank(name) ==> !PassesValidators(name, email, passwordHash, bio)
    ensures Trimmed(email) && Blank(email) ==> !PassesValidators(name, email, passwordHash, bio)
  {
    && name != "" && |name| <= NameMaxLength
    && email != ""
    && passwordHash != ""
    && |bio| <= BioMaxLength
  }

  /** `User.create`: the `trim` and `lowercase` setters, the defaults (bio "", avatarUrl null,
      both timestamps now), then the validators; a document that fails them is not stored. */
  function CreateUser(id: ObjectId, name: string, email: string, passwordHash: string, now: nat)
    : (r: Result<User, Failure>)
    ensures r.Ok? <==> Trim(name) != "" && |Trim(name)| <= NameMaxLength
                       && !Blank(email) && passwordHash != ""
    ensures r.Err? ==> r.error == ValidationFailed("User")
    ensures r.Ok? ==> ValidUser(r.value)
    ensures r.Ok? ==> && r.value.id == id && r.value.name == Trim(name)
                      && r.value.email == NormalizeEmail(email) && r.value.passwordHash == passwordHash
                      && r.value.bio == "" && r.value.avatarUrl == None
                      && r.value.createdAt == now && r.value.updatedAt == now
  {
    var n := Trim(name);
    var e := NormalizeEmail(email);
    assert Trimmed(n) && EmailNormalized(e);
    assert e == "" <==> Blank(email) by {
      NormalizeEmailEmptyIffBlank(email);
    }
    var u := User(id, n, e, passwordHash, "", None, now, now);
    if PassesValidators(u.name, u.email, u.passwordHash, u.bio) then
      NewUserValid(u);
      Ok(u)
    else Err(ValidationFailed("User"))
  }

  /** A fresh document whose setters produced a trimmed name and a normalised email, and which
      passes the validators, satisfies the schema. */
  lemma NewUserValid(u: User)
    requires PassesValidators(u.name, u.email, u.passwordHash, u.bio)
    requires Trimmed(u.name) && EmailNormalized(u.email) && u.bio == ""
    ensures ValidUser(u)
  {
  }

  /** `user.save()` of an existing user whose fields were assigned: the validators run, and the
      update time moves to now only when some field actually changed. */
  function SaveUser(stored: User, edited: User, now: nat): (r: Result<User, Failure>)
    requires edited.id == stored.id
    ensures r.Ok? <==> PassesValidators(edited.name, edited.email, edited.passwordHash, edited.bio)
    ensures r.Err? ==> r.error == ValidationFailed("User")
    ensures r.Ok? ==> r.value == edited.(updatedAt := if edited == stored then stored.updatedAt else now)
  {
    if !PassesValidators(edited.name, edited.email, edited.passwordHash, edited.bio) then
      Err(ValidationFailed("User"))
    else if edited == stored then Ok(stored)
    else Ok(edited.(updatedAt := now))
  }

  /** The position of the user with this id (`User.findById`). */
  function FindUserById(users: seq<User>, id: ObjectId): (r: Option<nat>)
    ensures r.Some? ==> r.value < |users| && users[r.value].id == id
    ensures r.None? <==> forall j :: 0 <= j < |users| ==> users[j].id != id
  {
    FirstIndex(users, (u: User) => u.id == id)
  }

  /** The position of the first user with this email (`User.findOne({ email })`). */
  function FindUserByEmail(users: seq<User>, email: string): (r: Option<nat>)
    ensures r.Some? ==> r.value < |users| && users[r.value].email == email
    ensures r.None? <==> forall j :: 0 <= j < |users| ==> users[j].email != email
  {
    FirstIndex(users, (u: User) => u.email == email)
  }
}
