/** The AuthToken schema, one entry of the token ledger: the owning user, the token string
    (required), the revocation flag `isUsed` (default false), and creation and update times. */
module AuthTokenModel {
  import opened Wrappers
  import opened Store
  import opened Http

  datatype AuthToken = AuthToken(
    id: ObjectId,
    user: ObjectId,
    token: string,
    isUsed: bool,
    createdAt: nat,
    updatedAt: nat)

  /** `AuthToken.create`: the default `isUsed: false`, then the `required` validator on the token. */
  function CreateAuthToken(id: ObjectId, user: ObjectId, token: string, isUsed: Option<bool>, now: nat)
    : (r: Result<AuthToken, Failure>)
    ensures r.Ok? <==> token != ""
    ensures r.Err? ==> r.error == ValidationFailed("AuthToken")
    ensures r.Ok? ==> r.value == AuthToken(id, user, token, isUsed == Some(true), now, now)
  {
    if token == "" then Err(ValidationFailed("AuthToken"))
    else Ok(AuthToken(id, user, token, if isUsed.Some? then isUsed.value else false, now, now))
  }

  /** The first entry for this token string and this user
      (`AuthToken.findOne({ token, user })`), whether revoked or not. */
  function FindEntry(ledger: seq<AuthToken>, token: string, user: ObjectId): (r: Option<nat>)
    ensures r.Some? ==> r.value < |ledger| && ledger[r.value].token == token && ledger[r.value].user == user
    ensures r.Some? ==> forall j :: 0 <= j < r.value ==> !(ledger[j].token == token && ledger[j].user == user)
    ensures r.None? <==> forall j :: 0 <= j < |ledger| ==> !(ledger[j].token == token && ledger[j].user == user)
  {
    FirstIndex(ledger, (e: AuthToken) => e.token == token && e.user == user)
  }

  /** The pair (token, user) finds a ledger entry and that entry is not revoked. */
  predicate Live(ledger: seq<AuthToken>, token: string, user: ObjectId)
    // A live pair has an unused entry, and is never also revoked.
    ensures Live(ledger, token, user) ==>
              exists k :: 0 <= k < |ledger| && ledger[k].token == token && ledger[k].user == user && !ledger[k].isUsed
    ensures Live(ledger, token, user) ==> !Revoked(ledger, token, user)
    // A pair is live or revoked exactly when some entry records it.
    ensures Live(ledger, token, user) || Revoked(ledger, token, user) <==>
              exists k :: 0 <= k < |ledger| && ledger[k].token == token && ledger[k].user == user
  {
    var k := FindEntry(ledger, token, user);
    k.Some? && !ledger[k.value].isUsed
  }

  /** The pair (token, user) finds a ledger entry and that entry is revoked. */
  predicate Revoked(ledger: seq<AuthToken>, token: string, user: ObjectId) {
    var k := FindEntry(ledger, token, user);
    k.Some? && ledger[k.value].isUsed
  }

  /** How the ledger may evolve: entries are only appended, never removed or re-pointed, and a
      revoked entry stays revoked. */
  predicate LedgerGrows(before: seq<AuthToken>, after: seq<AuthToken>) {
    && |before| <= |after|
    && forall i :: 0 <= i < |before| ==>
         && after[i].id == before[i].id && after[i].user == before[i].user
         && after[i].token == before[i].token && (before[i].isUsed ==> after[i].isUsed)
  }

  /** When the ledger grows, a lookup that already found an entry keeps finding the same one. */
  lemma {:induction false} FindEntryStable(before: seq<AuthToken>, after: seq<AuthToken>, token: string, user: ObjectId)
    requires LedgerGrows(before, after)
    requires FindEntry(before, token, user).Some?
    ensures FindEntry(after, token, user) == FindEntry(before, token, user)
  {
    var k := FindEntry(before, token, user).value;
    assert after[k].token == token && after[k].user == user;
  }

  /** Revocation is permanent: no later state of the ledger makes a revoked pair live again. */
  lemma RevokedStaysRevoked(before: seq<AuthToken>, after: seq<AuthToken>, token: string, user: ObjectId)
    requires LedgerGrows(before, after)
    requires Revoked(before, token, user)
    ensures Revoked(after, token, user) && !Live(after, token, user)
  {
    FindEntryStable(before, after, token, user);
  }

  /** A pair that is live stays live while the ledger only grows by appending. */
  lemma LiveSurvivesAppend(ledger: seq<AuthToken>, e: AuthToken, token: string, user: ObjectId)
    requires Live(ledger, token, user)
    ensures Live(ledger + [e], token, user)
  {
    FindEntryStable(ledger, ledger + [e], token, user);
  }
}
