/** The deployment configuration and the two cryptographic libraries the core calls, kept abstract:
    JSON Web Token signing and verification (RFC 7519) and bcrypt password hashing. */
module Crypto {
  import opened Wrappers
  import opened Store

  /** The `JWT_SECRET` and `JWT_EXPIRES_IN` environment variables, read on every call. */
  datatype Config = Config(jwtSecret: Option<string>, jwtExpiresIn: Option<string>)

  /** The libraries, as functions the model does not look into.
      `sign(id, secret, expiresIn, issuedAtSeconds)` is `jwt.sign({ id }, secret, { expiresIn })`;
      `verify(token, secret, nowMillis)` is `jwt.verify`, answering the payload's `id`, or None
      where the library throws (bad signature, malformed, expired);
      `hash(password, salt)` is `bcrypt.hash` with its random salt made a parameter;
      `compare(password, hash)` is `bcrypt.compare`. */
  datatype Primitives = Primitives(
    sign: (ObjectId, string, string, nat) -> string,
    verify: (string, string, nat) -> Option<ObjectId>,
    hash: (string, nat) -> string,
    compare: (string, string) -> bool)

  /** The signing secret, when one is configured: `if (!secret)` treats an unset and an empty
      variable alike. */
  function Secret(config: Config): (r: Option<string>)
    ensures r.Some? ==> r.value != "" && config.jwtSecret == r
    ensures r.None? <==> config.jwtSecret in {None, Some("")}
  {
    if config.jwtSecret.Some? && config.jwtSecret.value != "" then config.jwtSecret else None
  }

  /** The token lifetime: `process.env.JWT_EXPIRES_IN || '7d'`. */
  function ExpiresIn(config: Config): (r: string)
    ensures r != ""
    ensures config.jwtExpiresIn in {None, Some("")} ==> r == "7d"
    ensures config.jwtExpiresIn.Some? && config.jwtExpiresIn.value != "" ==> r == config.jwtExpiresIn.value
  {
    if config.jwtExpiresIn.Some? && config.jwtExpiresIn.value != "" then config.jwtExpiresIn.value else "7d"
  }

  /** `jwt.verify(token, secret)`: the library throws on an empty token before looking at it
      ("jwt must be provided"), and otherwise answers as `verify` does. */
  function Verify(primitives: Primitives, token: string, secret: string, now: nat): (r: Option<ObjectId>)
    ensures token == "" ==> r == None
  {
    if token == "" then None else primitives.verify(token, secret, now)
  }
}
