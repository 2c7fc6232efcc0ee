/** The claims the resolvers sign into JSON Web Tokens. Signing and
    verification themselves are foreign (jsonwebtoken): a credential is
    kept here as the claims it carries and its lifetime, and verification
    is a parameter of the functions that need it. */
module Tokens {
  import opened Base

  const SESSION_TTL: int := 7 * 24 * 60 * 60 * 1000   // expiresIn '7d'
  const ADMIN_TTL: int := 24 * 60 * 60 * 1000         // expiresIn '24h'

  /** What `jwt.sign` is asked to sign. */
  datatype Credential =
    | Session(userId: int, ttl: int)                     // `{ userId }`
    | AdminSession(username: string, ttl: int)           // `{ isAdmin: true, username }`

  /** The payload `jwt.verify` hands back, as far as the context reads it:
      the `userId` claim, absent from an administrator credential. */
  datatype Claims = Claims(userId: Option<int>)

  function ClaimsOf(c: Credential): (r: Claims)
    ensures r.userId.Some? <==> c.Session?
    ensures c.Session? ==> r.userId == Some(c.userId)
  {
    match c
    case Session(id, _) => Claims(Some(id))
    case AdminSession(_, _) => Claims(None)
  }

  /** `generateToken(userId)`: an ordinary session credential for `userId`,
      valid for seven days. */
  function GenerateToken(userId: int): (c: Credential)
    ensures c.Session? && ClaimsOf(c).userId == Some(userId)
    ensures c.ttl == 7 * 86_400_000
  {
    Session(userId, SESSION_TTL)
  }
}
