/**
  bcryptjs and jsonwebtoken as the controllers and the auth gate use them.
  Their algorithms are not modelled: each operation is an opaque function
  supplied by the caller, and the random salt of `bcrypt.hash` and the
  `ACCESS_TOKEN_SECRET` environment variable are plain parameters.
 */
module Credentials {
  import opened Js

  /** The payload and options login signs: `{ userId }`, `{ subject, expiresIn }`. */
  datatype Claims = Claims(userId: int, subject: string, expiresIn: string)

  datatype Primitives = Primitives(
    hash: (string, nat, string) -> string,    // bcrypt.hash(plain, rounds), with its salt made explicit
    compare: (string, string) -> bool,        // bcrypt.compare(plain, hashed)
    sign: (Claims, string) -> string,         // jwt.sign(payload and options, secret)
    verify: (string, string) -> Option<Claims>) // jwt.verify(token, secret); None where it throws

  const SALT_ROUNDS: nat := 10
  const SUBJECT := "accessApi"
  const EXPIRES_IN := "1h"

  /** The claims of the token issued to user `id`. */
  function AccessClaims(id: int): (c: Claims)
    ensures c.userId == id && c.subject == SUBJECT && c.expiresIn == EXPIRES_IN
  {
    Claims(id, SUBJECT, EXPIRES_IN)
  }
}
