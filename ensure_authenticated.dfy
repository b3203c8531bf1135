/**
  middleware/ensureAuthenticated.js: the gate in front of the routes that
  need a caller. The raw `Authorization` header is handed to `jwt.verify`
  unchanged; on success the decoded user id is stored on the request.
 */
module Authentication {
  import opened Js
  import opened Http
  import opened Credentials

  const TOKEN_NOT_FOUND := "Access token not found."
  const TOKEN_INVALID := "Access token is invalid or has expired."

  /** The gate's decision. */
  datatype Decision = NoToken | BadToken | Verified(claims: Claims)

  /** Falsy header: no token; otherwise whatever `verify` makes of the header as it is. */
  function Decide(authorization: Field<string>, p: Primitives, secret: string): (d: Decision)
    ensures !TextTruthy(authorization) <==> d.NoToken?
    ensures d.BadToken? <==> TextTruthy(authorization) && p.verify(authorization.value, secret).None?
    ensures d.Verified? ==> p.verify(authorization.value, secret) == Some(d.claims)
  {
    if !TextTruthy(authorization) then NoToken
    else match p.verify(authorization.value, secret)
      case None => BadToken
      case Some(claims) => Verified(claims)
  }

  /** With no header the outcome does not depend on the verifier or the secret. */
  lemma NoHeaderNoVerify(authorization: Field<string>, p: Primitives, q: Primitives, s: string, t: string)
    requires !TextTruthy(authorization)
    ensures Decide(authorization, p, s) == Decide(authorization, q, t) == NoToken
  {
  }

  /** An incoming request: its `Authorization` header and the `req.user` the gate may set. */
  class Request {
    const authorization: Field<string>
    var user: Option<int>

    constructor (authorization: Field<string>)
      ensures this.authorization == authorization && user == None
    {
      this.authorization := authorization;
      user := None;
    }
  }

  /** The effects the gate produces for a decision. */
  function GateEffects(d: Decision): (effects: seq<Effect>)
    ensures |effects| == 1 && effects[0].Next?
    ensures effects[0].err.None? <==> d.Verified?
    ensures d.NoToken? ==> effects[0].err == Some(HttpError(Some(401), TOKEN_NOT_FOUND))
    ensures d.BadToken? ==> effects[0].err == Some(HttpError(None, TOKEN_INVALID))
  {
    match d
    case NoToken => [Fail(401, TOKEN_NOT_FOUND)]
    case BadToken => [Next(Some(HttpError(None, TOKEN_INVALID)))]
    case Verified(_) => [Next(None)]
  }

  /** `ensureAuthenticated(req, res, next)`: sets `req.user` exactly when the token verifies. */
  method EnsureAuthenticated(req: Request, p: Primitives, secret: string) returns (effects: seq<Effect>)
    modifies req`user
    ensures effects == GateEffects(Decide(req.authorization, p, secret))
    ensures Decide(req.authorization, p, secret).Verified? ==>
              req.user == Some(Decide(req.authorization, p, secret).claims.userId)
    ensures !Decide(req.authorization, p, secret).Verified? ==> req.user == old(req.user)
  {
    var accessToken := req.authorization;
    if !TextTruthy(accessToken) {
      return [Fail(401, TOKEN_NOT_FOUND)];
    }
    var decoded := p.verify(accessToken.value, secret);
    if decoded.None? {
      return [Next(Some(HttpError(None, TOKEN_INVALID)))];
    }
    req.user := Some(decoded.value.userId);
    effects := [Next(None)];
  }
}
