/**
  How the stages meet: a handler's first effect decides the first response
  the client receives. A response is that response; `next(err)` hands the
  error to the error stage, which answers it at once; `next()` passes the
  request on to the next matching route, outside this model.
 */
module Pipeline {
  import opened Js
  import opened Store
  import opened Http
  import opened Credentials
  import ErrorHandler
  import NotFound
  import Authentication
  import Categories
  import Products
  import Auth

  /** The first response written for a request whose handler produced `effects`; None when there is none. */
  function Answer(effects: seq<Effect>): (r: Option<Effect>)
    ensures r.Some? ==> r.value.Respond?
    ensures r.None? <==> effects == [] || effects[0] == Next(None)
    ensures |effects| > 0 && effects[0].Respond? ==> r == Some(effects[0])
    ensures |effects| > 0 && effects[0].Next? && effects[0].err.Some? ==>
              r == Some(Respond(ErrorHandler.StatusOf(effects[0].err.value), Message(effects[0].err.value.message)))
  {
    if effects == [] then None
    else match effects[0]
      case Respond(_, _) => Some(effects[0])
      case Next(None) => None
      case Next(Some(err)) => Some(ErrorHandler.Handle(err)[0])
  }

  /** An unmatched route is answered 404 "Page not found.", whatever the request. */
  lemma NotFoundAnswered(req: NotFound.Request)
    ensures Answer(NotFound.NotFound(req)) == Some(Respond(404, Message(NotFound.PAGE_NOT_FOUND)))
  {
  }

  /**
    A store failure in register or login is forwarded without a status, so
    the client receives 500 with the driver's message.
   */
  lemma UnexpectedAnswered500(users: map<int, User>, rb: Auth.RegisterBody, lb: Auth.LoginBody,
                              p: Primitives, secret: string, fault: Option<Fault>)
    requires FailsAt(fault, 0)
    ensures Auth.RegisterFieldsGiven(rb) ==>
              Answer(Auth.RegisterEffects(users, rb, fault)) == Some(Respond(500, Message(fault.value.message)))
    ensures TextTruthy(lb.email) && TextTruthy(lb.password) ==>
              Answer(Auth.LoginEffects(users, lb, p, secret, fault)) == Some(Respond(500, Message(fault.value.message)))
  {
  }

  /**
    GET /api/categories/:id on a missing row, as the client sees it: the 404
    is the first response, ahead of the stray 200 the handler also attempts.
   */
  method MissingCategoryAnswered404(db: Db, param: NumParam, fault: Option<Fault>) returns (answer: Option<Effect>)
    requires db.Valid() && ValidId(param).Some? && ValidId(param).value !in db.categories && !FailsAt(fault, 0)
    ensures answer == Some(Respond(404, Message(Categories.NotFoundMessage(ValidId(param).value))))
  {
    var effects := Categories.GetCategoryById(db, param, fault);
    answer := Answer(effects);
  }

  /** updateProduct swallows a store failure: no response is ever written for that request. */
  lemma UpdateFailureUnanswered(categories: map<int, Category>, products: map<int, Product>,
                                param: NumParam, b: Products.ProductBody, fault: Option<Fault>)
    requires ValidId(param).Some? && Products.UpdateFieldsGiven(b)
    requires FailsAt(fault, 0) || (FailsAt(fault, 1) && b.categoryId.value in categories)
    ensures Products.UpdateEffects(categories, products, param, b, fault) == []
    ensures Answer(Products.UpdateEffects(categories, products, param, b, fault)).None?
  {
  }

  /**
    The auth gate as the client sees it: a falsy header is answered 401, a
    token `verify` rejects is answered 500 because the gate sets no status,
    and a verified token lets the request through.
   */
  lemma GateAnswered(authorization: Field<string>, p: Primitives, secret: string)
    ensures var answer := Answer(Authentication.GateEffects(Authentication.Decide(authorization, p, secret)));
            && (!TextTruthy(authorization) ==> answer == Some(Respond(401, Message(Authentication.TOKEN_NOT_FOUND))))
            && (TextTruthy(authorization) && p.verify(authorization.value, secret).None? ==>
                  answer == Some(Respond(500, Message(Authentication.TOKEN_INVALID))))
            && (TextTruthy(authorization) && p.verify(authorization.value, secret).Some? ==> answer == None)
  {
  }

  /**
    The token a successful login returns, sent back unchanged as the
    `Authorization` header, authenticates the same user, as long as `verify`
    still accepts what `sign` produced and the token is not empty.
   */
  lemma IssuedTokenAuthenticates(users: map<int, User>, b: Auth.LoginBody, p: Primitives,
                                  secret: string, fault: Option<Fault>)
    requires Auth.LoginEffects(users, b, p, secret, fault)[0].Respond?
    requires var id := Auth.LoginEffects(users, b, p, secret, fault)[0].body.id;
             p.sign(AccessClaims(id), secret) != "" && p.verify(p.sign(AccessClaims(id), secret), secret) == Some(AccessClaims(id))
    ensures var session := Auth.LoginEffects(users, b, p, secret, fault)[0].body;
            Authentication.Decide(Given(session.accessToken), p, secret) == Authentication.Verified(AccessClaims(session.id))
  {
  }

  /** A "Bearer " prefix is not stripped: the header is verified as sent, prefix included. */
  lemma BearerPrefixKept(token: string, p: Primitives, secret: string)
    ensures Authentication.Decide(Given("Bearer " + token), p, secret).Verified? <==>
            p.verify("Bearer " + token, secret).Some?
  {
  }
}
