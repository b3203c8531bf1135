/**
  What a handler does with `res` and `next`: the responses it writes and the
  calls to `next` it makes, in order. A forwarded failure is an `Error` object
  whose `status` may be unset; an unexpected failure of a `pool.query` is a
  `Fault` supplied from outside.
 */
module Http {
  import opened Js
  import opened Store

  /** `new Error(message)` with `err.status` set, or left undefined. */
  datatype HttpError = HttpError(status: Option<int>, message: string)

  /** A JSON response body. */
  datatype Body =
    | Undefined                                   // res.json(undefined)
    | Message(message: string)                    // { message }
    | CategoryRow(category: Category)
    | CategoryRows(categories: seq<Category>)
    | ProductRow(product: Product)                // a RETURNING * row
    | ProductItem(view: ProductView)
    | ProductRows(views: seq<ProductView>)
    | NoRows                                      // the empty rows of a DELETE without RETURNING
    | Session(id: int, name: string, email: string, accessToken: string)

  datatype Effect =
    | Respond(status: int, body: Body)            // res.status(status).json(body)
    | Next(err: Option<HttpError>)                // next(err), or next() with no argument

  /** `next(err)` for an error whose status is set. */
  function Fail(status: int, message: string): Effect {
    Next(Some(HttpError(Some(status), message)))
  }

  /** The `pool.query` with this index (counted from 0 within one handler call) rejects with `message`. */
  datatype Fault = Fault(query: nat, message: string)

  predicate FailsAt(fault: Option<Fault>, query: nat) {
    fault.Some? && fault.value.query == query
  }

  /** The catch clause's `next(new Error(error))`: no status. */
  function Unexpected(fault: Option<Fault>): Effect
    requires fault.Some?
  {
    Next(Some(HttpError(None, fault.value.message)))
  }

  const INVALID_ID := "Invalid ID parameter."
}
