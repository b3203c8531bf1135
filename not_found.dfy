/**
  middleware/notFound.js: the stage reached when no route matched. It builds
  one constant error and forwards it; the request does not influence it.
 */
module NotFound {
  import opened Js
  import opened Http

  const PAGE_NOT_FOUND := "Page not found."

  /** The request as far as routing goes: its method and path, which the stage ignores. */
  datatype Request = Request(verb: string, path: string)

  /** The effects of the stage: a single `next(err)` with status 404 and no response of its own. */
  function NotFound(req: Request): (effects: seq<Effect>)
    ensures |effects| == 1 && effects[0].Next? && effects[0].err.Some?
    ensures effects[0].err.value.status == Some(404)
    ensures effects[0].err.value.message == PAGE_NOT_FOUND
  {
    [Fail(404, PAGE_NOT_FOUND)]
  }
}
