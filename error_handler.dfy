/**
  middleware/error.js: the error stage. It answers a forwarded error with its
  own status, or with 500 when the status is unset or falsy, and a
  `{ message }` body; only the explicit-status branch then calls `next()`.
 */
module ErrorHandler {
  import opened Js
  import opened Http

  /** `!err.status`: an unset status and the status 0 are both falsy. */
  predicate StatusFalsy(err: HttpError): (falsy: bool)
    ensures falsy <==> err.status == None || err.status == Some(0)
  {
    err.status.None? || err.status.value == 0
  }

  /** The status the stage answers with. */
  function StatusOf(err: HttpError): (status: int)
    ensures StatusFalsy(err) ==> status == 500
    ensures !StatusFalsy(err) ==> status == err.status.value && status != 0
  {
    if StatusFalsy(err) then 500 else err.status.value
  }

  /** What the stage does with `err`: one response carrying its message, then `next()` only when a status was set. */
  function Handle(err: HttpError): (effects: seq<Effect>)
    ensures |effects| >= 1 && effects[0] == Respond(StatusOf(err), Message(err.message))
    ensures StatusFalsy(err) ==> |effects| == 1
    ensures !StatusFalsy(err) ==> effects == [effects[0], Next(None)]
    ensures forall i :: 0 <= i < |effects| ==> effects[i] != Next(Some(err))
  {
    if StatusFalsy(err) then [Respond(500, Message(err.message))]
    else [Respond(err.status.value, Message(err.message)), Next(None)]
  }

  /** The stage never forwards an error: it writes exactly one response, and any `next` it calls carries nothing. */
  lemma HandleTerminal(err: HttpError)
    ensures |set i | 0 <= i < |Handle(err)| && Handle(err)[i].Respond?| == 1
    ensures forall i :: 0 <= i < |Handle(err)| && Handle(err)[i].Next? ==> Handle(err)[i].err.None?
  {
    var effects := Handle(err);
    if StatusFalsy(err) {
      assert (set i | 0 <= i < |effects| && effects[i].Respond?) == {0};
    } else {
      assert (set i | 0 <= i < |effects| && effects[i].Respond?) == {0};
    }
  }
}
