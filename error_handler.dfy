/** The terminal Express error handler (`src/middleware/errorHandler.js`). */
module ErrorHandler {
  import opened Common
  import opened ApiErrors

  // The texts the handlers send.
  const InternalServerError := "Internal Server Error"

  /** What reaches the handler: an `ApiError`, or any other thrown value
      (its content never reaches the reply, so only its presence is modelled). */
  datatype Thrown = Api(e: ApiError) | Other

  /** The HTTP status (as the error holds it) and the JSON body. */
  datatype Reply = Reply(status: Val, body: Val)

  /** An `ApiError` keeps its status code, message and timestamp and reports a
      falsy `details` as null; anything else becomes a 500 with a fixed message
      stamped `now`. The body never carries a `statusCode` field. */
  function Handle(err: Thrown, now: string): (r: Reply)
    ensures r.body.Obj? && "success" in r.body.fields && r.body.fields["success"] == Bool(false)
    ensures "statusCode" !in r.body.fields
    ensures err.Api? ==>
              && r.status == err.e.statusCode
              && r.body.fields.Keys == {"success", "message", "details", "timestamp"}
              && r.body.fields["message"] == Str(err.e.message)
              && r.body.fields["timestamp"] == Str(err.e.timestamp)
              && r.body.fields["details"] == (if Truthy(err.e.details) then err.e.details else Null)
    ensures err.Other? ==>
              && r.status == Num(500)
              && r.body == Obj(map["success" := Bool(false), "message" := Str(InternalServerError),
                                   "timestamp" := Str(now)])
  {
    match err
    case Api(e) =>
      Reply(e.statusCode, Obj(map[
        "success" := Bool(false),
        "message" := Str(e.message),
        "details" := if Truthy(e.details) then e.details else Null,
        "timestamp" := Str(e.timestamp)]))
    case Other =>
      Reply(Num(500), Obj(map[
        "success" := Bool(false),
        "message" := Str(InternalServerError),
        "timestamp" := Str(now)]))
  }

  /** What a controller's `next(new ApiError(code, message))` produces: the
      code as the reply status, the message in the body, details null. */
  lemma ForwardedError(code: nat, message: string, now: string, later: string)
    ensures var r := Handle(Api(New(Num(code), Str(message), Undefined, now)), later);
      r.status == Num(code) && r.body.fields["message"] == Str(message)
      && r.body.fields["details"] == Null && r.body.fields["timestamp"] == Str(now)
  {
  }
}
