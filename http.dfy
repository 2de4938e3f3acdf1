/** What a handler sends back: the HTTP status and the JSON body, plus the
    session cookie and token claims of the authentication handlers. */
module Http {
  import opened Common
  import opened ApiErrors
  import opened ApiResponses
  import ErrorHandler

  datatype Response = Response(status: int, body: Val)

  /** `res.status(status).json(e)`: the body is the error's `toJSON()`. */
  function ErrorReply(status: int, e: ApiError): Response
  {
    Response(status, ApiErrors.ToJson(e))
  }

  /** `res.status(status).json(a)` for an `ApiResponse`. */
  function OkReply(status: int, a: ApiResponse): Response
  {
    Response(status, ApiResponses.ToJson(a))
  }

  /** `res.status(status).json(new ApiError(status, message, details))`. */
  function Reject(status: int, message: string, details: Val, now: string): (r: Response)
    ensures r.status == status && r.body.Obj?
    ensures r.body.fields.Keys == {"statusCode", "success", "message", "details", "timestamp"}
    ensures r.body.fields["statusCode"] == Num(status) && r.body.fields["success"] == Bool(false)
    ensures r.body.fields["message"] == Str(message) && r.body.fields["timestamp"] == Str(now)
    ensures r.body.fields["details"] == (if details == Undefined then Null else details)
  {
    ErrorReply(status, ApiErrors.New(Num(status), Str(message), details, now))
  }

  /** `res.status(status).json(new ApiResponse(status, data, message))`. */
  function Reply(status: int, data: Val, message: string, now: string): (r: Response)
    ensures r.status == status && r.body.Obj?
    ensures r.body.fields.Keys == {"statusCode", "success", "message", "data", "timestamp"}
    ensures r.body.fields["statusCode"] == Num(status) && r.body.fields["success"] == Bool(200 <= status < 300)
    ensures r.body.fields["message"] == Str(message) && r.body.fields["timestamp"] == Str(now)
    ensures r.body.fields["data"] == (if data == Undefined then Null else data)
  {
    OkReply(status, ApiResponses.New(status, data, Str(message), now))
  }

  /** `next(e)`: the error handler answers, with the error's own numeric
      status, its message and timestamp, and its details when they are truthy. */
  function Forward(e: ApiError, now: string): (r: Response)
    requires e.statusCode.Num?
    ensures r.status == e.statusCode.n && r.body.Obj?
    ensures r.body.fields.Keys == {"success", "message", "details", "timestamp"}
    ensures r.body.fields["success"] == Bool(false) && r.body.fields["message"] == Str(e.message)
    ensures r.body.fields["timestamp"] == Str(e.timestamp)
    ensures r.body.fields["details"] == (if Truthy(e.details) then e.details else Null)
  {
    Response(e.statusCode.n, ErrorHandler.Handle(ErrorHandler.Api(e), now).body)
  }

  /** `next(err)` with an error that is not an `ApiError`: a generic 500. */
  function ForwardOther(now: string): (r: Response)
    ensures r.status == 500
    ensures r.body == Obj(map["success" := Bool(false), "message" := Str(ErrorHandler.InternalServerError),
                              "timestamp" := Str(now)])
  {
    Response(500, ErrorHandler.Handle(ErrorHandler.Other, now).body)
  }

  /** The claims `generateToken` signs: id, email and role, valid for 7 days. */
  datatype Claims = Claims(id: Id, email: string, role: string)

  const TokenLifetime := "7d"

  /** The cookie options of `signup` and `signin`. */
  datatype Cookie = Cookie(name: string, value: string, httpOnly: bool, secure: bool, sameSite: string, maxAge: nat)

  /** Seven days, in milliseconds. */
  const SessionMaxAge: nat := 1000 * 60 * 60 * 24 * 7

  /** The `jwt` cookie holding `token`; `secure` only in production. */
  function SessionCookie(token: string, production: bool): (c: Cookie)
    ensures c.name == "jwt" && c.value == token && c.httpOnly && c.secure == production
    ensures c.sameSite == "none" && c.maxAge == 604800000
  {
    Cookie("jwt", token, true, production, "none", SessionMaxAge)
  }
}
