/** The error value every controller sends back (`src/utils/ApiError.js`):
    its constructor, its JSON form and its static factories. */
module ApiErrors {
  import opened Common

  // The texts the handlers send.
  const ObjectText := "[object Object]"
  const BadRequestText := "Bad Request"
  const ResourceNotFound := "Resource Not Found"
  const InternalServerError := "Internal Server Error"

  datatype ApiError = ApiError(statusCode: Val, message: string, details: Val, success: bool, timestamp: string)

  /** The decimal digits of `n`, as `String(n)` writes them. */
  function Decimal(n: nat): (r: string)
    ensures r != []
    decreases n
  {
    var d := ['0', '1', '2', '3', '4', '5', '6', '7', '8', '9'][n % 10];
    if n < 10 then [d] else Decimal(n / 10) + [d]
  }

  /** The `message` an `Error` ends up with after `super(message)`: an
      undefined argument leaves the empty message, anything else is turned
      into a string. Documents, arrays and objects are not passed as messages
      anywhere in the controllers and are shown as `[object Object]`. */
  function ErrorMessage(m: Val): string
  {
    match m
    case Undefined => ""
    case Null => "null"
    case Bool(b) => if b then "true" else "false"
    case Num(n) => if n < 0 then "-" + Decimal(-n) else Decimal(n)
    case Str(s) => s
    case _ => ObjectText
  }

  /** `new ApiError(statusCode, message, details = null)`, created at time `now`. */
  function New(statusCode: Val, message: Val, details: Val, now: string): (e: ApiError)
    ensures !e.success
    ensures e.statusCode == statusCode && e.timestamp == now
    ensures message.Str? ==> e.message == message.s
    ensures details == Undefined ==> e.details == Null
    ensures details != Undefined ==> e.details == details
  {
    ApiError(statusCode, ErrorMessage(message), if details == Undefined then Null else details, false, now)
  }

  /** `toJSON()`: exactly the five fields of the error. */
  function ToJson(e: ApiError): (j: Val)
    ensures j.Obj? && j.fields.Keys == {"statusCode", "success", "message", "details", "timestamp"}
    ensures j.fields["statusCode"] == e.statusCode && j.fields["success"] == Bool(e.success)
    ensures j.fields["message"] == Str(e.message) && j.fields["details"] == e.details
    ensures j.fields["timestamp"] == Str(e.timestamp)
  {
    Obj(map[
      "statusCode" := e.statusCode,
      "success" := Bool(e.success),
      "message" := Str(e.message),
      "details" := e.details,
      "timestamp" := Str(e.timestamp)])
  }

  /** Reads an error back from its JSON form: the inverse of `ToJson`. */
  function FromJson(j: Val): (e: Option<ApiError>)
  {
    if j.Obj? && j.fields.Keys == {"statusCode", "success", "message", "details", "timestamp"}
       && j.fields["success"].Bool? && j.fields["message"].Str? && j.fields["timestamp"].Str?
    then Some(ApiError(j.fields["statusCode"], j.fields["message"].s, j.fields["details"],
                       j.fields["success"].b, j.fields["timestamp"].s))
    else None
  }

  /** `toJSON()` loses nothing: every field of the error can be read back,
      so two errors with the same JSON are the same error. */
  lemma JsonRoundTrip(e: ApiError, e': ApiError)
    ensures FromJson(ToJson(e)) == Some(e)
    ensures ToJson(e) == ToJson(e') ==> e == e'
  {
    assert FromJson(ToJson(e)) == Some(e);
    assert FromJson(ToJson(e')) == Some(e');
  }

  /** A JavaScript default parameter: `p = d` applies `d` only to undefined. */
  function Default(p: Val, d: string): Val
  {
    if p == Undefined then Str(d) else p
  }

  function BadRequest(message: Val, details: Val, now: string): ApiError
  {
    New(Num(400), Default(message, BadRequestText), details, now)
  }

  function Unauthorized(message: Val, now: string): ApiError
  {
    New(Num(401), Default(message, "Unauthorized"), Undefined, now)
  }

  function Forbidden(message: Val, now: string): ApiError
  {
    New(Num(403), Default(message, "Forbidden"), Undefined, now)
  }

  function NotFound(message: Val, now: string): ApiError
  {
    New(Num(404), Default(message, ResourceNotFound), Undefined, now)
  }

  function Internal(message: Val, details: Val, now: string): ApiError
  {
    New(Num(500), Default(message, InternalServerError), details, now)
  }

  /** Each factory fixes its status code, and every error it makes reports
      `success: false`. */
  lemma FactoryCodes(message: Val, details: Val, now: string)
    ensures BadRequest(message, details, now).statusCode == Num(400)
    ensures Unauthorized(message, now).statusCode == Num(401)
    ensures Forbidden(message, now).statusCode == Num(403)
    ensures NotFound(message, now).statusCode == Num(404)
    ensures Internal(message, details, now).statusCode == Num(500)
    ensures !BadRequest(message, details, now).success && !Unauthorized(message, now).success
    ensures !Forbidden(message, now).success && !NotFound(message, now).success
    ensures !Internal(message, details, now).success
  {
  }

  /** `unauthorized`, `forbidden` and `notFound` pass no details, so the
      constructor's default leaves them null; the other two keep what they
      are given (an undefined argument becomes null). */
  lemma FactoryDetails(message: Val, details: Val, now: string)
    ensures Unauthorized(message, now).details == Null
    ensures Forbidden(message, now).details == Null
    ensures NotFound(message, now).details == Null
    ensures BadRequest(message, details, now).details == (if details == Undefined then Null else details)
  {
  }

  /** A factory called without a message uses its own default text, and a
      string message is kept as it is. */
  lemma FactoryMessages(m: string, details: Val, now: string)
    ensures BadRequest(Undefined, details, now).message == BadRequestText
    ensures Unauthorized(Undefined, now).message == "Unauthorized"
    ensures Forbidden(Undefined, now).message == "Forbidden"
    ensures NotFound(Undefined, now).message == ResourceNotFound
    ensures Internal(Undefined, details, now).message == InternalServerError
    ensures BadRequest(Str(m), details, now).message == m && Unauthorized(Str(m), now).message == m
    ensures Forbidden(Str(m), now).message == m && NotFound(Str(m), now).message == m
    ensures Internal(Str(m), details, now).message == m
  {
  }

  /** `ApiError.internal(500, text)` (as `signup` calls it) makes the number
      the message and the intended text the details. */
  lemma InternalWithNumberFirst(text: string, now: string)
    ensures Internal(Num(500), Str(text), now).message == "500"
    ensures Internal(Num(500), Str(text), now).details == Str(text)
  {
    assert Decimal(500) == "500" by {
      assert Decimal(5) == "5";
      assert Decimal(50) == "50";
    }
  }
}
