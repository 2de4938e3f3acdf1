/** The per-request gate `protect` (`src/middleware/auth.middleware.js`): it
    takes the token from the `jwt` cookie or the Authorization header,
    verifies it, and looks the user up afresh. JWT verification is the
    parameter `decode`, which yields the signed claims or nothing (a bad
    signature, an expired token, a malformed one). */
module AuthMiddleware {
  import opened Common
  import opened Text
  import opened ApiErrors
  import opened Users
  import opened Http

  /** `req.cookies?.jwt || req.headers.authorization?.split(' ')[1]` */
  function ExtractToken(cookie: Option<string>, authorization: Option<string>): (t: Option<string>)
    ensures Given(cookie) ==> t == cookie
    ensures !Given(cookie) && authorization.None? ==> t.None?
    ensures !Given(cookie) && authorization.Some? ==> t == SecondField(authorization.value)
  {
    if Given(cookie) then cookie
    else if authorization.Some? then SecondField(authorization.value)
    else None
  }

  /** Where the request goes next: on to the handler with `req.user` set to
      the stored user, or to the error handler with a status and message. */
  datatype Outcome = Next(user: Id) | Fail(status: int, message: string)

  const TokenMissing := "Not authorized, token missing"
  const TokenFailed := "Not authorized, token failed"
  const UserNotFound := "User not found"

  function Protect(users: map<Id, User>, cookie: Option<string>, authorization: Option<string>,
                   decode: string -> Option<Claims>): (o: Outcome)
    ensures o.Next? <==>
              && Given(ExtractToken(cookie, authorization))
              && decode(ExtractToken(cookie, authorization).value).Some?
              && decode(ExtractToken(cookie, authorization).value).value.id in users
    ensures o.Next? ==> o.user == decode(ExtractToken(cookie, authorization).value).value.id
    ensures o.Fail? ==> o.status in {401, 404}
  {
    var token := ExtractToken(cookie, authorization);
    if !Given(token) then Fail(401, TokenMissing)
    else match decode(token.value)
      case None => Fail(401, TokenFailed)
      case Some(c) => if c.id in users then Next(c.id) else Fail(404, UserNotFound)
  }

  /** `next(new ApiError(status, message))`, answered by the error handler. */
  function FailReply(o: Outcome, now: string): (r: Response)
    requires o.Fail?
    ensures r.status == o.status
  {
    Forward(New(Num(o.status), Str(o.message), Undefined, now), now)
  }

  // ---- properties ----

  /** The cookie wins; without one, the token is the second word of
      `Authorization: Bearer <token>`. */
  lemma BearerHeader(token: string)
    requires ' ' !in token
    ensures ExtractToken(None, Some("Bearer " + token)) == Some(token)
    ensures ExtractToken(Some(""), Some("Bearer " + token)) == Some(token)
  {
    SecondFieldOfPair("Bearer", token);
  }

  /** No token (no cookie, no header, a header without a second word, or an
      empty one) is a 401 "token missing", whatever the store holds. */
  lemma MissingToken(users: map<Id, User>, cookie: Option<string>, authorization: Option<string>,
                     decode: string -> Option<Claims>)
    requires !Given(ExtractToken(cookie, authorization))
    ensures Protect(users, cookie, authorization, decode) == Fail(401, TokenMissing)
  {
  }

  /** A token that does not verify is a 401 "token failed". */
  lemma BadToken(users: map<Id, User>, cookie: Option<string>, authorization: Option<string>,
                 decode: string -> Option<Claims>)
    requires Given(ExtractToken(cookie, authorization))
    requires decode(ExtractToken(cookie, authorization).value).None?
    ensures Protect(users, cookie, authorization, decode) == Fail(401, TokenFailed)
  {
  }

  /** A verified token for a user who is no longer stored is a 404. */
  lemma DeletedUser(users: map<Id, User>, token: string, c: Claims, decode: string -> Option<Claims>)
    requires token != "" && decode(token) == Some(c) && c.id !in users
    ensures Protect(users, Some(token), None, decode) == Fail(404, UserNotFound)
  {
  }

  /** A token issued by `sign` for a stored user lets the request through,
      with that user, whatever the user's status: an inactive user passes. */
  lemma IssuedTokenPasses(users: map<Id, User>, c: Claims, sign: Claims -> string,
                          decode: string -> Option<Claims>)
    requires forall x :: decode(sign(x)) == Some(x)
    requires c.id in users && sign(c) != ""
    ensures Protect(users, Some(sign(c)), None, decode) == Next(c.id)
    ensures users[c.id].status == "inactive" ==> Protect(users, Some(sign(c)), None, decode).Next?
  {
    assert decode(sign(c)) == Some(c);
  }

  /** The gate reads nothing but the token and the presence of the user, so
      changing any stored user leaves its verdict unchanged. */
  lemma IgnoresUserContents(users: map<Id, User>, k: Id, u: User, cookie: Option<string>,
                            authorization: Option<string>, decode: string -> Option<Claims>)
    requires k in users
    ensures Protect(users[k := u], cookie, authorization, decode) == Protect(users, cookie, authorization, decode)
  {
  }
}
