/** Sign-up and sign-in (`src/controllers/auth.controller.js`). Each is a
    chain of checks, stated as a pure function over the store, and a method
    that performs the writes the chain calls for: the new user and the
    roster push of sign-up, the franchise link sign-in backfills. Token
    signing is the parameter `sign`; the bcrypt salt is the parameter `salt`. */
module Auth {
  import opened Common
  import opened ApiErrors
  import opened ApiResponses
  import opened Users
  import opened Franchises
  import opened Store
  import opened Http
  import opened Media

  // The messages the handlers send.
  const AllFieldsRequired := "All fields are required"
  const UserExists := "User with this email or contact already exists"
  const FranchiseNotFound := "Franchise not found"
  const AvatarRequired := "Avatar file is required"
  const AvatarUploadFailed := "Avatar upload failed. Please try again."
  const SignupFailed := "Something went wrong while registering user"
  const SignupDone := "User registered successfully"
  const SigninFailed := "Something went wrong while logging in"
  const OwnFranchiseInactive := "Your franchise account is inactive. Please contact the administrator."
  const AgentFranchiseInactive := "Your franchise is inactive. Please contact the administrator."
  const CredentialsRequired := "Identifier (email/contact) and password are required"
  const NoSuchUser := "User does not exist"
  const InvalidCredentials := "Invalid credentials"
  const AccountInactive := "Your account is inactive. Please contact the administrator."
  const SigninDone := "Login successful"

  /** A check that stops the request, with its status and error value. */
  datatype Refusal = Refusal(status: int, reason: ApiError)

  // ---------------------------------------------------------------- signup

  /** The fields `signup` reads from the body; `None` is an absent field. */
  datatype SignupBody = SignupBody(
    name: Option<string>,
    contact: Option<string>,
    email: Option<string>,
    password: Option<string>,
    role: Option<string>,
    franchise: Option<Id>)

  /** `allowedRoles.includes(role) ? role : 'user'` */
  function FinalRole(role: Option<string>): (r: string)
    ensures r in Roles
    ensures role.Some? && role.value in Roles ==> r == role.value
    ensures role.None? || role.value !in Roles ==> r == "user"
  {
    if role.Some? && role.value in {"user", "agent", "franchise", "superadmin"} then role.value else "user"
  }

  predicate SignupFieldsGiven(b: SignupBody)
  {
    Given(b.name) && Given(b.contact) && Given(b.email) && Given(b.password)
  }

  /** The signup checks up to `User.create`: what stops the request, or the
      user about to be inserted. `avatarFile` says whether a file came with
      the request and `upload` is what the media service returned for it. */
  function SignupGate(users: map<Id, User>, franchises: map<Id, Franchise>, n: nat, b: SignupBody,
                      avatarFile: bool, upload: Option<Uploaded>, salt: nat, now: string): (g: Result<User, Refusal>)
    ensures g.Err? ==> g.error.status in {400, 404, 409, 500}
    ensures g.Ok? ==> SignupFieldsGiven(b)
  {
    if !SignupFieldsGiven(b) then
      Err(Refusal(400, BadRequest(Str(AllFieldsRequired), Undefined, now)))
    else if UserWithEither(users, b.email.value, b.contact.value, n).Some? then
      Err(Refusal(409, ApiErrors.New(Str(UserExists), Undefined, Undefined, now)))
    else if b.franchise.Some? && b.franchise.value !in franchises then
      Err(Refusal(404, NotFound(Str(FranchiseNotFound), now)))
    else if !avatarFile then
      Err(Refusal(400, BadRequest(Str(AvatarRequired), Undefined, now)))
    else if upload.None? || upload.value.url == "" then
      Err(Refusal(500, Internal(Str(AvatarUploadFailed), Undefined, now)))
    else
      var f := Users.NewFields(b.name.value, b.contact.value, b.email.value, b.password.value,
                         Some(FinalRole(b.role)), Some(upload.value.url), b.franchise, None);
      match Users.Create(f, salt)
      case Err(_) => Err(Refusal(500, Internal(Num(500), Str(SignupFailed), now)))
      case Ok(u) => Ok(u)
  }

  /** Missing fields are refused with 400 before the store is read. */
  lemma SignupMissingFields(users: map<Id, User>, franchises: map<Id, Franchise>, n: nat, b: SignupBody,
                            avatarFile: bool, upload: Option<Uploaded>, salt: nat, now: string)
    requires !SignupFieldsGiven(b)
    ensures SignupGate(users, franchises, n, b, avatarFile, upload, salt, now).Err?
    ensures SignupGate(users, franchises, n, b, avatarFile, upload, salt, now).error.status == 400
    ensures SignupGate(users, franchises, n, b, avatarFile, upload, salt, now)
         == SignupGate(map[], map[], 0, b, avatarFile, upload, salt, now)
  {
  }

  /** The order of the checks: a taken email or contact (409) comes before
      an unknown franchise (404), which comes before a missing avatar (400). */
  lemma SignupCheckOrder(users: map<Id, User>, franchises: map<Id, Franchise>, n: nat, b: SignupBody,
                         avatarFile: bool, upload: Option<Uploaded>, salt: nat, now: string)
    requires SignupFieldsGiven(b)
    ensures var g := SignupGate(users, franchises, n, b, avatarFile, upload, salt, now);
      && (UserWithEither(users, b.email.value, b.contact.value, n).Some? ==> g.Err? && g.error.status == 409)
      && ((UserWithEither(users, b.email.value, b.contact.value, n).None?
           && b.franchise.Some? && b.franchise.value !in franchises) ==> g.Err? && g.error.status == 404)
      && ((UserWithEither(users, b.email.value, b.contact.value, n).None?
           && (b.franchise.None? || b.franchise.value in franchises) && !avatarFile) ==> g.Err? && g.error.status == 400)
  {
  }

  /** The user that passes the checks: the normalised role, the uploaded
      avatar, the given franchise, a hash of the given password, and the
      save hook's status (inactive for an agent, active otherwise). */
  lemma SignupUser(users: map<Id, User>, franchises: map<Id, Franchise>, n: nat, b: SignupBody,
                   avatarFile: bool, upload: Option<Uploaded>, salt: nat, now: string)
    requires SignupGate(users, franchises, n, b, avatarFile, upload, salt, now).Ok?
    ensures var u := SignupGate(users, franchises, n, b, avatarFile, upload, salt, now).value;
      && u.role == FinalRole(b.role)
      && u.status == (if u.role == "agent" then "inactive" else "active")
      && u.franchise == b.franchise && upload.Some? && u.avatar == upload.value.url
      && u.email == NormEmail(b.email.value)
      && ComparePassword(b.password.value, u.password)
  {
  }

  /** The role is taken from the body when it is one of the four schema
      roles, so `signup` creates `superadmin` and `franchise` accounts on
      request; anything else becomes `user`. */
  lemma SignupTakesAnySchemaRole(users: map<Id, User>, franchises: map<Id, Franchise>, n: nat, b: SignupBody,
                                 avatarFile: bool, upload: Option<Uploaded>, salt: nat, now: string)
    requires SignupGate(users, franchises, n, b, avatarFile, upload, salt, now).Ok?
    ensures b.role == Some("superadmin") ==> SignupGate(users, franchises, n, b, avatarFile, upload, salt, now).value.role == "superadmin"
    ensures b.role == Some("admin") ==> SignupGate(users, franchises, n, b, avatarFile, upload, salt, now).value.role == "user"
  {
  }

  /** The pre-check covers both unique indexes with the same normalisation
      as the insert, so a user that passes the checks never hits a
      duplicate-key error: the 11000 branch of the handler's catch cannot be
      reached by a single request. */
  lemma SignupNoDuplicate(users: map<Id, User>, franchises: map<Id, Franchise>, n: nat, b: SignupBody,
                          avatarFile: bool, upload: Option<Uploaded>, salt: nat, now: string)
    requires forall k :: k in users ==> k < n
    requires SignupGate(users, franchises, n, b, avatarFile, upload, salt, now).Ok?
    ensures !UserClash(users, SignupGate(users, franchises, n, b, avatarFile, upload, salt, now).value, n)
  {
    var u := SignupGate(users, franchises, n, b, avatarFile, upload, salt, now).value;
    assert UserWithEither(users, b.email.value, b.contact.value, n).None?;
    assert u.email == NormEmail(b.email.value) && u.contact == NormText(b.contact.value);
  }

  /** The 201 body: the new user (by id) and its token. */
  function SignupBodyOk(id: Id, token: string, now: string): Val
  {
    ApiResponses.ToJson(ApiResponses.New(201, Obj(map["user" := Ref(id), "token" := Str(token)]),
                                         Str(SignupDone), now))
  }

  method Signup(db: Db, b: SignupBody, avatarFile: bool, upload: Option<Uploaded>, salt: nat,
                sign: Claims -> string, production: bool, now: string)
    returns (r: Response, cookie: Option<Cookie>)
    requires db.Valid()
    modifies db`users, db`franchises, db`nextId
    ensures db.Valid()
    ensures var g := SignupGate(old(db.users), old(db.franchises), old(db.nextId), b, avatarFile, upload, salt, now);
      && (g.Err? ==> r == ErrorReply(g.error.status, g.error.reason) && cookie.None?
                     && db.users == old(db.users) && db.franchises == old(db.franchises) && db.nextId == old(db.nextId))
      && (g.Ok? ==>
            var id := old(db.nextId);
            var token := sign(Claims(id, g.value.email, g.value.role));
            && db.users == old(db.users)[id := g.value] && db.nextId == id + 1
            && db.franchises == (if g.value.role == "agent" && b.franchise.Some?
                                 then WithAgent(old(db.franchises), b.franchise.value, id)
                                 else old(db.franchises))
            && r == Response(201, SignupBodyOk(id, token, now))
            && cookie == Some(SessionCookie(token, production)))
  {
    var g := SignupGate(db.users, db.franchises, db.nextId, b, avatarFile, upload, salt, now);
    if g.Err? {
      return ErrorReply(g.error.status, g.error.reason), None;
    }
    var u := g.value;
    SignupNoDuplicate(db.users, db.franchises, db.nextId, b, avatarFile, upload, salt, now);
    var id := db.InsertUser(u);
    var uid := id.value;
    if u.role == "agent" && b.franchise.Some? {
      db.PushAgent(b.franchise.value, uid);
    }
    var token := sign(Claims(uid, u.email, u.role));
    r := Response(201, SignupBodyOk(uid, token, now));
    cookie := Some(SessionCookie(token, production));
  }

  // ---------------------------------------------------------------- signin

  datatype SigninBody = SigninBody(
    identifier: Option<string>,
    email: Option<string>,
    contact: Option<string>,
    password: Option<string>)

  /** The outcome of the checks: the user found (if any), the franchise id to
      backfill into it (written before the final verdict), and the verdict. */
  datatype SigninResult = SigninResult(who: Option<Id>, link: Option<Id>, verdict: Result<Id, Refusal>)

  const Blocked: set<string> := {"inactive", "pending", "rejected"}

  function LoginFailure(now: string): Refusal
  {
    Refusal(500, Internal(Str(SigninFailed), Undefined, now))
  }

  /** The franchise stage for a franchise-role user `u` (stored as `uid`):
      the franchise with the user's exact email is linked when the user has
      none; a missing franchise makes line 190 read `null.status`, which
      throws; a blocked franchise is a 403. */
  function FranchiseStage(franchises: map<Id, Franchise>, n: nat, uid: Id, u: User, now: string): (s: SigninResult)
    ensures s.who == Some(uid)
    ensures s.link.Some? ==> u.franchise.None?
    ensures s.verdict.Ok? ==> s.verdict.value == uid
    ensures s.verdict.Err? ==> s.verdict.error.status in {403, 500}
  {
    var fid := FranchiseWithEmail(franchises, u.email, n);
    var link := if fid.Some? && u.franchise.None? then fid else None;
    if link.Some? && Users.Resave(u.(franchise := link)).Err? then SigninResult(Some(uid), None, Err(LoginFailure(now)))
    else if fid.None? then SigninResult(Some(uid), link, Err(LoginFailure(now)))
    else if franchises[fid.value].status in Blocked then
      SigninResult(Some(uid), link, Err(Refusal(403, Forbidden(Str(OwnFranchiseInactive), now))))
    else SigninResult(Some(uid), link, Ok(uid))
  }

  /** The agent stage: only a stored franchise with a blocked status stops
      an agent; no franchise, or a dangling reference, lets it through. */
  function AgentStage(franchises: map<Id, Franchise>, uid: Id, u: User, now: string): (v: Result<Id, Refusal>)
  {
    if u.franchise.Some? && u.franchise.value in franchises && franchises[u.franchise.value].status in Blocked then
      Err(Refusal(403, Forbidden(Str(AgentFranchiseInactive), now)))
    else Ok(uid)
  }

  function SigninGate(users: map<Id, User>, franchises: map<Id, Franchise>, n: nat, b: SigninBody,
                      now: string): (s: SigninResult)
    ensures s.who.Some? ==> s.who.value in users
    ensures s.link.Some? ==> s.who.Some? && users[s.who.value].franchise.None?
    ensures s.verdict.Ok? ==> s.who == Some(s.verdict.value)
    ensures s.verdict.Err? ==> s.verdict.error.status in {400, 401, 403, 404, 500}
  {
    var id := FirstGiven(b.identifier, b.email, b.contact);
    if id.None? || !Given(b.password) then
      SigninResult(None, None, Err(Refusal(400, BadRequest(Str(CredentialsRequired), Undefined, now))))
    else match UserWithLogin(users, id.value, n)
      case None => SigninResult(None, None, Err(Refusal(404, NotFound(Str(NoSuchUser), now))))
      case Some(uid) =>
        var u := users[uid];
        if !ComparePassword(b.password.value, u.password) then
          SigninResult(Some(uid), None, Err(Refusal(401, Unauthorized(Str(InvalidCredentials), now))))
        else if u.status in Blocked then
          SigninResult(Some(uid), None, Err(Refusal(403, Forbidden(Str(AccountInactive), now))))
        else if u.role == "franchise" then FranchiseStage(franchises, n, uid, u, now)
        else if u.role == "agent" then SigninResult(Some(uid), None, AgentStage(franchises, uid, u, now))
        else SigninResult(Some(uid), None, Ok(uid))
  }

  /** The store after the backfill. */
  function Backfilled(users: map<Id, User>, s: SigninResult): map<Id, User>
    requires s.link.Some? ==> s.who.Some? && s.who.value in users
  {
    if s.link.Some? then users[s.who.value := users[s.who.value].(franchise := s.link)] else users
  }

  /** Without an identifier (from `identifier`, `email` or `contact`) or a
      password the answer is 400, whatever the store holds. */
  lemma SigninMissingInput(users: map<Id, User>, franchises: map<Id, Franchise>, n: nat, b: SigninBody, now: string)
    requires FirstGiven(b.identifier, b.email, b.contact).None? || !Given(b.password)
    ensures SigninGate(users, franchises, n, b, now).verdict.Err?
    ensures SigninGate(users, franchises, n, b, now).verdict.error.status == 400
    ensures SigninGate(users, franchises, n, b, now) == SigninGate(map[], map[], 0, b, now)
  {
  }

  /** The order of the first checks: no user with that email or contact is
      404; then a wrong password is 401; then a blocked account is 403. */
  lemma SigninCheckOrder(users: map<Id, User>, franchises: map<Id, Franchise>, n: nat, b: SigninBody, now: string)
    requires FirstGiven(b.identifier, b.email, b.contact).Some? && Given(b.password)
    ensures var x := FirstGiven(b.identifier, b.email, b.contact).value;
      var s := SigninGate(users, franchises, n, b, now);
      && (UserWithLogin(users, x, n).None? ==> s.verdict == Err(Refusal(404, NotFound(Str(NoSuchUser), now))))
      && (UserWithLogin(users, x, n).Some? && !ComparePassword(b.password.value, users[UserWithLogin(users, x, n).value].password)
          ==> s.verdict.Err? && s.verdict.error.status == 401 && s.link.None?)
      && (UserWithLogin(users, x, n).Some? && ComparePassword(b.password.value, users[UserWithLogin(users, x, n).value].password)
          && users[UserWithLogin(users, x, n).value].status in Blocked
          ==> s.verdict.Err? && s.verdict.error.status == 403 && s.link.None?)
  {
  }

  /** A franchise-role user with no franchise stored under its email makes
      the sign-in fail with 500 (the `null.status` read). */
  lemma FranchiseWithoutDocument(users: map<Id, User>, franchises: map<Id, Franchise>, n: nat, b: SigninBody,
                                 now: string, uid: Id)
    requires SigninGate(users, franchises, n, b, now).who == Some(uid)
    requires ComparePassword(b.password.GetOr(""), users[uid].password) && users[uid].status !in Blocked
    requires users[uid].role == "franchise" && FranchiseWithEmail(franchises, users[uid].email, n).None?
    ensures SigninGate(users, franchises, n, b, now).verdict == Err(LoginFailure(now))
  {
  }

  /** A stored agent whose password matches and whose account is not blocked
      is admitted unless its franchise is stored and blocked: an agent with
      no franchise, or with a deleted one, signs in. */
  lemma AgentAdmission(users: map<Id, User>, franchises: map<Id, Franchise>, n: nat, b: SigninBody,
                       now: string, uid: Id)
    requires SigninGate(users, franchises, n, b, now).who == Some(uid)
    requires ComparePassword(b.password.GetOr(""), users[uid].password) && users[uid].status !in Blocked
    requires users[uid].role == "agent"
    ensures var f := users[uid].franchise;
      SigninGate(users, franchises, n, b, now).verdict.Ok?
      <==> (f.None? || f.value !in franchises || franchises[f.value].status !in Blocked)
  {
  }

  /** A franchise-role user whose password matches, whose account is not
      blocked and whose franchise is stored under its email: when the user
      has no franchise yet the link is written first, and a failing save
      makes the answer 500; otherwise the user is refused with 403 exactly
      when the franchise's status is blocked, and admitted when it is not. */
  lemma FranchiseAdmission(users: map<Id, User>, franchises: map<Id, Franchise>, n: nat, b: SigninBody,
                           now: string, uid: Id, fid: Id)
    requires SigninGate(users, franchises, n, b, now).who == Some(uid)
    requires ComparePassword(b.password.GetOr(""), users[uid].password) && users[uid].status !in Blocked
    requires users[uid].role == "franchise" && FranchiseWithEmail(franchises, users[uid].email, n) == Some(fid)
    ensures var s := SigninGate(users, franchises, n, b, now);
      var u := users[uid];
      var saveFails := u.franchise.None? && Users.Resave(u.(franchise := Some(fid))).Err?;
      && (saveFails ==> s.verdict == Err(LoginFailure(now)) && s.link.None?)
      && (!saveFails ==> s.link == (if u.franchise.None? then Some(fid) else None))
      && (!saveFails && franchises[fid].status in Blocked
          ==> s.verdict == Err(Refusal(403, Forbidden(Str(OwnFranchiseInactive), now))))
      && (s.verdict.Ok? <==> !saveFails && franchises[fid].status !in Blocked)
  {
  }

  /** A user or superadmin whose password matches and whose account is not
      blocked is admitted, with nothing written: no franchise is consulted. */
  lemma PlainRoleAdmission(users: map<Id, User>, franchises: map<Id, Franchise>, n: nat, b: SigninBody,
                           now: string, uid: Id)
    requires SigninGate(users, franchises, n, b, now).who == Some(uid)
    requires ComparePassword(b.password.GetOr(""), users[uid].password) && users[uid].status !in Blocked
    requires users[uid].role in {"user", "superadmin"}
    ensures SigninGate(users, franchises, n, b, now).verdict == Ok(uid)
    ensures SigninGate(users, franchises, n, b, now).link.None?
    ensures SigninGate(users, franchises, n, b, now) == SigninGate(users, map[], n, b, now)
  {
  }

  /** A new agent is inactive (the save hook), so it cannot sign in until its
      status is toggled, even with the right password. */
  lemma NewAgentCannotSignIn(users: map<Id, User>, franchises: map<Id, Franchise>, n: nat, b: SigninBody,
                             now: string, uid: Id)
    requires SigninGate(users, franchises, n, b, now).who == Some(uid)
    requires users[uid].status == "inactive"
    ensures SigninGate(users, franchises, n, b, now).verdict.Err?
    ensures SigninGate(users, franchises, n, b, now).verdict.error.status in {401, 403}
  {
  }

  /** Once the link is written, the franchise stage writes nothing more and
      reaches the same verdict. */
  lemma FranchiseStageAfterLink(franchises: map<Id, Franchise>, n: nat, uid: Id, u: User, now: string)
    requires FranchiseStage(franchises, n, uid, u, now).link.Some?
    ensures var s := FranchiseStage(franchises, n, uid, u, now);
      var t := FranchiseStage(franchises, n, uid, u.(franchise := s.link), now);
      t.link.None? && t.verdict == s.verdict
  {
  }

  /** The backfill is idempotent: once it has been written, signing in again
      writes nothing and reaches the same verdict. */
  lemma BackfillIdempotent(users: map<Id, User>, franchises: map<Id, Franchise>, n: nat,
                           b: SigninBody, now: string)
    requires SigninGate(users, franchises, n, b, now).link.Some?
    ensures var s := SigninGate(users, franchises, n, b, now);
      var t := SigninGate(Backfilled(users, s), franchises, n, b, now);
      t.link.None? && t.verdict == s.verdict && t.who == s.who
  {
    var s := SigninGate(users, franchises, n, b, now);
    var uid := s.who.value;
    var u := users[uid];
    var v := u.(franchise := s.link);
    var x := FirstGiven(b.identifier, b.email, b.contact).value;
    assert UserWithLogin(users, x, n) == Some(uid);
    UserWithLoginAfterWrite(users, x, n, uid, v);
    FranchiseStageAfterLink(franchises, n, uid, u, now);
    assert Backfilled(users, s)[uid] == v;
  }

  /** Rewriting the found user with the same email and contact does not
      change which user the login finds. */
  lemma UserWithLoginAfterWrite(users: map<Id, User>, x: string, n: nat, uid: Id, v: User)
    requires UserWithLogin(users, x, n) == Some(uid)
    requires v.email == users[uid].email && v.contact == users[uid].contact
    ensures UserWithLogin(users[uid := v], x, n) == Some(uid)
  {
    var p := (w: User) => w.email == NormEmail(x) || w.contact == NormText(x);
    FirstWhereAfterWrite(users, p, n, uid, v);
  }

  /** The 200 body: the user (by id) and its token. */
  function SigninBodyOk(id: Id, token: string, now: string): Val
  {
    ApiResponses.ToJson(ApiResponses.New(200, Obj(map["user" := Ref(id), "token" := Str(token)]),
                                         Str(SigninDone), now))
  }

  method Signin(db: Db, b: SigninBody, sign: Claims -> string, production: bool, now: string)
    returns (r: Response, cookie: Option<Cookie>)
    requires db.Valid()
    modifies db`users
    ensures db.Valid()
    ensures var s := SigninGate(old(db.users), old(db.franchises), old(db.nextId), b, now);
      && db.users == Backfilled(old(db.users), s)
      && cookie == SigninCookie(old(db.users), old(db.franchises), old(db.nextId), b, sign, production, now)
      && (s.verdict.Err? ==> r == ErrorReply(s.verdict.error.status, s.verdict.error.reason) && cookie.None?)
      && (s.verdict.Ok? ==>
            var u := db.users[s.verdict.value];
            var token := sign(Claims(s.verdict.value, u.email, u.role));
            r == Response(200, SigninBodyOk(s.verdict.value, token, now))
            && cookie == Some(SessionCookie(token, production)))
  {
    var s := SigninGate(db.users, db.franchises, db.nextId, b, now);
    if s.link.Some? {
      var uid := s.who.value;
      var v := db.users[uid].(franchise := s.link);
      SameKeysNoClash(db.users, uid, v);
      var ok := db.PutUser(uid, v);
    }
    if s.verdict.Err? {
      return ErrorReply(s.verdict.error.status, s.verdict.error.reason), None;
    }
    var id := s.verdict.value;
    var u := db.users[id];
    var token := sign(Claims(id, u.email, u.role));
    r := Response(200, SigninBodyOk(id, token, now));
    cookie := Some(SessionCookie(token, production));
  }

  /** The cookie `signin` sets: none on a refusal, otherwise the session
      cookie holding the token signed for the admitted user. */
  function SigninCookie(users: map<Id, User>, franchises: map<Id, Franchise>, n: nat, b: SigninBody,
                        sign: Claims -> string, production: bool, now: string): Option<Cookie>
  {
    var s := SigninGate(users, franchises, n, b, now);
    if s.verdict.Err? then None
    else
      var u := users[s.verdict.value];
      Some(SessionCookie(sign(Claims(s.verdict.value, u.email, u.role)), production))
  }

  /** Under a verifier that accepts what `sign` produced, the cookie of a
      sign-in is set exactly when the sign-in is admitted, and its token
      decodes to the id, email and role of the user the login found. */
  lemma SigninTokenClaims(users: map<Id, User>, franchises: map<Id, Franchise>, n: nat, b: SigninBody,
                          sign: Claims -> string, decode: string -> Option<Claims>, production: bool, now: string)
    requires forall x :: decode(sign(x)) == Some(x)
    ensures var s := SigninGate(users, franchises, n, b, now);
      var c := SigninCookie(users, franchises, n, b, sign, production, now);
      && (c.Some? <==> s.verdict.Ok?)
      && (c.Some? ==>
            var id := s.verdict.value;
            && FirstGiven(b.identifier, b.email, b.contact).Some?
            && UserWithLogin(users, FirstGiven(b.identifier, b.email, b.contact).value, n) == Some(id)
            && decode(c.value.value) == Some(Claims(id, users[id].email, users[id].role)))
  {
  }
}
