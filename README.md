# sspropertyguru back end, modelled in Dafny

This project models the core of the sspropertyguru REST back end: an
Express and Mongoose service for a real-estate business, with superadmins,
franchises, the agents working under them, and ordinary users. The model
covers these parts:

- the user and franchise documents: validators, setters, defaults and
  save hooks;
- sign-up and sign-in;
- the `protect` middleware that admits a request on a JWT;
- the controllers for franchises, agents, users, properties,
  notifications, districts, areas, enquiries, requirements and live
  streams;
- the upload file filter;
- the `ApiError` and `ApiResponse` envelopes and the error handler.

The store is the class `Store.Db`:

- Each Mongo collection is a `map` from ids to documents, and the handlers
  update the maps in place.
- New ids come from a counter, so "newest first" means "largest id first".
- The unique indexes (user email and contact, franchise user and email,
  district name) are part of `Db.Valid()`, and every write
  keeps them.
- A write that would break an index fails, as the driver's E11000 error
  does.

Each handler is a module-level method that takes the store `db: Db`
and modifies only the collections it names. Its `ensures` gives the exact
reply and the exact new state for every branch. Pure functions state the
decisions taken before the first write, and lemmas prove what those
decisions mean.

Some things are parameters of the model rather than parts of it:

- bcrypt is `Hash`/`ComparePassword` over a salt parameter. The model
  captures that a hash verifies exactly the text it was made from.
- JWT signing and checking are the functions `sign` and `decode`.
- The upload helper's result is an input to the model.
- The clock enters as the string `now`.
- The text of an error the driver throws enters as `fault`.

Where the code and its documentation disagree, the model follows the code:

- The upload helper returns `{ url, publicId }` and never `secure_url`. So
  a franchise's image, a property's images and its video are never stored
  with a URL. Agents and avatars read `url` and do get one.
- `ApiError.conflict` does not exist, so the duplicate-agent branch of
  `addAgentToFranchise` throws. It ends in the handler's 500 "Server
  error", not in the documented 409.
- `ApiResponse.success(data, message)` is called with the message first
  in the property, district and area handlers and in `updateAgentInFranchise`.
  So those replies carry the text as `data` and the document as `message`.
- In `signup`, the duplicate-key branch passes the message where the
  status code belongs, and the 500 branch passes `500` as the message.
- In `signin`, a franchise-role user without a franchise document reads
  `null.status`. The handler's catch turns that into a 500.
- `deleteNotification` lets role `admin` through, but no user can have that
  role, so in effect only the recipient may delete.
- `getMyProperties` scopes a franchise by its own user id, where the
  properties record the franchise document's id.
- `updateArea` does not check that the name stays unique within its
  district, and `updateEnquiry` does not check the status enum.
- `findOneAndUpdate` runs no save hooks. So the passwords written by
  `editAgent` and `editUser` are stored in plain text, and no password
  verifies against them afterwards.

## Model

| member | source | states |
|---|---|---|
| ApiErrors.New | src/utils/ApiError.js:2-9 | an error never reports success; it keeps the given status code and a string message, stamps the creation time, and a missing `details` becomes null |
| ApiErrors.JsonRoundTrip | src/utils/ApiError.js:10-18 | `toJSON()` loses nothing: reading the five fields back gives the error again, so two errors with the same JSON are equal |
| ApiErrors.FactoryCodes | src/utils/ApiError.js:20-38 | badRequest, unauthorized, forbidden, notFound and internal fix the codes 400, 401, 403, 404 and 500, and every error they make reports `success: false` |
| ApiErrors.FactoryDetails | src/utils/ApiError.js:20-38 | unauthorized, forbidden and notFound always have null details; badRequest keeps the details it is given, with undefined turned into null |
| ApiErrors.FactoryMessages | src/utils/ApiError.js:20-38 | without a message the five factories use "Bad Request", "Unauthorized", "Forbidden", "Resource Not Found" and "Internal Server Error"; each of them keeps a string message unchanged |
| ApiErrors.InternalWithNumberFirst | src/controllers/auth.controller.js:128-132 | `ApiError.internal(500, text)` ends up with "500" as the message and the intended text as the details |
| ApiResponses.New | src/utils/ApiResponse.js:4-10 | an envelope reports success exactly for codes 200 to 299; it keeps the code, stamps the time, and defaults data to null and the message to "Success" |
| ApiResponses.JsonRoundTrip | src/utils/ApiResponse.js:4-10 | the serialised envelope loses nothing: reading its five fields back gives the envelope again, so two envelopes with the same JSON are equal |
| ApiResponses.FactoryCodes | src/utils/ApiResponse.js:12-18 | `created` is always a successful 201; `success` with the default code is a successful 200; with any code outside 2xx it is not a success |
| ApiResponses.SuccessArgumentRoles | src/utils/ApiResponse.js:12-14 | `success(first, second)` puts its first argument in `data` and its second in `message`, so text-first calls swap the two |
| ApiResponses.ConstructorDefaults | src/utils/ApiResponse.js:4 | no data is null and no message is "Success" |
| ErrorHandler.Handle | src/middleware/errorHandler.js:3-21 | an ApiError keeps its code, message and timestamp, and a falsy `details` is reported as null; any other error is a 500 with a fixed message; the body always reports failure and never has a `statusCode` field |
| ErrorHandler.ForwardedError | src/middleware/errorHandler.js:6-13 | an error forwarded with `next(new ApiError(code, message))` turns into a reply with that status, that message, null details and the error's own timestamp |
| Http.Reject | src/utils/ApiError.js:2-18 | `res.status(s).json(new ApiError(s, m, d))` has status `s` and a body of exactly five fields: `statusCode` is `s`, `success` is false, `message` is `m`, `details` is `d` (null when undefined), `timestamp` is the creation time |
| Http.Reply | src/utils/ApiResponse.js:2-10 | `res.status(s).json(new ApiResponse(s, d, m))` has status `s` and a body of exactly five fields: `statusCode` is `s`, `success` holds exactly when `s` is 2xx, `data` is `d` (null when undefined), `message` is `m`, `timestamp` is the creation time |
| Http.Forward | src/middleware/errorHandler.js:6-13 | `next(e)` with an ApiError is answered with the error's numeric status and a body without `statusCode`: `success` false, the error's message and timestamp, and its details when truthy, else null |
| Http.ForwardOther | src/middleware/errorHandler.js:16-20 | `next(err)` with any other error is answered with a 500 and exactly `{success: false, message: "Internal Server Error", timestamp}` |
| Http.SessionCookie | src/controllers/auth.controller.js:100-107 | the session cookie is `jwt`, holds the token, is HTTP-only and same-site none, lasts seven days, and is secure only in production |
| Text.TrimShape | src/models/user.model.js:9 | `trim()` keeps one contiguous middle part of the text, removes only white space around it, and leaves no white space at either end |
| Text.TrimStartShape | src/models/user.model.js:9 | trimming the start keeps a suffix, drops only white space, and leaves no leading white space |
| Text.TrimEndShape | src/models/user.model.js:9 | trimming the end keeps a prefix, drops only white space, and leaves no trailing white space |
| Text.TrimIdempotent | src/models/user.model.js:9 | trimming twice is trimming once |
| Text.TrimEmptyIffBlank | src/controllers/area.controller.js:10-12 | a trimmed text is empty exactly when the text is empty or all white space |
| Text.ToLower | src/models/user.model.js:21 | lower-casing maps each ASCII capital to its small letter, in place, and keeps every other character (ASCII only, see Left out) |
| Text.ToLowerIdempotent | src/models/user.model.js:21 | a lower-cased text has no capital letters left, so lower-casing it again changes nothing |
| Text.ContainsIffOccurs | src/middleware/multer.js:25-28 | a substring test succeeds exactly when some position starts a copy of the pattern |
| Text.SecondField | src/middleware/auth.middleware.js:8 | `split(' ')[1]` exists exactly when the header holds a space |
| Text.SecondFieldOfPair | src/middleware/auth.middleware.js:8 | a header `"<scheme> <token>"` whose parts hold no space yields the token |
| Listing.NewestFirst | src/controllers/franchise.controller.js:93 | sorting by `createdAt: -1` lists every stored id exactly once, in strictly descending order |
| Listing.OldestFirst | src/controllers/user.controller.js:26 | natural order lists every stored id exactly once, in strictly ascending order |
| Listing.SortByKey | src/controllers/district.controller.js:36 | sorting by a name key gives a list ordered by the key, which is a permutation of the input |
| Listing.SortKeeps | src/controllers/district.controller.js:36 | sorting neither drops nor invents an entry |
| Listing.SortKeepsIds | src/controllers/area.controller.js:45 | sorting lists exactly the same documents |
| Listing.NameEntries | src/controllers/area.controller.js:45 | the input of a sort by name lists every document once, in natural order, each entry carrying its own document's name |
| Listing.SortKeepsDistinct | src/controllers/area.controller.js:45 | sorting entries that name distinct documents keeps them distinct, so no document is listed twice |
| Listing.SortedByName | src/controllers/district.controller.js:36 | sorting by name orders the entries, names every document exactly once (the ids are distinct and are exactly the stored ones), and pairs each entry with its document's name |
| Listing.Refs | src/utils/ApiResponse.js:8 | a listing is sent as a JSON array with one entry per listed document, in order |
| Users.InvalidPaths | src/models/user.model.js:4-61 | only the validated paths name, contact, email, password, role and status can fail |
| Users.ValidIffNoInvalidPaths | src/models/user.model.js:4-61 | a user passes the schema exactly when no path fails its validator |
| Users.Cast | src/models/user.model.js:6-45 | the stored document has the trimmed name and contact and the trimmed, lower-cased email; role, avatar and status take their defaults `user`, `''` and `active`; the password is still plain |
| Users.PreSaveNew | src/models/user.model.js:62-75 | on a new document the hooks make an agent inactive and hash the password, and change nothing else |
| Users.Create | src/models/user.model.js:4-75 | `User.create` fails exactly when the cast document fails validation, and then reports the failing paths |
| Users.Resave | src/models/user.model.js:62-75 | re-saving an existing document with an unchanged password succeeds exactly when it is valid, and leaves it as it was |
| Users.NewAgentInactive | src/models/user.model.js:62-67 | a new agent is stored inactive whatever status it was given; any other new user keeps its status, by default active |
| Users.ResaveKeepsStatusAndHash | src/models/user.model.js:62-75 | re-saving keeps an agent's status and every user's password hash |
| Users.CreatedPasswordVerifies | src/models/user.model.js:70-79 | round trip: the password a user was created with verifies against the stored hash, and no other text does |
| Users.CreatedPasswordHashed | src/models/user.model.js:25-30 | a created user never holds a plain password, and the schema only lets through passwords of at least six characters |
| Users.CreatedEnums | src/models/user.model.js:31-45 | a created user's role and status lie in their enums, with defaults `user` and `active` |
| Users.NormEmailIdempotent | src/models/user.model.js:17-24 | email normalisation is idempotent and leaves no capital letter, so a stored email equals the normalised form of any query that names it |
| Users.EmailNeedsAt | src/models/user.model.js:23 | the email pattern refuses any text without an `@` |
| Users.UpdatedPasswordNeverVerifies | src/controllers/user.controller.js:56-60 | an update that sets a password stores it unhashed, so afterwards no password verifies against it |
| Users.ApplyFrame | src/controllers/user.controller.js:56-60 | each field the update carries takes the carried value, with name and contact trimmed and email normalised by the setters; each field it does not carry, and the franchise, keeps its stored value; an empty update changes nothing |
| Users.ValidatedUpdateKeepsValid | src/controllers/user.controller.js:59 | an update that passes the validators keeps a valid user valid |
| Users.UpdateValidationIsPartial | src/controllers/user.controller.js:59 | update validation ignores the paths an update leaves alone, so an invalid document stays invalid after an update the validators pass |
| Franchises.InvalidPaths | src/models/franchise.model.js:5-27 | only fullName, email and status can fail validation |
| Franchises.ValidIffNoInvalidPaths | src/models/franchise.model.js:5-27 | a franchise passes the schema exactly when no path fails its validator |
| Franchises.Create | src/models/franchise.model.js:5-34 | creation succeeds exactly when the name and email are set and the status lies in the enum; the result has no agents, the given owner, name, email, contact, city, image and status, and a hash of the password |
| Franchises.Resave | src/models/franchise.model.js:29-34 | re-saving with an unchanged password succeeds exactly when the franchise is valid, and leaves it as it was |
| Franchises.Toggle | src/controllers/franchise.controller.js:191-192 | the toggled status is `approved` or `pending`, and it is `pending` exactly when the old one was `approved` |
| Franchises.Apply | src/controllers/franchise.controller.js:123-125 | an edit keeps the owner and the agent list; each of the name, email, contact, city, password, image and status takes the edit's value when the edit carries one and keeps the old one otherwise |
| Franchises.ApplyIdempotent | src/controllers/franchise.controller.js:123-125 | an empty edit changes nothing, and applying the same edit twice is applying it once |
| Franchises.Pull | src/controllers/agent.controller.js:272-274 | `$pull` removes every occurrence of the id and keeps every other id with its multiplicity |
| Franchises.PullAbsent | src/controllers/agent.controller.js:272-274 | pulling an id that is not listed changes nothing |
| Franchises.PullTwice | src/controllers/agent.controller.js:272-274 | pulling twice is pulling once |
| Franchises.PullUndoesPush | src/controllers/agent.controller.js:202-205 | pulling an agent just pushed onto a list that did not hold it gives back the list |
| Franchises.CreatedFranchise | src/models/franchise.model.js:19-34 | a created franchise has a status in the enum and no agents, and exactly its creation password verifies against the stored hash |
| Franchises.ToggleTwice | src/controllers/franchise.controller.js:191-192 | toggling twice restores `approved` and `pending`, while `rejected` becomes `approved` and is not restored |
| Franchises.ToggleKeepsValid | src/controllers/franchise.controller.js:191-194 | a franchise valid apart from its status stays valid after the toggle, so its save cannot fail validation |
| Franchises.EditEscapesEnum | src/controllers/franchise.controller.js:123-125 | an edit can store a status outside the enum, because no validator runs |
| Franchises.ResaveKeepsHash | src/models/franchise.model.js:29-34 | saving a franchise unchanged keeps its stored hash |
| Store.FirstWhere | src/controllers/auth.controller.js:150-158 | `findOne` finds the oldest matching document, and finds none only when no document matches |
| Store.AllWhere | src/controllers/user.controller.js:26 | `find(filter)` lists every matching document once, oldest first, and nothing else |
| Store.UpdateOutcomeOf | src/controllers/user.controller.js:56-66 | a filtered, validated update succeeds only on a stored document that matches; it reports not found exactly when the changes are valid but no such document exists |
| Store.WithAgent | src/controllers/agent.controller.js:202-205 | `$push` appends the agent to that franchise's list and changes no other franchise |
| Store.Db.constructor | src/models/user.model.js:4-61 | the store starts empty, and its invariant holds |
| Store.Db.InsertUser | src/models/user.model.js:14-20 | an insert fails exactly when another user holds the same email or contact; otherwise the user is stored under a fresh id |
| Store.Db.PutUser | src/models/user.model.js:14-20 | a rewrite fails exactly when another user holds the same email or contact; otherwise it replaces that one user |
| Store.Db.UpdateUserWhere | src/controllers/user.controller.js:56-60 | the filtered update applies the changes to that one user exactly when it succeeds |
| Store.Db.InsertFranchise | src/models/franchise.model.js:7-14 | an insert fails exactly when another franchise has the same owner or email; otherwise the franchise is stored under a fresh id |
| Store.Db.PutFranchise | src/models/franchise.model.js:7-14 | a rewrite fails exactly when another franchise has the same owner or email; otherwise it replaces that one franchise |
| Store.Db.PushAgent | src/controllers/agent.controller.js:202-205 | appending an agent to a franchise keeps the store's invariant and changes nothing else |
| Store.Db.RemoveUser | src/controllers/user.controller.js:10 | deleting one user keeps the uniqueness invariant for the rest |
| Store.Db.RemoveFranchise | src/controllers/franchise.controller.js:160 | deleting one franchise keeps the invariant and removes only it |
| Store.Db.AddProperty | src/models/property.model.js:3-59 | a property is stored under a fresh id |
| Store.Db.AddArea | src/models/area.model.js:3-10 | an area is stored under a fresh id |
| Store.Db.AddEnquiry | src/models/enquiry.model.js:2-15 | an enquiry is stored under a fresh id |
| Store.Db.AddRequirement | src/models/requirement.model.js:3-7 | a requirement is stored under a fresh id |
| Store.Db.AddStream | src/models/stream.model.js:3-7 | a stream is stored under a fresh id |
| Store.Db.InsertDistrict | src/models/district.model.js:4 | an insert fails exactly when another district has the same name; otherwise the district is stored under a fresh id |
| Store.UserWithEmailExact | src/models/user.model.js:17-24 | with unique emails, looking a user up by email finds exactly the user who holds the normalised email |
| Store.LoginFindsByEmail | src/controllers/auth.controller.js:150-158 | a sign-in id naming a stored email, in any case and with surrounding blanks, finds a user |
| Store.FirstWhereAfterWrite | src/controllers/auth.controller.js:184-187 | rewriting the found document with one that still matches leaves the same document found |
| Auth.FinalRole | src/controllers/auth.controller.js:19-20 | the role is always a schema role: the body's role when it is one, `user` otherwise |
| Auth.SignupGate | src/controllers/auth.controller.js:13-67 | before the insert, signup refuses only with 400, 404, 409 or 500, and a request that passes has every required field |
| Auth.SignupMissingFields | src/controllers/auth.controller.js:13-17 | a missing required field is a 400 that does not depend on the store |
| Auth.SignupCheckOrder | src/controllers/auth.controller.js:22-49 | a taken email or contact (409) comes before an unknown franchise (404), which comes before a missing avatar (400) |
| Auth.SignupUser | src/controllers/auth.controller.js:19-77 | the new user has the normalised role, the uploaded avatar URL, the given franchise, the normalised email and a hash that verifies the given password; it is inactive exactly when it is an agent |
| Auth.SignupTakesAnySchemaRole | src/controllers/auth.controller.js:19-20 | anyone can sign up as `superadmin`, while a role outside the schema, such as `admin`, becomes `user` |
| Auth.SignupNoDuplicate | src/controllers/auth.controller.js:22-31 | the pre-check normalises email and contact as the insert does, so a user who passes it never hits the unique index: the duplicate-key branch at lines 121-126 cannot be reached by one request |
| Auth.Signup | src/controllers/auth.controller.js:9-134 | a refusal writes nothing and sets no cookie; success stores the user under a fresh id, appends it to the named franchise when its role is agent, issues a token with its id, email and role in the session cookie, and replies 201 |
| Auth.FranchiseStage | src/controllers/auth.controller.js:182-200 | for a franchise-role user, the franchise with the user's email is linked only when the user has no link yet; the verdict is that user, or a 403 or 500 (what decides between them is `FranchiseAdmission`) |
| Auth.SigninGate | src/controllers/auth.controller.js:137-219 | sign-in refuses only with 400, 401, 403, 404 or 500, admits only the user it looked up, and backfills only a stored user without a franchise link (the admissions per role are `AgentAdmission`, `FranchiseAdmission` and `PlainRoleAdmission`) |
| Auth.SigninMissingInput | src/controllers/auth.controller.js:137-148 | without an identifier (from `identifier`, `email` or `contact`) or a password the answer is a 400 that does not depend on the store |
| Auth.SigninCheckOrder | src/controllers/auth.controller.js:150-180 | an unknown email or contact is 404; then a wrong password is 401 with nothing written; then a blocked account is 403 |
| Auth.FranchiseWithoutDocument | src/controllers/auth.controller.js:182-190 | a franchise-role user with no franchise stored under its email fails with 500, because line 190 reads `null.status` |
| Auth.AgentAdmission | src/controllers/auth.controller.js:202-219 | an agent with the right password and an unblocked account is admitted exactly when its franchise is not a stored, blocked one; an agent whose franchise was deleted still signs in |
| Auth.NewAgentCannotSignIn | src/controllers/auth.controller.js:167-180 | a freshly created agent is inactive, so it cannot sign in, even with the right password, until its status is toggled |
| Auth.FranchiseStageAfterLink | src/controllers/auth.controller.js:184-187 | once the franchise link is written, the franchise stage writes nothing more and reaches the same verdict |
| Auth.BackfillIdempotent | src/controllers/auth.controller.js:182-200 | signing in again after the backfill writes nothing and reaches the same verdict for the same user |
| Auth.UserWithLoginAfterWrite | src/controllers/auth.controller.js:150-158 | rewriting the found user with the same email and contact does not change which user the login finds |
| Auth.Signin | src/controllers/auth.controller.js:135-246 | the only write is the franchise backfill; the cookie is `SigninCookie`'s; a refusal sets no cookie; success replies 200 and sets the session cookie with a token for the admitted user's id, email and role |
| Auth.SigninTokenClaims | src/controllers/auth.controller.js:222-229 | under a verifier that accepts what `sign` makes, `signin` sets its cookie exactly when it admits the user, and the cookie's token decodes to the id, email and role of the user that the login's email or contact found |
| Auth.FranchiseAdmission | src/controllers/auth.controller.js:182-200 | a franchise-role user with the right password, an unblocked account and a franchise under its email: a missing link is written first and a failing save is a 500; otherwise the user is refused with 403 exactly when the franchise's status is blocked, and admitted exactly when it is not |
| Auth.PlainRoleAdmission | src/controllers/auth.controller.js:182-221 | a `user` or `superadmin` account with the right password and an unblocked status is admitted, with nothing written and no franchise consulted |
| AuthMiddleware.ExtractToken | src/middleware/auth.middleware.js:8 | a truthy `jwt` cookie wins; otherwise the token is the second word of the Authorization header, or nothing without a header |
| AuthMiddleware.Protect | src/middleware/auth.middleware.js:6-26 | the request passes exactly when a token is present, verifies, and names a stored user, and it passes as that user; every failure is a 401 or 404 |
| AuthMiddleware.FailReply | src/middleware/auth.middleware.js:10-25 | a failure is answered through the error handler with its own status |
| AuthMiddleware.BearerHeader | src/middleware/auth.middleware.js:8 | `Authorization: Bearer <token>` yields the token when there is no truthy cookie |
| AuthMiddleware.MissingToken | src/middleware/auth.middleware.js:10-12 | no token at all is a 401 "token missing", whatever the store holds |
| AuthMiddleware.BadToken | src/middleware/auth.middleware.js:14-25 | a token that does not verify is a 401 "token failed" |
| AuthMiddleware.DeletedUser | src/middleware/auth.middleware.js:16-20 | a valid token whose user is no longer stored is a 404 |
| AuthMiddleware.IssuedTokenPasses | src/middleware/auth.middleware.js:6-26 | a token issued for a stored user passes as that user, even when the user is inactive |
| AuthMiddleware.IgnoresUserContents | src/middleware/auth.middleware.js:16-20 | the gate reads only whether the user exists, so changing a stored user never changes its verdict |
| Media.UploadVal | src/utils/cloudinary.js:30-38 | the upload helper returns null on failure, and on success an object with exactly `url` and `publicId` |
| Media.NoSecureUrl | src/utils/cloudinary.js:30-33 | whatever the upload did, `result?.secure_url` is undefined, while `result?.url` is the uploaded URL when there is one |
| Media.LastIndexOf | src/middleware/multer.js:26 | the index found is the last occurrence of the character, and none is found only when it does not occur |
| Media.StripTrailingSlashes | src/middleware/multer.js:26 | stripping the trailing slashes keeps a prefix of the path |
| Media.AfterLast | src/middleware/multer.js:26 | what follows the last separator holds no separator |
| Media.ExtName | src/middleware/multer.js:26 | `path.extname` is empty or a dot followed by text without a slash |
| Media.FileFilter | src/middleware/multer.js:23-39 | a rejected file always gets the one fixed message |
| Media.Admit | src/middleware/multer.js:23-46 | a file is admitted exactly when the filter accepts it and it is at most 2·1024·1024 bytes; a filtered-out file gets the filter's message and an oversized one multer's size error |
| Media.SizeLimitExample | src/middleware/multer.js:45 | a file of exactly 2 MiB passes, and one byte more is refused |
| Media.LowerKeepsLastIndex | src/middleware/multer.js:26 | the ASCII lower-casing does not move a character that is not a letter |
| Media.LowerKeepsStrip | src/middleware/multer.js:26 | lower-casing commutes with stripping the trailing slashes |
| Media.AfterLastOfLower | src/middleware/multer.js:26 | lower-casing commutes with taking what follows the last separator |
| Media.BaseNameOfLower | src/middleware/multer.js:26 | the base name of a lower-cased path is the lower-cased base name |
| Media.DotDotOfLower | src/middleware/multer.js:26 | a segment lower-cases to `..` exactly when it is `..` |
| Media.ExtNameOfLower | src/middleware/multer.js:26 | under the ASCII lower-casing, the extension of a lower-cased name is the lower-cased extension |
| Media.FilterIgnoresNameCase | src/middleware/multer.js:25-28 | a file name and its lower-cased form always get the same verdict |
| Media.SubstringExtensionsPass | src/middleware/multer.js:24-31 | the type pattern is not anchored, so any extension that contains an allowed type passes when the MIME type mentions image or video |
| Media.NoExtensionRejected | src/middleware/multer.js:25-37 | a name without an extension is always refused |
| Media.ExtNameExample | src/middleware/multer.js:26 | the extension of `clip.MP4x` is `.MP4x`, in its own case |
| Media.AcceptExample | src/middleware/multer.js:23-31 | `clip.MP4x` sent as `video/mp4` is accepted |
| Media.LowerExample | src/middleware/multer.js:26 | `.MP4x` lower-cases to `.mp4x` |
| Media.TypeExample | src/middleware/multer.js:24-27 | `.mp4x` passes the type pattern |
| Media.UpperMimeRejected | src/middleware/multer.js:28-37 | the MIME test is case-sensitive, so `IMAGE/PNG` is refused whatever the name |
| FranchiseController.ImageUrl | src/controllers/franchise.controller.js:47-51 | without a file both documents get `''`; with one, the image is undefined, because the upload result has no `secure_url` |
| FranchiseController.CreateFranchise | src/controllers/franchise.controller.js:10-90 | the reply and the new users, franchises and id counter are those of the creation outcome: nothing written on a refusal or a refused account, only the account when the franchise is refused, both documents otherwise |
| FranchiseController.CreateDocuments | src/controllers/franchise.controller.js:53-84 | the two inserts, in order: the account, then the franchise owned by it; a refused franchise leaves the account stored |
| FranchiseController.CreateRefusals | src/controllers/franchise.controller.js:22-44 | exactly three 400s come before any write, in this order: a missing field, different passwords, an email a stored user already holds |
| FranchiseController.CreatedPair | src/controllers/franchise.controller.js:53-74 | the account is an active franchise-role user with the normalised email and a hash that verifies the password; the franchise is owned by it, has no agents, has the body status or `pending`, and holds a hash of the same password |
| FranchiseController.CreateTakenContactFails | src/controllers/franchise.controller.js:40-62 | only the email is checked in advance, so a contact another user holds passes the checks and then fails the unique index: a 500 with nothing written |
| FranchiseController.CreateBadStatusOrphansAccount | src/controllers/franchise.controller.js:64-74 | a truthy status outside the enum fails after the account was written, which leaves an account without a franchise |
| FranchiseController.EditOf | src/controllers/franchise.controller.js:117-121 | a truthy password is replaced by its hash, an empty one is written as it is, and an absent one is left alone |
| FranchiseController.EditFranchise | src/controllers/franchise.controller.js:112-151 | an unknown id is a 404 with nothing written; otherwise the franchise is updated; then the account holding the updated email takes the new name, contact and hashed password; a unique-index failure is a 500 |
| FranchiseController.SyncedAccount | src/controllers/franchise.controller.js:131-140 | the account takes the trimmed name and contact and keeps its email, role, status and franchise link; a new password reaches the account hashed, so exactly that password signs in; without one the account keeps its password |
| FranchiseController.EmptyPasswordNotSynced | src/controllers/franchise.controller.js:117-138 | an empty password is written to the franchise in plain text, and the account's password stays as it was |
| FranchiseController.Cascade | src/controllers/franchise.controller.js:166-167 | the cascade removes only the first user holding the normalised email, or nothing when there is none, and keeps every other user as it was |
| FranchiseController.DeleteFranchise | src/controllers/franchise.controller.js:156-178 | an unknown id is a 404 with nothing written; otherwise the franchise and its account are removed and the reply is 200 with null data |
| FranchiseController.CascadeRemovesAccountOnly | src/controllers/franchise.controller.js:166-167 | a user is removed exactly when its email is the franchise's, so the agents stay, still linked to the deleted franchise |
| FranchiseController.ToggleFranchiseStatus | src/controllers/franchise.controller.js:181-203 | an unknown id is a 404; otherwise the toggled status is saved when the franchise validates and the reply is 200, and it is a 500 with nothing written when it does not |
| FranchiseController.ListFranchisesComplete | src/controllers/franchise.controller.js:91-110 | the listing is a 404 exactly when there is no franchise, and otherwise names every franchise |
| AgentController.AgentImage | src/controllers/agent.controller.js:172-187 | the image is non-empty exactly when a file came and the upload returned a non-empty URL |
| AgentController.AddAgentToFranchise | src/controllers/agent.controller.js:148-216 | the reply is that of the outcome; a stored agent appears exactly when the insert succeeded, and it is appended to the franchise's agents exactly when the franchise save succeeded |
| AgentController.AddRefusals | src/controllers/agent.controller.js:153-169 | before any write: a missing field is 400, an unknown franchise is 404, an email or contact already held is a 500 (the conflict factory does not exist), and only these refuse before a write |
| AgentController.AddedAgent | src/controllers/agent.controller.js:190-199 | the new agent has role agent and belongs to the franchise; it is inactive although `active` was passed; its password verifies |
| AgentController.AddNoDuplicate | src/controllers/agent.controller.js:163-169 | the duplicate check normalises as the insert does, so the unique indexes never refuse the insert |
| AgentController.EditAgent | src/controllers/agent.controller.js:48-77 | a truthy role other than `agent` is a 400 with nothing written; otherwise the validated update changes that one agent, and a missing or non-agent id is a 404 |
| AgentController.EditKeepsAgent | src/controllers/agent.controller.js:54-62 | an edit that passes the role guard leaves an agent an agent |
| AgentController.EditedPasswordLocksOut | src/controllers/agent.controller.js:58-62 | a password set by an edit is stored unhashed, so the agent cannot sign in afterwards with any password |
| AgentController.NewAvatar | src/controllers/agent.controller.js:114-130 | the avatar becomes the upload's URL when a file came and the upload gave one, and stays as it was otherwise |
| AgentController.UpdateAgentInFranchise | src/controllers/agent.controller.js:96-146 | a user that is not an agent of the franchise is a 404 with nothing written; otherwise the validated update, with the avatar written as just stated, changes only that agent |
| AgentController.ScopedUpdateChangesRole | src/controllers/agent.controller.js:133-137 | the scoped update has no role guard, so a franchise can turn its agent into a superadmin |
| AgentController.ScopedUpdateReplySwapped | src/controllers/agent.controller.js:139-141 | the success reply carries the text as `data` and the agent as `message` |
| AgentController.DeleteAgent | src/controllers/agent.controller.js:79-92 | the user is removed exactly when it is an agent, and otherwise the reply is 404; no franchise's agent list is touched |
| AgentController.DeleteAgentInFranchise | src/controllers/agent.controller.js:250-285 | an unknown franchise is 404, then a user that is not its agent is 404; otherwise the agent is removed and every occurrence of its id is pulled from the franchise |
| AgentController.ToggleAgent | src/controllers/agent.controller.js:299 | the new status lies in the enum, and it is `inactive` exactly when the old one was `active` |
| AgentController.ToggleAgentStatus | src/controllers/agent.controller.js:287-310 | a missing or non-agent id is a 404; otherwise the toggled status is saved when the agent validates, and the reply names the new status |
| AgentController.ToggleAgentTwice | src/controllers/agent.controller.js:298-300 | toggling twice restores `active` and `inactive`; a valid agent stays valid; a new, inactive agent is activated by one toggle |
| UserController.DeleteUser | src/controllers/user.controller.js:6-21 | an existing account of any role is removed, and nothing else, with a 200 naming it; an unknown id is a 404 with nothing written |
| UserController.AllUsersExact | src/controllers/user.controller.js:24-43 | `getAllUsers` lists exactly the role-`user` accounts, oldest first; it is a 404 envelope with `success: false` exactly when there is none |
| UserController.EditUser | src/controllers/user.controller.js:45-77 | a truthy role other than `user` is a 400 with nothing written; otherwise the validated update is written only to a role-`user` account (200), an absent or other account is a 404, and a refused update a 500, both with nothing written |
| UserController.EditStaysPlainUser | src/controllers/user.controller.js:50-60 | an edit that passes the guard and is written touches a role-`user` account, and the account stays one |
| UserController.EditOtherRoleMissing | src/controllers/user.controller.js:56-66 | an edit of an agent, franchise or superadmin account that passes its validators finds no document, so it is a 404 |
| PropertyController.RequiredPath | src/models/property.model.js:5-29 | a required path reports an error exactly when its value is blank, and every error it reports is on that path |
| PropertyController.RequiredEnumPath | src/models/property.model.js:7-27 | a required enum path reports at most one error, and none exactly when the value is in the enum |
| PropertyController.OptionalEnumPath | src/models/property.model.js:47-51 | the status path reports at most one error, and none exactly when it is undefined or in the enum |
| PropertyController.DocErrors | src/models/property.model.js:3-59 | `save()` reports no error exactly when the document is valid, and at most one error per path |
| PropertyController.DocErrorPaths | src/models/property.model.js:3-59 | whatever their order, the errors of `save()` name exactly the failing paths: a blank title or price, a category or selling type that is missing or outside its enum, and a status that is given but outside its enum |
| PropertyController.IfWritten | src/controllers/property.controller.js:139-143 | an update validator reports its errors only when the update writes its path |
| PropertyController.SetErrors | src/controllers/property.controller.js:139-143 | an update with validators reports errors only on the paths `$set` writes, at most one per path |
| PropertyController.Formatted | src/controllers/property.controller.js:6-15 | the formatted errors are an object |
| PropertyController.FormattedMeaning | src/controllers/property.controller.js:8-11 | the object has one key per failing path, holding the message of the last error on that path |
| PropertyController.FormattedKeys | src/controllers/property.controller.js:8-11 | the object's keys are exactly the failing paths |
| PropertyController.FormatValidationError | src/controllers/property.controller.js:6-15 | a validation error becomes its field-to-message object, and any other error becomes null |
| PropertyController.FormattedDistinct | src/controllers/property.controller.js:8-11 | with distinct paths, every error's message is in the object under its path |
| PropertyController.ErrorList | src/controllers/property.controller.js:81-90 | the 400 of a create lists one `{ field, message }` per error, in order |
| PropertyController.SecureUrls | src/controllers/property.controller.js:35-45 | the upload loops collect no URL at all, because the upload result has no `secure_url` |
| PropertyController.VideoUrl | src/controllers/property.controller.js:47-59 | the video URL is always null, for the same reason |
| PropertyController.Known | src/controllers/property.controller.js:62-67 | the document keeps exactly the body keys that are schema paths with a defined value, with their values |
| PropertyController.CreateOutcomeOf | src/controllers/property.controller.js:17-99 | a refused create reports at least one error and at most one per path |
| PropertyController.CreateProperty | src/controllers/property.controller.js:17-99 | a saved property is stored under a fresh id and the reply is 201 with its id; every refusal writes nothing and replies 400 |
| PropertyController.CreateCappedFirst | src/controllers/property.controller.js:27-32 | more than four images are refused before anything else, whatever the body holds |
| PropertyController.SavedProperty | src/controllers/property.controller.js:62-69 | a saved property passes every validator; its agent is the signed-in user, or else the body's `agent`; it has no images and no video; its status is the body's or `Available`; every other schema path is the body's value, cast to its path's type |
| PropertyController.NewDocShape | src/controllers/property.controller.js:62-67 | the document built before validation has that agent, no images, no video, that status, only schema paths, and the body's other values cast to their path's types |
| PropertyController.CreateRefusesInvalid | src/controllers/property.controller.js:69-91 | a create is refused as invalid exactly when the built document fails a validator |
| PropertyController.Stripped | src/controllers/property.controller.js:108-113 | the update drops exactly the reference paths that hold `''` or undefined, and keeps every other key as it was |
| PropertyController.StripEmptyRefs | src/controllers/property.controller.js:108-113 | the loop over the four reference paths gives the stripped update |
| PropertyController.SetPart | src/controllers/property.controller.js:139-143 | a key is written by `$set` exactly when it is a schema path with a defined value in the update; a `Number` path receives the cast value, any other path the update's own value |
| PropertyController.CastNumber | src/models/property.model.js:29-31 | the `Number` cast keeps numbers and null, turns the empty string into null, a boolean into 0 or 1, and a decimal integer text (white space around it allowed) into its value |
| PropertyController.DigitsOfDecimal | src/models/property.model.js:29 | the decimal text of a number is all digits and reads back as that number |
| PropertyController.CastOfDecimal | src/models/property.model.js:29 | round trip: the cast of the decimal text of `n`, or of `-n`, is the number itself |
| PropertyController.CastKnown | src/controllers/property.controller.js:62-67 | the body keys kept are exactly the defined schema paths, each cast to its path's type |
| PropertyController.TextPriceStored | src/controllers/property.controller.js:166-178 | a price sent as the text of `p` is stored as the number `p`, so a `minPrice` bound at or below `p` admits it |
| PropertyController.ApplySet | src/controllers/property.controller.js:139-143 | after `$set`, the written paths hold the new values and every other path is as it was |
| PropertyController.Updates | src/controllers/property.controller.js:115-129 | the update is the stripped body, with `images: []` added when new images came |
| PropertyController.UpdateResultOf | src/controllers/property.controller.js:103-160 | an invalid update reports at least one error and at most one per path, and only a stored property is changed |
| PropertyController.InvalidReply | src/controllers/property.controller.js:151-156 | a validation failure on update is a 400 with `success: false`, the text "Validation failed" as `message`, and the formatted errors as `details` (`null` when there are none) |
| PropertyController.UpdateReply | src/controllers/property.controller.js:116-160 | the update reply is a 400 exactly for too many images or an invalid update, a 404 exactly for a missing property, and a 200 exactly for a change; a change's reply carries the updated property as `message`, and an invalid update's carries "Validation failed" and the formatted errors as `details` |
| PropertyController.UpdateProperty | src/controllers/property.controller.js:103-160 | the store changes exactly when the update succeeds, and then only that property, to the updated document; the reply is the one for that result |
| PropertyController.WriteUpdate | src/controllers/property.controller.js:139-149 | after validation, a missing property is a 404 with nothing written, and a stored one gets the set paths |
| PropertyController.MediaUpdates | src/controllers/property.controller.js:115-137 | new images replace `images` with the collected list, and `video` is never set |
| PropertyController.UpdateResultInvalid | src/controllers/property.controller.js:139-156 | an update whose set paths fail a validator is refused with exactly those errors |
| PropertyController.UpdateResultValid | src/controllers/property.controller.js:139-149 | an update that validates is a 404 for a missing property and otherwise yields the stored document with the set paths applied |
| PropertyController.UpdateReplacesImages | src/controllers/property.controller.js:116-129 | new images replace the stored list with the empty list; without new images, the stored list is kept |
| PropertyController.StrippedRefKept | src/controllers/property.controller.js:108-113 | an empty reference in the body leaves the stored reference as it was |
| PropertyController.UpdateValidatesSetPathsOnly | src/controllers/property.controller.js:142 | an update that writes no validated path never fails validation, even on a stored document that breaks a validator |
| PropertyController.BuildFilter | src/controllers/property.controller.js:167-178 | the filter has a clause for each given parameter and no other, and a document matches it exactly when the query parameters admit it |
| PropertyController.MatchesBuilt | src/controllers/property.controller.js:167-178 | matching the built filter is the same as being admitted by the query parameters |
| PropertyController.Matching | src/controllers/property.controller.js:180-185 | the listing names every matching property once, newest first, and nothing else |
| PropertyController.GetProperties | src/controllers/property.controller.js:162-191 | the reply lists exactly the properties the query admits, newest first, with the text as `data` and the list as `message` |
| PropertyController.PropertyById | src/controllers/property.controller.js:193-209 | an unknown id is exactly the 404 reply; a known one is a 200 whose `data` is the text and whose `message` is the property |
| PropertyController.DeleteProperty | src/controllers/property.controller.js:211-223 | the property is gone afterwards; an unknown id is a 404; a known one is a 200 with the fields swapped |
| PropertyController.ScopeOf | src/controllers/property.controller.js:228-244 | no caller gives no scope; an agent and a franchise user are scoped by their own user id; any other role is refused |
| PropertyController.MyProperties | src/controllers/property.controller.js:226-258 | no caller is a 401, and a caller that is neither agent nor franchise is a 403 |
| PropertyController.MyPropertiesScoped | src/controllers/property.controller.js:236-253 | an agent sees exactly the properties naming it as `agent`, and a franchise user exactly those whose `franchise` is its own user id, newest first |
| NotificationController.Inbox | src/controllers/notification.controller.js:14-17 | the inbox lists every notification visible to the user once, newest first, and nothing else |
| NotificationController.GetNotifications | src/controllers/notification.controller.js:6-30 | the reply is the bare 401 object exactly when there is no user; otherwise it is a 200 with the user's inbox |
| NotificationController.DeleteNotification | src/controllers/notification.controller.js:33-62 | the notification is removed exactly when it exists and the caller may delete it; a missing one is a 404 and a foreign one a 403, answered by the error handler |
| NotificationController.InboxExact | src/controllers/notification.controller.js:14-17 | a notification is in the inbox exactly when it is addressed to the user or to `all`, so another user's notification never is |
| NotificationController.BroadcastsUndeletable | src/controllers/notification.controller.js:44-51 | no user with a schema role can delete a broadcast, because the exception is for a role `admin` the schema does not have |
| NotificationController.RecipientMayDelete | src/controllers/notification.controller.js:44-47 | the recipient may delete its own notification, whatever its role |
| DistrictController.DistrictNamed | src/controllers/district.controller.js:15 | the lookup finds a district with exactly that name, and finds none only when no district has it |
| DistrictController.CreateDistrict | src/controllers/district.controller.js:5-32 | a missing or blank name is a 400, and so is a name an existing district holds, with nothing written; otherwise the district is stored with the trimmed name and the reply is 201 with text and data swapped |
| DistrictController.DistrictsSorted | src/controllers/district.controller.js:34-43 | the 200 reply carries the listing in `message` and the fixed text in `data` (swapped arguments); the listing is ordered by name, names every district exactly once (distinct ids), and pairs each entry with its district's name |
| DistrictController.TrimmedDuplicateRefused | src/controllers/district.controller.js:9-20 | a name padded with spaces finds the district already stored under that name, so it is refused as a duplicate |
| DistrictController.TrimStartAppend | src/controllers/district.controller.js:15 | leading white space stops at the first non-space of `s`: trimming the start of `s + u` keeps `u` whole |
| DistrictController.TrimPadded | src/controllers/district.controller.js:15 | padding a name with spaces does not change what trimming leaves |
| AreaController.AreaNamed | src/controllers/area.controller.js:22 | the lookup finds an area with that name in that district, and finds none only when there is no such area |
| AreaController.CreateOutcomeOf | src/controllers/area.controller.js:6-39 | a created area has a non-blank trimmed name and an existing district, and is not a duplicate within that district |
| AreaController.CreateArea | src/controllers/area.controller.js:6-39 | the reply is the one for the outcome; the area is stored under a fresh id exactly when it is created, and nothing is written otherwise |
| AreaController.CreateOrder | src/controllers/area.controller.js:10-27 | each refusal happens exactly in its own case, in order: a blank name, a missing district, an unknown district, a duplicate |
| AreaController.Revised | src/controllers/area.controller.js:72-102 | the name changes only when the body's trims to something, and the district only when one is given |
| AreaController.UpdateArea | src/controllers/area.controller.js:72-102 | an unknown district or an unknown area is a 404 with nothing written; otherwise exactly that area is revised and the reply is a 200 |
| AreaController.UpdateMakesDuplicate | src/controllers/area.controller.js:72-102 | an update can give an area the name and district of another, which creation never allows |
| AreaController.TrimKeeps | src/controllers/area.controller.js:29 | trimming leaves a text without white space at its ends as it is |
| AreaController.EmptyUpdateKeeps | src/controllers/area.controller.js:72-102 | an update with no usable field leaves the area as it was |
| AreaController.DeleteArea | src/controllers/area.controller.js:104-119 | the area is gone afterwards; an unknown id is a 404 and a known one a 200 |
| AreaController.AreaById | src/controllers/area.controller.js:54-70 | the reply is a 404 exactly when the area is unknown, and otherwise a 200 with text and data swapped, so that `message` is the area |
| AreaController.AreasSorted | src/controllers/area.controller.js:41-52 | the 200 reply carries the listing in `message` and the fixed text in `data` (swapped arguments); the listing is ordered by name, names every area exactly once (distinct ids), and pairs each entry with its area's name |
| EnquiryController.Submitted | src/controllers/enquiry.controller.js:16-23 | the stored enquiry has the given user (or none, for a guest), the given fields and the default status `new` |
| EnquiryController.CreateEnquiry | src/controllers/enquiry.controller.js:6-34 | an incomplete enquiry is a 400 with nothing written; a complete one is stored under a fresh id, the next id moves past it, and the reply is 201 |
| EnquiryController.RequiredFields | src/controllers/enquiry.controller.js:10-14 | name, contact, email and city are required and must be non-empty, while the message is optional |
| EnquiryController.AllEnquiriesExact | src/controllers/enquiry.controller.js:36-55 | the listing is a 404 exactly when there is no enquiry, and otherwise names every enquiry once, newest first |
| EnquiryController.Restatus | src/controllers/enquiry.controller.js:62-66 | the update changes the status, or nothing when it is undefined, and no other field |
| EnquiryController.UpdateEnquiry | src/controllers/enquiry.controller.js:57-76 | an unknown id is a 404 through the error handler with nothing written; otherwise only that enquiry's status changes |
| EnquiryController.RestatusEscapesEnum | src/controllers/enquiry.controller.js:62-66 | any status, even one outside the enum or empty, is written |
| EnquiryController.RestatusIdempotent | src/controllers/enquiry.controller.js:62-66 | sending the same status again changes nothing further |
| EnquiryController.DeleteEnquiry | src/controllers/enquiry.controller.js:79-98 | the enquiry is gone afterwards; an unknown id is a 404 and a known one a 200 |
| RequirementController.AddRequirement | src/controllers/requirement.controller.js:6-23 | a missing or empty field is a 400 with nothing written; otherwise the requirement is stored under a fresh id, the next id moves past it, and the reply is 201 |
| RequirementController.AllRequirementsExact | src/controllers/requirement.controller.js:26-38 | the listing is always a 200, names every requirement once, newest first, and is empty exactly when there are none |
| RequirementController.DeleteRequirement | src/controllers/requirement.controller.js:40-58 | the requirement is gone afterwards; an unknown id is a 404 and a known one a 200 with null data |
| StreamController.Current | src/controllers/stream.controller.js:7 | `findOne()` finds the oldest stream, and finds none only when there is no stream |
| StreamController.SetStream | src/controllers/stream.controller.js:4-18 | the streams become those of the set operation; without a URL the save fails and no id is used; otherwise the reply names the stream saved, and an id is used exactly when there was no stream before |
| StreamController.SetKeepsOneStream | src/controllers/stream.controller.js:7-13 | setting never creates a second stream: it adds one only to an empty collection and otherwise keeps the same ids |
| StreamController.SetStoresUrl | src/controllers/stream.controller.js:7-13 | the stream set carries the given URL; a new one is inactive unless the body says otherwise; an existing one takes the body's flag |
| StreamController.GetStream | src/controllers/stream.controller.js:21-28 | the reply is always a 200; it is `{}` exactly when there is no stream, and otherwise the current stream |
| StreamController.DeleteStream | src/controllers/stream.controller.js:30-42 | with no stream the reply is 404 and nothing changes; otherwise exactly the current stream is removed |
| StreamController.DeleteLeavesNone | src/controllers/stream.controller.js:30-42 | deleting the only stream empties the collection, and `getStream` then answers `{}` |

## Left out

- Express wiring is not modelled: the app, the server, the routes, and the order in which routes and middleware are mounted.
- A handler's call to `protect` is not composed with the handler itself. Handlers take the authenticated user, or its absence, as a parameter.
- I/O is left out: file uploads and the deletion of temporary files, e-mail, console logging. The upload helper's result is an input of the model.
- The catch branches around the uploads ("Failed to upload avatar" in `signup`, "Failed to upload image to Cloudinary" in the agent handlers) are not modelled. The helper returns null instead of throwing, so they cannot be reached. A null or URL-less result is modelled, such as signup's "Avatar upload failed" 500.
- bcrypt and JWT are parameters, not implementations. `Hash` takes an explicit salt, and bcrypt's 72-byte input limit is not modelled. `sign` and `decode` are parameters, and the token's seven-day expiry is left to `decode`.
- Time is the string `now`. No timestamp is compared, and `createdAt` order is id order, because ids are handed out increasingly.
- Concurrency is not modelled. Each handler runs alone, so the non-atomic account-plus-franchise writes cannot interleave.
- `getAgents`, `getFiveAgents`, `getAgentsByFranchise`, `getFranchiseById` and `getMe` are not modelled. They are plain lookups with `populate`/`select` projections, and projections are not modelled.
- `forgotPassword`, `verifyOtp` and `resetPassword` are left out: their source is not part of this model.
- The dashboard counters and `notFoundHandler` are left out.
- multer's disk storage, its file names, and the per-field `maxCount` are left out.
- Cast errors are not modelled: a malformed ObjectId, a non-boolean `isActive` or a non-numeric price. Ids are typed, so such requests cannot be expressed.
- PropertyController.CastNumber: only integer texts are cast. A text with a fraction, an exponent or a hexadecimal prefix, or one that is not a number, is kept as a string. The source stores a floating-point number or fails with a cast error.
- PropertyController.NewDoc, PropertyController.SetPart: a reference path (`district`, `area`, `agent`, `franchise`) arrives as `Ref`, already cast. The source receives the 24-hex text of an ObjectId in a multipart body and Mongoose casts it.
- MongoDB's `$text` search is a parameter: a given `text` predicate. Prices are integers, and the query bounds are read as integers.
- The order of documents whose sort keys tie is not fixed: equal names in the area and district listings.
- The edit bodies are restricted to the keys the schemas know. An edit that carries `franchise`, `user` or `agents` is not modelled.
- A key present with the value `undefined` is treated as absent in every update.
- `fault` stands for the text of an error the driver throws. The 500 replies carry it without interpreting it.
- The 500 catch paths of the enquiry, requirement and stream handlers are not modelled beyond the validation failure of `setStream`. Their store operations cannot fail in the model.
- `signup`'s branch for a created user that cannot be read back (lines 89-98) is not modelled. The insert returns the stored user.
- The catch of `deleteAgent` is not modelled: the delete cannot fail in the model.
- Text.ToLower, Users.NormEmail, Users.PasswordOk, Users.CreatedPasswordHashed, Media.FileFilter, Media.LowerKeepsLastIndex, Media.ExtNameOfLower: case mapping is ASCII only, and lengths count code points, not UTF-16 units. JavaScript's `toLowerCase` lowers every Unicode capital (the Kelvin sign U+212A becomes `k`) and can change the length (`İ` becomes two units). So a name such as `a.M\u212AV` is refused by the model's filter where the source accepts it, a Kelvin-sign email does not collide with its `k` form, and a password of three astral characters (six UTF-16 units) is too short for the model but not for the schema.
- Auth.Signup, Auth.Signin: `generateToken` is the total function `sign`, so its throw ("Token generation failed") is not modelled. In the source that throw is a 500 from the handler's catch: after `User.create` and the roster push in `signup`, and after the franchise backfill in `signin`.
- Users.ComparePassword: a stored plain password never matches. bcryptjs returns false only for a stored value whose length is not 60; for a 60-character plain password written by `editUser` or `editAgent` it rejects with an invalid-salt error, so `signin` answers 500 where the model answers 401.
- Media.FileFilter: its own contract fixes only the refusal text. The verdict itself is stated by `FilterIgnoresNameCase`, `SubstringExtensionsPass`, `NoExtensionRejected`, `UpperMimeRejected` and `Admit`.
- PropertyController.Formatted: its own contract says only that the result is an object. What the object holds is stated by `FormattedMeaning`, `FormattedKeys` and `FormattedDistinct`.
- PropertyController.CreateProperty, PropertyController.DocErrors: the order of the `errors` list in the 400 reply is not Mongoose's. The source lists `Object.keys(err.errors)`, whose order follows the order in which Mongoose validates the paths, and that depends on which paths the body set. The model lists the failing paths in schema order, so the model promises only which paths fail, each once (`DocErrorPaths`, `DocErrors`), not their order.
- AuthMiddleware.FailReply: fixes only the status. The body is the error handler's, as `ErrorHandler.ForwardedError` states.
