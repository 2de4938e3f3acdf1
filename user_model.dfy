/** The user document (`src/models/user.model.js`): its fields, the setters
    and validators the schema declares, its defaults, the two `pre('save')`
    hooks and `comparePassword`. */
module Users {
  import opened Common
  import opened Text

  const Roles: set<string> := {"superadmin", "franchise", "agent", "user"}
  const UserStatuses: set<string> := {"active", "inactive"}

  /** A stored password: a bcrypt hash (of a text, under a salt) or, when
      an update wrote the password without passing through the save hooks,
      the text itself. */
  datatype Secret = Hashed(salt: nat, digestOf: string) | Plain(text: string)

  /** `bcrypt.hash(text, salt)` */
  function Hash(text: string, salt: nat): Secret
  {
    Hashed(salt, text)
  }

  /** `bcrypt.compare(entered, stored)`: true exactly when `stored` is a hash
      of `entered`; a stored value that is not a hash never matches. */
  predicate ComparePassword(entered: string, stored: Secret)
  {
    stored.Hashed? && stored.digestOf == entered
  }

  /** A user as stored. `franchise` is the owning franchise of an agent (or
      the franchise of a franchise account), null when unset. */
  datatype User = User(
    name: string,
    contact: string,
    email: string,
    password: Secret,
    role: string,
    avatar: string,
    franchise: Option<Id>,
    status: string)

  /** The `lowercase` and `trim` setters of `email`; they run on writes and
      on query filters alike. */
  function NormEmail(e: string): string
  {
    Trim(ToLower(e))
  }

  /** The `trim` setter of `name` and `contact`. */
  function NormText(s: string): string
  {
    Trim(s)
  }

  /** `\S+@\S+\.\S+` matches with the `@` at `at` and the dot at `dot`. */
  predicate EmailAt(s: string, at: int, dot: int)
  {
    && 0 < at && at + 1 < dot && dot + 1 < |s|
    && s[at] == '@' && s[dot] == '.'
    && !IsSpace(s[at - 1]) && !IsSpace(s[dot + 1])
    && forall k :: at < k < dot ==> !IsSpace(s[k])
  }

  /** The `match` validator of `email` (an unanchored search). */
  predicate EmailLike(s: string)
  {
    exists at, dot :: 0 < at < |s| && 0 < dot < |s| && EmailAt(s, at, dot)
  }

  /** The stored password passes `required` and `minlength: 6`. A hash is a
      60-character string, so it always does. */
  predicate PasswordOk(p: Secret)
  {
    p.Hashed? || |p.text| >= 6
  }

  /** The paths whose validators fail on `u`. */
  function InvalidPaths(u: User): (bad: set<string>)
    ensures bad <= {"name", "contact", "email", "password", "role", "status"}
  {
    (if u.name == "" then {"name"} else {})
    + (if u.contact == "" then {"contact"} else {})
    + (if u.email == "" || !EmailLike(u.email) then {"email"} else {})
    + (if !PasswordOk(u.password) then {"password"} else {})
    + (if u.role !in Roles then {"role"} else {})
    + (if u.status !in UserStatuses then {"status"} else {})
  }

  /** Every validator of the schema passes on `u`. */
  predicate ValidUser(u: User)
  {
    && u.name != "" && u.contact != "" && u.email != "" && EmailLike(u.email)
    && PasswordOk(u.password) && u.role in Roles && u.status in UserStatuses
  }

  /** A user is valid exactly when no path fails its validator. */
  lemma ValidIffNoInvalidPaths(u: User)
    ensures ValidUser(u) <==> InvalidPaths(u) == {}
  {
    if !ValidUser(u) {
      assert u.name == "" ==> "name" in InvalidPaths(u);
      assert u.contact == "" ==> "contact" in InvalidPaths(u);
      assert u.email == "" || !EmailLike(u.email) ==> "email" in InvalidPaths(u);
      assert !PasswordOk(u.password) ==> "password" in InvalidPaths(u);
      assert u.role !in Roles ==> "role" in InvalidPaths(u);
      assert u.status !in UserStatuses ==> "status" in InvalidPaths(u);
    }
  }

  /** The fields handed to `User.create`; `None` is a field left undefined,
      which takes the schema default. */
  datatype NewFields = NewFields(
    name: string,
    contact: string,
    email: string,
    password: string,
    role: Option<string>,
    avatar: Option<string>,
    franchise: Option<Id>,
    status: Option<string>)

  /** The document after casting: setters applied, defaults filled in. */
  function Cast(f: NewFields): (u: User)
    ensures u.email == NormEmail(f.email) && u.name == Trim(f.name) && u.contact == Trim(f.contact)
    ensures u.password == Plain(f.password) && u.franchise == f.franchise
    ensures u.role == f.role.GetOr("user") && u.status == f.status.GetOr("active")
    ensures u.avatar == f.avatar.GetOr("")
  {
    User(NormText(f.name), NormText(f.contact), NormEmail(f.email), Plain(f.password),
         f.role.GetOr("user"), f.avatar.GetOr(""), f.franchise, f.status.GetOr("active"))
  }

  /** The two `pre('save')` hooks on a new document: a new agent is made
      inactive, and the password (modified, since it was just set) is hashed. */
  function PreSaveNew(u: User, salt: nat): (v: User)
    requires u.password.Plain?
    ensures v.password == Hash(u.password.text, salt)
    ensures v.status == (if u.role == "agent" then "inactive" else u.status)
    ensures v == u.(password := v.password, status := v.status)
  {
    u.(status := if u.role == "agent" then "inactive" else u.status,
       password := Hash(u.password.text, salt))
  }

  /** `User.create(f)` short of the unique indexes: validation runs first (on
      the plain password), then the hooks. */
  function Create(f: NewFields, salt: nat): (r: Result<User, set<string>>)
    ensures r.Err? <==> !ValidUser(Cast(f))
    ensures r.Err? ==> r.error == InvalidPaths(Cast(f)) && r.error != {}
  {
    var u := Cast(f);
    if !ValidUser(u) then Err(InvalidPaths(u)) else Ok(PreSaveNew(u, salt))
  }

  /** `doc.save()` on a document that is not new and whose password was not
      modified: every loaded path is validated and neither hook changes
      anything. The schema marks the password `select: false`, so a document
      found without `+password` (as in the agent status toggle) does not load
      it and Mongoose skips its validators; the model validates it anyway,
      which makes no difference: a stored password is either a hash or a plain
      one that passed `minlength` when it was written, since every update of
      a user runs the validators. */
  function Resave(u: User): (r: Result<User, set<string>>)
    ensures r.Ok? <==> ValidUser(u)
    ensures r.Ok? ==> r.value == u
  {
    if !ValidUser(u) then Err(InvalidPaths(u)) else Ok(u)
  }

  /** The fields of a `findOneAndUpdate` body; `None` is a key the body does
      not carry (undefined values are stripped from updates). */
  datatype Changes = Changes(
    name: Option<string>,
    contact: Option<string>,
    email: Option<string>,
    password: Option<Secret>,
    role: Option<string>,
    avatar: Option<string>,
    status: Option<string>)

  const NoChanges := Changes(None, None, None, None, None, None, None)

  function MapOpt(o: Option<string>, norm: string -> string): (r: Option<string>)
    ensures r.Some? <==> o.Some?
    ensures o.Some? ==> r.value == norm(o.value)
  {
    if o.Some? then Some(norm(o.value)) else None
  }

  /** The update after the setters (they run on updates too). */
  function CastChanges(c: Changes): Changes
  {
    c.(name := MapOpt(c.name, NormText), contact := MapOpt(c.contact, NormText),
       email := MapOpt(c.email, NormEmail))
  }

  /** The update applied to a stored user. The password is written as given
      (a request's text stays plain): an update does not run the save hooks. */
  function Apply(u: User, c: Changes): User
  {
    var d := CastChanges(c);
    User(d.name.GetOr(u.name), d.contact.GetOr(u.contact), d.email.GetOr(u.email),
         d.password.GetOr(u.password),
         d.role.GetOr(u.role), d.avatar.GetOr(u.avatar), u.franchise, d.status.GetOr(u.status))
  }

  /** `runValidators` on an update: the validators of the paths the update
      sets, run on the values after the setters; the other paths are not
      looked at. */
  predicate ChangesValid(c: Changes)
  {
    var d := CastChanges(c);
    && (d.name.Some? ==> d.name.value != "")
    && (d.contact.Some? ==> d.contact.value != "")
    && (d.email.Some? ==> d.email.value != "" && EmailLike(d.email.value))
    && (d.password.Some? ==> PasswordOk(d.password.value))
    && (d.role.Some? ==> d.role.value in Roles)
    && (d.status.Some? ==> d.status.value in UserStatuses)
  }

  // ---- properties of the schema and its hooks ----

  /** A newly saved agent is inactive whatever status it was given, all other
      new users keep theirs (by default, active). */
  lemma NewAgentInactive(f: NewFields, salt: nat)
    requires Create(f, salt).Ok?
    ensures f.role == Some("agent") ==> Create(f, salt).value.status == "inactive"
    ensures f.role != Some("agent") ==> Create(f, salt).value.status == f.status.GetOr("active")
  {
  }

  /** Re-saving an existing user changes nothing, so an agent keeps its status
      and every user its password hash. */
  lemma ResaveKeepsStatusAndHash(u: User)
    requires ValidUser(u)
    ensures Resave(u) == Ok(u)
    ensures Resave(u).value.status == u.status && Resave(u).value.password == u.password
  {
  }

  /** Round trip: the password a user was created with verifies against the
      stored hash, and no other text does. */
  lemma CreatedPasswordVerifies(f: NewFields, salt: nat, entered: string)
    requires Create(f, salt).Ok?
    ensures ComparePassword(f.password, Create(f, salt).value.password)
    ensures ComparePassword(entered, Create(f, salt).value.password) <==> entered == f.password
  {
  }

  /** A created user is never stored with a plain password, and a password the
      schema lets through has at least six characters. */
  lemma CreatedPasswordHashed(f: NewFields, salt: nat)
    requires Create(f, salt).Ok?
    ensures Create(f, salt).value.password.Hashed?
    ensures |f.password| >= 6
  {
    assert !("password" in InvalidPaths(Cast(f)));
  }

  /** Role and status of a created user range over their enums, with
      defaults `user` and `active`. */
  lemma CreatedEnums(f: NewFields, salt: nat)
    requires Create(f, salt).Ok?
    ensures Create(f, salt).value.role in Roles
    ensures Create(f, salt).value.status in UserStatuses
    ensures f.role.None? ==> Create(f, salt).value.role == "user"
    ensures f.role.None? && f.status.None? ==> Create(f, salt).value.status == "active"
  {
    assert !("role" in InvalidPaths(Cast(f))) && !("status" in InvalidPaths(Cast(f)));
  }

  lemma LowerOfLower(s: string)
    requires forall i :: 0 <= i < |s| ==> !('A' <= s[i] <= 'Z')
    ensures ToLower(s) == s
  {
  }

  predicate NoCapitals(s: string)
  {
    forall i :: 0 <= i < |s| ==> !('A' <= s[i] <= 'Z')
  }

  lemma TrimKeepsNoCapitals(x: string)
    requires NoCapitals(x)
    ensures NoCapitals(Trim(x))
  {
    var t := TrimStart(x);
    TrimStartShape(x);
    TrimEndShape(t);
    var d := |x| - |t|;
    assert t == x[d..];
    assert NoCapitals(t) by {
      forall k | 0 <= k < |t| ensures !('A' <= t[k] <= 'Z') {
        assert t[k] == x[d + k];
      }
    }
    var r := TrimEnd(t);
    assert r == t[..|r|];
    assert Trim(x) == r;
  }

  /** The email normalisation is idempotent and leaves no capital and no
      surrounding blank, so a stored email compares equal to the normalised
      form of any query that names it. */
  lemma NormEmailIdempotent(e: string)
    ensures NormEmail(NormEmail(e)) == NormEmail(e)
    ensures NoCapitals(NormEmail(e))
  {
    var x := ToLower(e);
    ToLowerIdempotent(e);
    TrimKeepsNoCapitals(x);
    LowerOfLower(Trim(x));
    TrimIdempotent(x);
  }

  /** The email validator refuses any text without an `@`. */
  lemma EmailNeedsAt(s: string)
    requires '@' !in s
    ensures !EmailLike(s)
  {
  }

  /** An update that sets a password stores it unhashed, so no password
      verifies against it afterwards. */
  lemma UpdatedPasswordNeverVerifies(u: User, c: Changes, entered: string)
    requires c.password.Some? && c.password.value.Plain?
    ensures !ComparePassword(entered, Apply(u, c).password)
  {
  }

  /** An update changes exactly the fields it carries: each carried field
      takes the carried value (after its setter), every other field, and the
      franchise, keeps the stored one. */
  lemma ApplyFrame(u: User, c: Changes)
    ensures Apply(u, c).name == (if c.name.Some? then NormText(c.name.value) else u.name)
    ensures Apply(u, c).contact == (if c.contact.Some? then NormText(c.contact.value) else u.contact)
    ensures Apply(u, c).email == (if c.email.Some? then NormEmail(c.email.value) else u.email)
    ensures Apply(u, c).password == (if c.password.Some? then c.password.value else u.password)
    ensures Apply(u, c).role == (if c.role.Some? then c.role.value else u.role)
    ensures Apply(u, c).avatar == (if c.avatar.Some? then c.avatar.value else u.avatar)
    ensures Apply(u, c).status == (if c.status.Some? then c.status.value else u.status)
    ensures Apply(u, c).franchise == u.franchise
    ensures Apply(u, NoChanges) == u
  {
  }

  /** A validated update keeps a valid user valid: the paths it sets pass
      their validators and the others are as before. */
  lemma ValidatedUpdateKeepsValid(u: User, c: Changes)
    requires ValidUser(u) && ChangesValid(c)
    ensures ValidUser(Apply(u, c))
  {
  }

  /** An update the validators pass can still leave a document that a later
      `save()` refuses, when it was invalid before: update validation does
      not look at the paths the update leaves alone. */
  lemma UpdateValidationIsPartial(u: User)
    requires u.name == ""
    ensures ChangesValid(NoChanges) && !ValidUser(Apply(u, NoChanges))
  {
  }
}
