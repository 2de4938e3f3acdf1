/** The franchise handlers (`src/controllers/franchise.controller.js`):
    creation of a franchise with its login account, edits copied to that
    account, deletion cascading to it by email, the status toggle and the
    listing. Each handler is a method that takes the store `db` and
    modifies only the collections it names; the checks before its first
    write are stated as pure functions. `fault` stands for the text
    of an error the store throws, which the 500 replies carry as details. */
module FranchiseController {
  import opened Common
  import opened Users
  import opened Franchises
  import opened Store
  import opened Http
  import opened Listing

  // The texts the handlers send.
  const ServerError := "Server error"
  const FranchiseCreatedSuccessfully := "Franchise created successfully"
  const InternalServerError := "Internal server error"
  const FranchiseUpdatedSuccessfully := "Franchise updated successfully"
  const FranchiseDeletedSuccessfully := "Franchise deleted successfully"
  const FranchiseStatusUpdatedSuccessfully := "Franchise status updated successfully"
  const NoFranchisesFound := "No franchises found"
  const FranchisesFetchedSuccessfully := "Franchises fetched successfully"

  const MissingFields := "All required fields must be provided"
  const PasswordMismatch := "Passwords do not match"
  const EmailTaken := "Email already exists"
  const NotFound := "Franchise not found"

  // ---------------------------------------------------------------- create

  /** The fields `createFranchise` reads from the body; `None` is absent. */
  datatype CreateBody = CreateBody(
    fullName: Option<string>,
    email: Option<string>,
    password: Option<string>,
    confirmPassword: Option<string>,
    contact: Option<string>,
    city: Option<string>,
    status: Option<string>)

  predicate CreateFieldsGiven(b: CreateBody)
  {
    && Given(b.fullName) && Given(b.email) && Given(b.password)
    && Given(b.confirmPassword) && Given(b.contact) && Given(b.city)
  }

  /** The image URL both documents get: `''` without a file; with one, the
      `secure_url` of the upload result, which the result does not have, so
      the field is left undefined. */
  function ImageUrl(file: bool): (i: Option<string>)
    ensures i.None? <==> file
    ensures i.Some? ==> i.value == ""
  {
    if file then None else Some("")
  }

  /** The login account `User.create` is given: role franchise, status active. */
  function AccountFields(b: CreateBody, file: bool): Users.NewFields
    requires CreateFieldsGiven(b)
  {
    Users.NewFields(b.fullName.value, b.contact.value, b.email.value, b.password.value,
                    Some("franchise"), ImageUrl(file), None, Some("active"))
  }

  /** The franchise `Franchise.create` is given, owned by account `user`;
      its status is the body's when truthy, `pending` otherwise. */
  function FranchiseFields(user: Id, b: CreateBody, file: bool): Franchises.NewFields
    requires CreateFieldsGiven(b)
  {
    Franchises.NewFields(user, b.fullName.value, b.email.value, b.password.value, b.contact.value,
                         b.city.value, ImageUrl(file), if Given(b.status) then b.status.value else "pending")
  }

  /** How a creation ends: refused with 400 before any write; a 500 with
      nothing written (the account is refused); a 500 after the account
      was written (the franchise is refused, the account stays); or both
      documents created. */
  datatype CreateOutcome =
    | Refused(message: string)
    | AccountFailed
    | FranchiseFailed(account: User)
    | Created(account: User, franchise: Franchise)

  /** The checks before the first write: the refusal, if any. */
  function Precheck(users: map<Id, User>, n: nat, b: CreateBody): Option<string>
  {
    if !CreateFieldsGiven(b) then Some(MissingFields)
    else if b.password.value != b.confirmPassword.value then Some(PasswordMismatch)
    else if UserWithEmail(users, b.email.value, n).Some? then Some(EmailTaken)
    else None
  }

  /** The writes, given what `User.create` and `Franchise.create` make of
      their fields: the account with id `n`, then the franchise with id `n + 1`. */
  function WriteOutcome(users: map<Id, User>, franchises: map<Id, Franchise>, n: nat,
                        account: Result<User, set<string>>, created: Result<Franchise, set<string>>): CreateOutcome
  {
    match account
    case Err(_) => AccountFailed
    case Ok(u) =>
      if UserClash(users, u, n) then AccountFailed
      else match created
        case Err(_) => FranchiseFailed(u)
        case Ok(f) => if FranchiseClash(franchises, f, n + 1) then FranchiseFailed(u) else Created(u, f)
  }

  /** The outcome of `createFranchise` on a store whose next id is `n`. */
  function CreateOutcomeOf(users: map<Id, User>, franchises: map<Id, Franchise>, n: nat, b: CreateBody,
                           file: bool, salt: nat): CreateOutcome
  {
    match Precheck(users, n, b)
    case Some(m) => Refused(m)
    case None =>
      WriteOutcome(users, franchises, n, Users.Create(AccountFields(b, file), salt),
                   Franchises.Create(FranchiseFields(n, b, file), salt))
  }

  /** The reply for each outcome; the new documents are named by id. */
  function CreateReply(o: CreateOutcome, n: nat, now: string): Response
  {
    match o
    case Refused(m) => Reject(400, m, Undefined, now)
    case AccountFailed => Reject(500, ServerError, Undefined, now)
    case FranchiseFailed(_) => Reject(500, ServerError, Undefined, now)
    case Created(_, _) =>
      Reply(201, Obj(map["user" := Ref(n), "franchise" := Ref(n + 1)]), FranchiseCreatedSuccessfully, now)
  }

  method CreateFranchise(db: Db, b: CreateBody, file: bool, salt: nat, now: string) returns (r: Response)
    requires db.Valid()
    modifies db`users, db`franchises, db`nextId
    ensures db.Valid()
    ensures var o := CreateOutcomeOf(old(db.users), old(db.franchises), old(db.nextId), b, file, salt);
      && r == CreateReply(o, old(db.nextId), now)
      && db.users == UsersAfter(old(db.users), old(db.nextId), o)
      && db.franchises == FranchisesAfter(old(db.franchises), old(db.nextId), o)
      && db.nextId == old(db.nextId) + IdsUsed(o)
  {
    var refusal := Precheck(db.users, db.nextId, b);
    if refusal.Some? {
      return CreateReply(Refused(refusal.value), db.nextId, now);
    }
    var account := Users.Create(AccountFields(b, file), salt);
    var created := Franchises.Create(FranchiseFields(db.nextId, b, file), salt);
    r := CreateDocuments(db, account, created, now);
  }

  /** The account a creation leaves stored, under id `n`. */
  function UsersAfter(users: map<Id, User>, n: nat, o: CreateOutcome): map<Id, User>
  {
    if o.FranchiseFailed? || o.Created? then users[n := o.account] else users
  }

  /** The franchise a creation leaves stored, under id `n + 1`. */
  function FranchisesAfter(franchises: map<Id, Franchise>, n: nat, o: CreateOutcome): map<Id, Franchise>
  {
    if o.Created? then franchises[n + 1 := o.franchise] else franchises
  }

  function IdsUsed(o: CreateOutcome): nat
  {
    if o.Created? then 2 else if o.FranchiseFailed? then 1 else 0
  }

  /** The writes of `createFranchise`, once the checks have passed, with the
      documents `User.create` and `Franchise.create` build. */
  method CreateDocuments(db: Db, account: Result<User, set<string>>, created: Result<Franchise, set<string>>,
                         now: string) returns (r: Response)
    requires db.Valid()
    modifies db`users, db`franchises, db`nextId
    ensures db.Valid()
    ensures r == CreateReply(WriteOutcome(old(db.users), old(db.franchises), old(db.nextId), account, created), old(db.nextId), now)
    ensures db.users == UsersAfter(old(db.users), old(db.nextId), WriteOutcome(old(db.users), old(db.franchises), old(db.nextId), account, created))
    ensures db.franchises == FranchisesAfter(old(db.franchises), old(db.nextId), WriteOutcome(old(db.users), old(db.franchises), old(db.nextId), account, created))
    ensures db.nextId == old(db.nextId) + IdsUsed(WriteOutcome(old(db.users), old(db.franchises), old(db.nextId), account, created))
  {
    var n := db.nextId;
    ghost var o := WriteOutcome(db.users, db.franchises, n, account, created);
    if account.Err? {
      assert o == AccountFailed;
      return CreateReply(AccountFailed, n, now);
    }
    var uid := db.InsertUser(account.value);
    if uid.None? {
      assert o == AccountFailed;
      return CreateReply(AccountFailed, n, now);
    }
    if created.Err? {
      assert o == FranchiseFailed(account.value);
      return CreateReply(FranchiseFailed(account.value), n, now);
    }
    var fid := db.InsertFranchise(created.value);
    if fid.None? {
      assert o == FranchiseFailed(account.value);
      return CreateReply(FranchiseFailed(account.value), n, now);
    }
    assert o == Created(account.value, created.value);
    r := CreateReply(Created(account.value, created.value), n, now);
  }

  /** The three 400s, in order, and nothing else is refused before a write:
      a missing field, then different passwords, then an email a stored
      user already has (compared after the email setters). */
  lemma CreateRefusals(users: map<Id, User>, franchises: map<Id, Franchise>, n: nat, b: CreateBody,
                       file: bool, salt: nat)
    ensures var o := CreateOutcomeOf(users, franchises, n, b, file, salt);
      && (o == Refused(MissingFields) <==> !CreateFieldsGiven(b))
      && (o == Refused(PasswordMismatch) <==> CreateFieldsGiven(b) && b.password.value != b.confirmPassword.value)
      && (o == Refused(EmailTaken) <==>
            && CreateFieldsGiven(b) && b.password.value == b.confirmPassword.value
            && UserWithEmail(users, b.email.value, n).Some?)
      && (o.Refused? ==> o.message in {MissingFields, PasswordMismatch, EmailTaken})
  {
  }

  /** The created pair: an active franchise-role account holding the
      normalised email and a hash of the password, and a franchise owned by
      that account, with no agents, the body status or `pending`, and a hash
      of the same password. */
  lemma CreatedPair(users: map<Id, User>, franchises: map<Id, Franchise>, n: nat, b: CreateBody,
                    file: bool, salt: nat)
    requires CreateOutcomeOf(users, franchises, n, b, file, salt).Created?
    ensures var o := CreateOutcomeOf(users, franchises, n, b, file, salt);
      && o.account.role == "franchise" && o.account.status == "active"
      && o.account.email == NormEmail(b.email.value) && o.account.franchise.None?
      && ComparePassword(b.password.value, o.account.password)
      && o.franchise.user == n && o.franchise.agents == []
      && o.franchise.status == (if Given(b.status) then b.status.value else "pending")
      && o.franchise.status in FranchiseStatuses
      && o.franchise.password == Some(Hash(b.password.value, salt))
  {
  }

  /** Only the email is looked up before the writes: a contact another user
      already has passes the checks and then fails the unique index, a 500
      with nothing written. */
  lemma CreateTakenContactFails(users: map<Id, User>, franchises: map<Id, Franchise>, n: nat, b: CreateBody,
                                file: bool, salt: nat, k: Id)
    requires CreateFieldsGiven(b) && b.password.value == b.confirmPassword.value
    requires UserWithEmail(users, b.email.value, n).None?
    requires k in users && users[k].contact == NormText(b.contact.value) && k != n
    ensures CreateOutcomeOf(users, franchises, n, b, file, salt) == AccountFailed
  {
    var a := Users.Create(AccountFields(b, file), salt);
    if a.Ok? {
      assert a.value.contact == NormText(b.contact.value);
      assert UserClash(users, a.value, n);
    }
  }

  /** A truthy body status outside the enum fails the franchise's
      validation after the account was written: the account stays, without
      a franchise. */
  lemma CreateBadStatusOrphansAccount(users: map<Id, User>, franchises: map<Id, Franchise>, n: nat,
                                      b: CreateBody, file: bool, salt: nat)
    requires var o := CreateOutcomeOf(users, franchises, n, b, file, salt); !o.Refused? && !o.AccountFailed?
    requires Given(b.status) && b.status.value !in FranchiseStatuses
    ensures CreateOutcomeOf(users, franchises, n, b, file, salt).FranchiseFailed?
  {
  }

  // ------------------------------------------------------------------ edit

  /** The fields of an `editFranchise` body the franchise schema knows. */
  datatype EditBody = EditBody(
    fullName: Option<string>,
    email: Option<string>,
    contact: Option<string>,
    city: Option<string>,
    password: Option<string>,
    image: Option<string>,
    status: Option<string>)

  /** The update as written: a truthy password replaced by its hash, an
      empty one written as it is. */
  function EditOf(b: EditBody, salt: nat): (e: Franchises.Edit)
    ensures Given(b.password) ==> e.password == Some(Hash(b.password.value, salt))
    ensures b.password == Some("") ==> e.password == Some(Plain(""))
    ensures b.password.None? ==> e.password.None?
    ensures e.status == b.status && e.email == b.email && e.fullName == b.fullName
  {
    var p := match b.password
      case None => None
      case Some(t) => Some(if t != "" then Hash(t, salt) else Plain(t));
    Franchises.Edit(b.fullName, b.email, b.contact, b.city, p, b.image, b.status)
  }

  /** The update of the account with the franchise's email: name and contact
      from the updated franchise (an undefined contact is stripped; `city` is
      not a user path and is dropped), and the hash when a password was given. */
  function Sync(g: Franchise, b: EditBody, salt: nat): Changes
  {
    Changes(Some(g.fullName), g.contact, None,
            if Given(b.password) then Some(Hash(b.password.value, salt)) else None, None, None, None)
  }

  method EditFranchise(db: Db, id: Id, b: EditBody, salt: nat, fault: string, now: string) returns (r: Response)
    requires db.Valid()
    modifies db`users, db`franchises
    ensures db.Valid()
    ensures id !in old(db.franchises) ==>
      && r == Reject(404, NotFound, Undefined, now)
      && db.users == old(db.users) && db.franchises == old(db.franchises)
    ensures id in old(db.franchises) ==>
      var g := Franchises.Apply(old(db.franchises)[id], EditOf(b, salt));
      var k := UserWithEmail(old(db.users), g.email, old(db.nextId));
      if FranchiseClash(old(db.franchises), g, id) then
        && r == Reject(500, InternalServerError, Str(fault), now)
        && db.users == old(db.users) && db.franchises == old(db.franchises)
      else
        && db.franchises == old(db.franchises)[id := g]
        && (k.None? ==> db.users == old(db.users) && r == Reply(200, Ref(id), FranchiseUpdatedSuccessfully, now))
        && (k.Some? ==>
              var v := Users.Apply(old(db.users)[k.value], Sync(g, b, salt));
              if UserClash(old(db.users), v, k.value) then
                db.users == old(db.users) && r == Reject(500, InternalServerError, Str(fault), now)
              else
                db.users == old(db.users)[k.value := v] && r == Reply(200, Ref(id), FranchiseUpdatedSuccessfully, now))
  {
    if id !in db.franchises {
      return Reject(404, NotFound, Undefined, now);
    }
    var g := Franchises.Apply(db.franchises[id], EditOf(b, salt));
    var ok := db.PutFranchise(id, g);
    if !ok {
      return Reject(500, InternalServerError, Str(fault), now);
    }
    var k := UserWithEmail(db.users, g.email, db.nextId);
    if k.Some? {
      var v := Users.Apply(db.users[k.value], Sync(g, b, salt));
      var synced := db.PutUser(k.value, v);
      if !synced {
        return Reject(500, InternalServerError, Str(fault), now);
      }
    }
    r := Reply(200, Ref(id), FranchiseUpdatedSuccessfully, now);
  }

  /** The account takes the franchise's name and contact (after the trim
      setter) and keeps its email, role, status and franchise link; a
      password given to the edit reaches the account hashed, so the account
      signs in with it, and without one the account keeps its password. */
  lemma SyncedAccount(u: User, g: Franchise, b: EditBody, salt: nat, entered: string)
    ensures var v := Users.Apply(u, Sync(g, b, salt));
      && v.name == NormText(g.fullName)
      && v.contact == (if g.contact.Some? then NormText(g.contact.value) else u.contact)
      && v.email == u.email && v.role == u.role && v.status == u.status && v.franchise == u.franchise
      && (Given(b.password) ==> (ComparePassword(entered, v.password) <==> entered == b.password.value))
      && (!Given(b.password) ==> v.password == u.password)
  {
  }

  /** An edit that sets an empty password writes it to the franchise as
      it is, and leaves the account's password alone. */
  lemma EmptyPasswordNotSynced(f: Franchise, u: User, b: EditBody, salt: nat)
    requires b.password == Some("")
    ensures Franchises.Apply(f, EditOf(b, salt)).password == Some(Plain(""))
    ensures Users.Apply(u, Sync(Franchises.Apply(f, EditOf(b, salt)), b, salt)).password == u.password
  {
  }

  // ---------------------------------------------------------------- delete

  /** The users after `User.findOneAndDelete({ email })`: the first user
      holding the normalised email is removed, every other is kept as it is. */
  function Cascade(users: map<Id, User>, email: string, n: nat): (u: map<Id, User>)
    ensures u.Keys <= users.Keys
    ensures forall k :: k in u ==> u[k] == users[k]
    ensures UserWithEmail(users, email, n).None? ==> u == users
    ensures UserWithEmail(users, email, n).Some? ==> users.Keys - u.Keys == {UserWithEmail(users, email, n).value}
  {
    match UserWithEmail(users, email, n)
    case None => users
    case Some(k) => users - {k}
  }

  method DeleteFranchise(db: Db, id: Id, now: string) returns (r: Response)
    requires db.Valid()
    modifies db`users, db`franchises
    ensures db.Valid()
    ensures id !in old(db.franchises) ==>
      && r == Reject(404, NotFound, Undefined, now)
      && db.users == old(db.users) && db.franchises == old(db.franchises)
    ensures id in old(db.franchises) ==>
      && db.franchises == old(db.franchises) - {id}
      && db.users == Cascade(old(db.users), old(db.franchises)[id].email, old(db.nextId))
      && r == Reply(200, Null, FranchiseDeletedSuccessfully, now)
  {
    if id !in db.franchises {
      return Reject(404, NotFound, Undefined, now);
    }
    var f := db.franchises[id];
    db.RemoveFranchise(id);
    var k := UserWithEmail(db.users, f.email, db.nextId);
    if k.Some? {
      db.RemoveUser(k.value);
    }
    r := Reply(200, Null, FranchiseDeletedSuccessfully, now);
  }

  /** The cascade removes exactly the account whose email is the franchise's
      (normalised), and no other: the franchise's agents, and their links to
      the deleted franchise, stay as they were. */
  lemma CascadeRemovesAccountOnly(users: map<Id, User>, email: string, n: nat, k: Id)
    requires UsersUnique(users) && k in users && k < n
    ensures k !in Cascade(users, email, n) <==> users[k].email == NormEmail(email)
    ensures k in Cascade(users, email, n) ==> Cascade(users, email, n)[k].franchise == users[k].franchise
  {
    UserWithEmailExact(users, email, n, k);
  }

  // ---------------------------------------------------------------- toggle

  method ToggleFranchiseStatus(db: Db, id: Id, fault: string, now: string) returns (r: Response)
    requires db.Valid()
    modifies db`franchises
    ensures db.Valid()
    ensures id !in old(db.franchises) ==>
      r == Reject(404, NotFound, Undefined, now) && db.franchises == old(db.franchises)
    ensures id in old(db.franchises) ==>
      var g := old(db.franchises)[id].(status := Toggle(old(db.franchises)[id].status));
      if ValidFranchise(g) then
        db.franchises == old(db.franchises)[id := g]
        && r == Reply(200, Ref(id), FranchiseStatusUpdatedSuccessfully, now)
      else
        db.franchises == old(db.franchises) && r == Reject(500, InternalServerError, Str(fault), now)
  {
    if id !in db.franchises {
      return Reject(404, NotFound, Undefined, now);
    }
    var f := db.franchises[id];
    var g := f.(status := Toggle(f.status));
    var saved := Franchises.Resave(g);
    if saved.Err? {
      return Reject(500, InternalServerError, Str(fault), now);
    }
    SameFranchiseKeysNoClash(db.franchises, id, g);
    var ok := db.PutFranchise(id, g);
    r := Reply(200, Ref(id), FranchiseStatusUpdatedSuccessfully, now);
  }

  // --------------------------------------------------------------- listing

  /** `getAllFranchises`: every franchise, newest first, or a 404 when there
      is none. */
  function ListFranchises(franchises: map<Id, Franchise>, n: nat, now: string): Response
  {
    var ids := NewestFirst(franchises.Keys, n);
    if ids == [] then Reject(404, NoFranchisesFound, Undefined, now)
    else Reply(200, Refs(ids), FranchisesFetchedSuccessfully, now)
  }

  /** On a store whose ids are all below `n`, the listing is a 404 exactly
      when there is no franchise, and otherwise names each franchise once. */
  lemma ListFranchisesComplete(franchises: map<Id, Franchise>, n: nat, now: string)
    requires forall k :: k in franchises ==> k < n
    ensures ListFranchises(franchises, n, now).status == 404 <==> franchises == map[]
    ensures franchises != map[] ==> forall k :: k in franchises ==> k in NewestFirst(franchises.Keys, n)
  {
    if franchises != map[] {
      var k :| k in franchises;
      assert k in NewestFirst(franchises.Keys, n);
      assert NewestFirst(franchises.Keys, n) != [];
      assert ListFranchises(franchises, n, now).status == 200;
    } else {
      assert NewestFirst(franchises.Keys, n) == [];
    }
  }
}
