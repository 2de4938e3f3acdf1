/** The agent handlers (`src/controllers/agent.controller.js`): adding an
    agent under a franchise, the edits (global and franchise-scoped), the
    deletions (global, and franchise-scoped with the roster pull) and the
    status toggle. `fault` stands for the text of an error the store
    throws. */
module AgentController {
  import opened Common
  import opened ApiErrors
  import opened ApiResponses
  import opened Users
  import opened Franchises
  import opened Store
  import opened Http
  import Media

  // The texts the handlers send.
  const RequiredFieldsMissing := "All required fields must be provided"
  const FranchiseNotFound := "Franchise not found"
  const AgentAddedSuccessfully := "Agent added successfully under franchise"
  const ServerError := "Server error"
  const AgentUpdatedSuccessfully := "Agent updated successfully"
  const NotAnAgent := "Agent not found or not an agent role"
  const InternalServerError := "Internal Server Error"
  const AgentDeletedSuccessfully := "Agent deleted successfully"
  const AgentNotFound := "Agent not found"
  const AgentStatusChangedTo := "Agent status changed to "
  const ErrorUpdatingAgentStatus := "Error updating agent status"

  predicate IsAgent(u: User)
  {
    u.role == "agent"
  }

  /** The filter `{ role: 'agent', franchise: fid }`. */
  function AgentOf(fid: Id): User -> bool
  {
    (u: User) => u.role == "agent" && u.franchise == Some(fid)
  }

  const RoleChangeRefused := "Role change not allowed"
  const NotInFranchise := "Agent not found in this franchise"

  // ------------------------------------------------------------------ add

  /** The fields `addAgentToFranchise` reads from the body. */
  datatype AgentBody = AgentBody(
    name: Option<string>,
    email: Option<string>,
    contact: Option<string>,
    password: Option<string>)

  predicate AgentFieldsGiven(b: AgentBody)
  {
    Given(b.name) && Given(b.email) && Given(b.password) && Given(b.contact)
  }

  /** `uploadResult?.url || uploadResult?.secure_url || ''` when a file came. */
  function AgentImage(file: bool, upload: Option<Media.Uploaded>): (a: string)
    ensures a != "" <==> file && upload.Some? && upload.value.url != ""
  {
    if file && upload.Some? then upload.value.url else ""
  }

  /** The agent `User.create` is given: role agent, the franchise, and the
      status `active`, which the save hook then overrides. */
  function AgentFields(fid: Id, b: AgentBody, file: bool, upload: Option<Media.Uploaded>): Users.NewFields
    requires AgentFieldsGiven(b)
  {
    Users.NewFields(b.name.value, b.contact.value, b.email.value, b.password.value, Some("agent"),
                    Some(AgentImage(file, upload)), Some(fid), Some("active"))
  }

  /** How an addition ends. `Taken` is the duplicate check, whose reply
      calls the missing `ApiError.conflict` and so ends in the catch. After
      `Created` the agent is stored (under id `n`) and the franchise's save
      with the pushed id is still to come: it fails (`SaveFailed`) when the
      stored franchise does not pass its validators. */
  datatype AddOutcome =
    | MissingInput
    | NoFranchise
    | Taken
    | CreateFailed
    | SaveFailed(agent: User)
    | Added(agent: User)

  function AddOutcomeOf(users: map<Id, User>, franchises: map<Id, Franchise>, n: nat, fid: Id, b: AgentBody,
                        file: bool, upload: Option<Media.Uploaded>, salt: nat): AddOutcome
  {
    if !AgentFieldsGiven(b) then MissingInput
    else if fid !in franchises then NoFranchise
    else if UserWithEither(users, b.email.value, b.contact.value, n).Some? then Taken
    else match Users.Create(AgentFields(fid, b, file, upload), salt)
      case Err(_) => CreateFailed
      case Ok(u) =>
        if UserClash(users, u, n) then CreateFailed
        else if !ValidFranchise(franchises[fid].(agents := franchises[fid].agents + [n])) then SaveFailed(u)
        else Added(u)
  }

  /** The reply to each outcome. */
  function AddReply(o: AddOutcome, n: nat, now: string): Response
  {
    match o
    case MissingInput => ErrorReply(400, BadRequest(Str(RequiredFieldsMissing), Undefined, now))
    case NoFranchise => ErrorReply(404, ApiErrors.NotFound(Str(FranchiseNotFound), now))
    case Added(_) => Reply(201, Ref(n), AgentAddedSuccessfully, now)
    case _ => ErrorReply(500, Internal(Str(ServerError), Undefined, now))
  }

  method AddAgentToFranchise(db: Db, fid: Id, b: AgentBody, file: bool, upload: Option<Media.Uploaded>, salt: nat,
                             now: string) returns (r: Response)
    requires db.Valid()
    modifies db`users, db`franchises, db`nextId
    ensures db.Valid()
    ensures r == AddReply(AddOutcomeOf(old(db.users), old(db.franchises), old(db.nextId), fid, b, file, upload, salt),
                          old(db.nextId), now)
    ensures var o := AddOutcomeOf(old(db.users), old(db.franchises), old(db.nextId), fid, b, file, upload, salt);
      db.users == (if o.SaveFailed? || o.Added? then old(db.users)[old(db.nextId) := o.agent] else old(db.users))
    ensures var o := AddOutcomeOf(old(db.users), old(db.franchises), old(db.nextId), fid, b, file, upload, salt);
      db.nextId == (if o.SaveFailed? || o.Added? then old(db.nextId) + 1 else old(db.nextId))
    ensures var o := AddOutcomeOf(old(db.users), old(db.franchises), old(db.nextId), fid, b, file, upload, salt);
      db.franchises == (if o.Added? then WithAgent(old(db.franchises), fid, old(db.nextId)) else old(db.franchises))
  {
    ghost var o := AddOutcomeOf(db.users, db.franchises, db.nextId, fid, b, file, upload, salt);
    if !AgentFieldsGiven(b) {
      return AddReply(MissingInput, db.nextId, now);
    }
    if fid !in db.franchises {
      return AddReply(NoFranchise, db.nextId, now);
    }
    if UserWithEither(db.users, b.email.value, b.contact.value, db.nextId).Some? {
      return AddReply(Taken, db.nextId, now);
    }
    var created := Users.Create(AgentFields(fid, b, file, upload), salt);
    if created.Err? {
      return AddReply(CreateFailed, db.nextId, now);
    }
    var id := db.InsertUser(created.value);
    if id.None? {
      return AddReply(CreateFailed, db.nextId, now);
    }
    var f := db.franchises[fid];
    var g := f.(agents := f.agents + [id.value]);
    var saved := Franchises.Resave(g);
    if saved.Err? {
      assert o == SaveFailed(created.value);
      return AddReply(SaveFailed(created.value), id.value, now);
    }
    assert o == Added(created.value);
    db.PushAgent(fid, id.value);
    r := AddReply(Added(created.value), id.value, now);
  }

  /** The refusals before any write, in order: a missing field (400), an
      unknown franchise (404), then a user already holding the email or the
      contact, which is answered with a 500 and not the intended 409. */
  lemma AddRefusals(users: map<Id, User>, franchises: map<Id, Franchise>, n: nat, fid: Id, b: AgentBody,
                    file: bool, upload: Option<Media.Uploaded>, salt: nat, now: string)
    ensures var o := AddOutcomeOf(users, franchises, n, fid, b, file, upload, salt);
      && (!AgentFieldsGiven(b) ==> AddReply(o, n, now).status == 400)
      && (AgentFieldsGiven(b) && fid !in franchises ==> AddReply(o, n, now).status == 404)
      && ((AgentFieldsGiven(b) && fid in franchises && UserWithEither(users, b.email.value, b.contact.value, n).Some?)
            ==> o == Taken && AddReply(o, n, now).status == 500)
      && (o in {MissingInput, NoFranchise, Taken} <==>
            !AgentFieldsGiven(b) || fid !in franchises || UserWithEither(users, b.email.value, b.contact.value, n).Some?)
  {
    var o := AddOutcomeOf(users, franchises, n, fid, b, file, upload, salt);
    if !AgentFieldsGiven(b) {
      assert o == MissingInput;
    } else if fid !in franchises {
      assert o == NoFranchise;
    } else if UserWithEither(users, b.email.value, b.contact.value, n).Some? {
      assert o == Taken;
    } else {
      assert o.CreateFailed? || o.SaveFailed? || o.Added?;
    }
  }

  /** The added agent: role agent, owned by the franchise, and inactive
      although `active` was passed; its password verifies. */
  lemma AddedAgent(users: map<Id, User>, franchises: map<Id, Franchise>, n: nat, fid: Id, b: AgentBody,
                   file: bool, upload: Option<Media.Uploaded>, salt: nat)
    requires AddOutcomeOf(users, franchises, n, fid, b, file, upload, salt).Added?
    ensures var a := AddOutcomeOf(users, franchises, n, fid, b, file, upload, salt).agent;
      && a.role == "agent" && a.franchise == Some(fid) && a.status == "inactive"
      && ComparePassword(b.password.value, a.password)
  {
  }

  /** The duplicate check covers both unique indexes with the insert's own
      normalisation, so the insert itself is never refused by them. */
  lemma AddNoDuplicate(users: map<Id, User>, franchises: map<Id, Franchise>, n: nat, fid: Id, b: AgentBody,
                       file: bool, upload: Option<Media.Uploaded>, salt: nat)
    requires AgentFieldsGiven(b) && fid in franchises
    requires UserWithEither(users, b.email.value, b.contact.value, n).None?
    requires forall k :: k in users ==> k < n
    requires Users.Create(AgentFields(fid, b, file, upload), salt).Ok?
    ensures !UserClash(users, Users.Create(AgentFields(fid, b, file, upload), salt).value, n)
  {
  }

  // ----------------------------------------------------------------- edit

  /** `editAgent`: a truthy body role other than `agent` is refused before
      the update; otherwise the update runs, validated, on an agent only. */
  method EditAgent(db: Db, id: Id, c: Changes, now: string) returns (r: Response)
    requires db.Valid()
    modifies db`users
    ensures db.Valid()
    ensures Given(c.role) && c.role.value != "agent" ==>
      r == Reject(400, RoleChangeRefused, Undefined, now) && db.users == old(db.users)
    ensures !(Given(c.role) && c.role.value != "agent") ==>
      var o := UpdateOutcomeOf(old(db.users), id, IsAgent, c);
      && db.users == (if o == Updated then old(db.users)[id := Users.Apply(old(db.users)[id], c)] else old(db.users))
      && r == (match o
               case Updated => Reply(200, Ref(id), AgentUpdatedSuccessfully, now)
               case Missing => Reject(404, NotAnAgent, Undefined, now)
               case _ => Reject(500, InternalServerError, Undefined, now))
  {
    if Given(c.role) && c.role.value != "agent" {
      return Reject(400, RoleChangeRefused, Undefined, now);
    }
    var o := db.UpdateUserWhere(id, IsAgent, c);
    match o
    case Updated => r := Reply(200, Ref(id), AgentUpdatedSuccessfully, now);
    case Missing => r := Reject(404, NotAnAgent, Undefined, now);
    case _ => r := Reject(500, InternalServerError, Undefined, now);
  }

  /** An edit that passes the role guard leaves an agent an agent: the body
      role is absent, `agent`, or empty (which the enum refuses). */
  lemma EditKeepsAgent(users: map<Id, User>, id: Id, c: Changes)
    requires !(Given(c.role) && c.role.value != "agent")
    requires UpdateOutcomeOf(users, id, IsAgent, c) == Updated
    ensures IsAgent(Users.Apply(users[id], c))
  {
    assert c.role.Some? ==> c.role.value in Roles;
  }

  /** A password set by an edit is stored unhashed, so the agent can no
      longer sign in with any password. */
  lemma EditedPasswordLocksOut(users: map<Id, User>, id: Id, c: Changes, entered: string)
    requires UpdateOutcomeOf(users, id, IsAgent, c) == Updated
    requires c.password.Some? && c.password.value.Plain?
    ensures !ComparePassword(entered, Users.Apply(users[id], c).password)
  {
  }

  // ---------------------------------------------------- franchise-scoped edit

  /** The avatar written: the upload's URL when a file came and the upload
      gave one, the agent's avatar otherwise. */
  function NewAvatar(current: string, file: bool, upload: Option<Media.Uploaded>): (a: string)
    ensures file && upload.Some? && upload.value.url != "" ==> a == upload.value.url
    ensures !(file && upload.Some? && upload.value.url != "") ==> a == current
  {
    if file && upload.Some? && upload.value.url != "" then upload.value.url else current
  }

  method UpdateAgentInFranchise(db: Db, agentId: Id, fid: Id, c: Changes, file: bool, upload: Option<Media.Uploaded>,
                                fault: string, now: string) returns (r: Response)
    requires db.Valid()
    modifies db`users
    ensures db.Valid()
    ensures !(agentId in old(db.users) && AgentOf(fid)(old(db.users)[agentId])) ==>
      r == ErrorReply(404, ApiErrors.NotFound(Str(NotInFranchise), now)) && db.users == old(db.users)
    ensures agentId in old(db.users) && AgentOf(fid)(old(db.users)[agentId]) ==>
      var d := c.(avatar := Some(NewAvatar(old(db.users)[agentId].avatar, file, upload)));
      var o := UpdateOutcomeOf(old(db.users), agentId, AgentOf(fid), d);
      && db.users == (if o == Updated then old(db.users)[agentId := Users.Apply(old(db.users)[agentId], d)] else old(db.users))
      && r == (match o
               case Updated => OkReply(200, Success(Str(AgentUpdatedSuccessfully), Ref(agentId), None, now))
               case Missing => OkReply(200, Success(Str(AgentUpdatedSuccessfully), Null, None, now))
               case _ => ErrorReply(500, Internal(Str(fault), Undefined, now)))
  {
    if !(agentId in db.users && AgentOf(fid)(db.users[agentId])) {
      return ErrorReply(404, ApiErrors.NotFound(Str(NotInFranchise), now));
    }
    var d := c.(avatar := Some(NewAvatar(db.users[agentId].avatar, file, upload)));
    var o := db.UpdateUserWhere(agentId, AgentOf(fid), d);
    match o
    case Updated => r := OkReply(200, Success(Str(AgentUpdatedSuccessfully), Ref(agentId), None, now));
    case Missing => r := OkReply(200, Success(Str(AgentUpdatedSuccessfully), Null, None, now));
    case _ => r := ErrorReply(500, Internal(Str(fault), Undefined, now));
  }

  /** The scoped update has no role guard: a valid body role is written, so
      the franchise can turn its agent into a super administrator. */
  lemma ScopedUpdateChangesRole(users: map<Id, User>, agentId: Id, fid: Id, c: Changes)
    requires UpdateOutcomeOf(users, agentId, AgentOf(fid), c) == Updated
    requires c.role == Some("superadmin")
    ensures Users.Apply(users[agentId], c).role == "superadmin"
    ensures users[agentId].role == "agent"
  {
  }

  /** The reply of a successful scoped update has the text as its data and
      the agent as its message (the arguments of `ApiResponse.success` are
      swapped at the call). */
  lemma ScopedUpdateReplySwapped(agentId: Id, now: string)
    ensures var a := Success(Str(AgentUpdatedSuccessfully), Ref(agentId), None, now);
      a.data == Str(AgentUpdatedSuccessfully) && a.message == Ref(agentId)
  {
  }

  // --------------------------------------------------------------- delete

  /** `deleteAgent`: removes the user only when it is an agent; the rosters
      of the franchises are not touched, so they keep its id. */
  method DeleteAgent(db: Db, id: Id, now: string) returns (r: Response)
    requires db.Valid()
    modifies db`users
    ensures db.Valid()
    ensures id in old(db.users) && IsAgent(old(db.users)[id]) ==>
      db.users == old(db.users) - {id} && r == Reply(200, Ref(id), AgentDeletedSuccessfully, now)
    ensures !(id in old(db.users) && IsAgent(old(db.users)[id])) ==>
      db.users == old(db.users) && r == ErrorReply(404, ApiErrors.NotFound(Str(AgentNotFound), now))
  {
    if !(id in db.users && IsAgent(db.users[id])) {
      return ErrorReply(404, ApiErrors.NotFound(Str(AgentNotFound), now));
    }
    db.RemoveUser(id);
    r := Reply(200, Ref(id), AgentDeletedSuccessfully, now);
  }

  /** `deleteAgentInFranchise`: 404 for an unknown franchise, then 404 for a
      user that is not an agent of it; otherwise the agent is removed and
      every occurrence of its id pulled from the roster (without validation). */
  method DeleteAgentInFranchise(db: Db, agentId: Id, fid: Id, now: string) returns (r: Response)
    requires db.Valid()
    modifies db`users, db`franchises
    ensures db.Valid()
    ensures fid !in old(db.franchises) ==>
      && r == ErrorReply(404, ApiErrors.NotFound(Str(FranchiseNotFound), now))
      && db.users == old(db.users) && db.franchises == old(db.franchises)
    ensures fid in old(db.franchises) && !(agentId in old(db.users) && AgentOf(fid)(old(db.users)[agentId])) ==>
      && r == ErrorReply(404, ApiErrors.NotFound(Str(NotInFranchise), now))
      && db.users == old(db.users) && db.franchises == old(db.franchises)
    ensures fid in old(db.franchises) && agentId in old(db.users) && AgentOf(fid)(old(db.users)[agentId]) ==>
      && db.users == old(db.users) - {agentId}
      && db.franchises == old(db.franchises)[fid := old(db.franchises)[fid].(agents := Pull(old(db.franchises)[fid].agents, agentId))]
      && r == OkReply(200, Success(Str(AgentDeletedSuccessfully), Ref(agentId), None, now))
  {
    if fid !in db.franchises {
      return ErrorReply(404, ApiErrors.NotFound(Str(FranchiseNotFound), now));
    }
    if !(agentId in db.users && AgentOf(fid)(db.users[agentId])) {
      return ErrorReply(404, ApiErrors.NotFound(Str(NotInFranchise), now));
    }
    db.RemoveUser(agentId);
    var f := db.franchises[fid];
    var g := f.(agents := Pull(f.agents, agentId));
    SameFranchiseKeysNoClash(db.franchises, fid, g);
    var ok := db.PutFranchise(fid, g);
    r := OkReply(200, Success(Str(AgentDeletedSuccessfully), Ref(agentId), None, now));
  }

  // --------------------------------------------------------------- toggle

  /** The status `toggleAgentStatus` writes. */
  function ToggleAgent(status: string): (t: string)
    ensures t in UserStatuses
    ensures t == "inactive" <==> status == "active"
  {
    if status == "active" then "inactive" else "active"
  }

  method ToggleAgentStatus(db: Db, id: Id, now: string) returns (r: Response)
    requires db.Valid()
    modifies db`users
    ensures db.Valid()
    ensures !(id in old(db.users) && IsAgent(old(db.users)[id])) ==>
      db.users == old(db.users) && r == Reject(404, AgentNotFound, Undefined, now)
    ensures id in old(db.users) && IsAgent(old(db.users)[id]) ==>
      var t := ToggleAgent(old(db.users)[id].status);
      var v := old(db.users)[id].(status := t);
      if ValidUser(v) then
        && db.users == old(db.users)[id := v]
        && r == Reply(200, Obj(map["id" := Ref(id), "status" := Str(t)]), AgentStatusChangedTo + t, now)
      else
        db.users == old(db.users) && r == Reject(500, ErrorUpdatingAgentStatus, Undefined, now)
  {
    if !(id in db.users && IsAgent(db.users[id])) {
      return Reject(404, AgentNotFound, Undefined, now);
    }
    var u := db.users[id];
    var t := ToggleAgent(u.status);
    var v := u.(status := t);
    var saved := Users.Resave(v);
    if saved.Err? {
      return Reject(500, ErrorUpdatingAgentStatus, Undefined, now);
    }
    SameKeysNoClash(db.users, id, v);
    var ok := db.PutUser(id, v);
    r := Reply(200, Obj(map["id" := Ref(id), "status" := Str(t)]), AgentStatusChangedTo + t, now);
  }

  /** Toggling twice restores `active` and `inactive`; any other status
      becomes `active` and then `inactive`. A toggled agent that was valid
      stays valid, and a new (inactive) agent is activated by one toggle. */
  lemma ToggleAgentTwice(u: User)
    ensures u.status in UserStatuses ==> ToggleAgent(ToggleAgent(u.status)) == u.status
    ensures u.status !in UserStatuses ==> ToggleAgent(ToggleAgent(u.status)) == "inactive"
    ensures ValidUser(u) ==> ValidUser(u.(status := ToggleAgent(u.status)))
    ensures ToggleAgent("inactive") == "active"
  {
  }
}
