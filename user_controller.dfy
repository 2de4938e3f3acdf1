/** The user handlers (`src/controllers/user.controller.js`): deletion of
    any account, the listing of the plain users and the guarded edit. */
module UserController {
  import opened Common
  import opened ApiErrors
  import opened ApiResponses
  import opened Users
  import opened Store
  import opened Http
  import opened Listing

  // The texts the handlers send.
  const UserDeletedSuccessfully := "User deleted successfully"
  const UserNotFound := "User not found"
  const NoUsersFound := "No users found"
  const UsersFetchedSuccessfully := "Users fetched successfully"
  const RoleChangeNotAllowed := "Role change not allowed"
  const UserUpdatedSuccessfully := "User updated successfully"
  const NotAUser := "User not found or not a user role"
  const InternalServerError := "Internal Server Error"

  predicate IsPlainUser(u: User)
  {
    u.role == "user"
  }

  /** `deleteUser`: removes the account of any role; the franchise documents
      and rosters that name it are not touched. */
  method DeleteUser(db: Db, id: Id, now: string) returns (r: Response)
    requires db.Valid()
    modifies db`users
    ensures db.Valid()
    ensures id in old(db.users) ==> db.users == old(db.users) - {id} && r == Reply(200, Ref(id), UserDeletedSuccessfully, now)
    ensures id !in old(db.users) ==>
      db.users == old(db.users) && r == ErrorReply(404, ApiErrors.NotFound(Str(UserNotFound), now))
  {
    if id !in db.users {
      return ErrorReply(404, ApiErrors.NotFound(Str(UserNotFound), now));
    }
    db.RemoveUser(id);
    r := Reply(200, Ref(id), UserDeletedSuccessfully, now);
  }

  /** `getAllUsers`: the role-`user` accounts in natural order, or a 404
      that is sent as an `ApiResponse` with an empty list. */
  function AllUsers(users: map<Id, User>, n: nat, now: string): Response
  {
    var ids := AllWhere(users, IsPlainUser, n);
    if ids == [] then OkReply(404, ApiResponses.New(404, Arr([]), Str(NoUsersFound), now))
    else Reply(200, Refs(ids), UsersFetchedSuccessfully, now)
  }

  /** The listing names exactly the role-`user` accounts, oldest first, and is
      a 404 exactly when there is none; the 404 envelope reports `success: false`. */
  lemma AllUsersExact(users: map<Id, User>, n: nat, now: string)
    requires forall k :: k in users ==> k < n
    ensures var r := AllUsers(users, n, now);
      && (r.status == 404 <==> forall k :: k in users ==> !IsPlainUser(users[k]))
      && (r.status == 404 ==> r.body.fields["success"] == Bool(false))
      && (r.status == 200 ==>
            && r.body.fields["data"] == Refs(AllWhere(users, IsPlainUser, n))
            && (forall k :: k in users && IsPlainUser(users[k]) <==> k in AllWhere(users, IsPlainUser, n)))
  {
    var ids := AllWhere(users, IsPlainUser, n);
    if ids != [] {
      assert ids[0] in users && IsPlainUser(users[ids[0]]);
    }
  }

  /** `editUser`: a truthy body role other than `user` is refused before the
      update; otherwise the update runs, validated, on a role-`user` account only. */
  method EditUser(db: Db, id: Id, c: Changes, now: string) returns (r: Response)
    requires db.Valid()
    modifies db`users
    ensures db.Valid()
    ensures Given(c.role) && c.role.value != "user" ==>
      r == Reject(400, RoleChangeNotAllowed, Undefined, now) && db.users == old(db.users)
    ensures !(Given(c.role) && c.role.value != "user") ==>
      var o := UpdateOutcomeOf(old(db.users), id, IsPlainUser, c);
      && db.users == (if o == Updated then old(db.users)[id := Users.Apply(old(db.users)[id], c)] else old(db.users))
      && r == (match o
               case Updated => Reply(200, Ref(id), UserUpdatedSuccessfully, now)
               case Missing => Reject(404, NotAUser, Undefined, now)
               case _ => Reject(500, InternalServerError, Undefined, now))
  {
    if Given(c.role) && c.role.value != "user" {
      return Reject(400, RoleChangeNotAllowed, Undefined, now);
    }
    var o := db.UpdateUserWhere(id, IsPlainUser, c);
    match o
    case Updated => r := Reply(200, Ref(id), UserUpdatedSuccessfully, now);
    case Missing => r := Reject(404, NotAUser, Undefined, now);
    case _ => r := Reject(500, InternalServerError, Undefined, now);
  }

  /** An edit that passes the guard only touches a role-`user` account, and
      it stays one: agents, franchises and administrators are out of reach. */
  lemma EditStaysPlainUser(users: map<Id, User>, id: Id, c: Changes)
    requires !(Given(c.role) && c.role.value != "user")
    requires UpdateOutcomeOf(users, id, IsPlainUser, c) == Updated
    ensures IsPlainUser(users[id]) && IsPlainUser(Users.Apply(users[id], c))
  {
    assert c.role.Some? ==> c.role.value in Roles;
  }

  /** Any other account, or an absent id, is a 404 once the update passes
      its validators. */
  lemma EditOtherRoleMissing(users: map<Id, User>, id: Id, c: Changes)
    requires ChangesValid(c) && id in users && users[id].role != "user"
    ensures UpdateOutcomeOf(users, id, IsPlainUser, c) == Missing
  {
  }
}
