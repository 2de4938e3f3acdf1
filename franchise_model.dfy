/** The franchise document (`src/models/franchise.model.js`): its fields,
    the status enum with its default, the validators and the password hook. */
module Franchises {
  import opened Common
  import opened Users

  const FranchiseStatuses: set<string> := {"pending", "approved", "rejected"}

  /** A franchise as stored. `user` is the franchise's login account, unique
      across franchises; `agents` lists the agents added under it. */
  datatype Franchise = Franchise(
    user: Id,
    fullName: string,
    email: string,
    contact: Option<string>,
    city: Option<string>,
    password: Option<Secret>,
    image: Option<string>,
    status: string,
    agents: seq<Id>)

  /** The paths whose validators fail (`user` is always set by the model). */
  function InvalidPaths(f: Franchise): (bad: set<string>)
    ensures bad <= {"fullName", "email", "status"}
  {
    (if f.fullName == "" then {"fullName"} else {})
    + (if f.email == "" then {"email"} else {})
    + (if f.status !in FranchiseStatuses then {"status"} else {})
  }

  /** Every validator of the schema passes on `f`. */
  predicate ValidFranchise(f: Franchise)
  {
    f.fullName != "" && f.email != "" && f.status in FranchiseStatuses
  }

  /** A franchise is valid exactly when no path fails its validator. */
  lemma ValidIffNoInvalidPaths(f: Franchise)
    ensures ValidFranchise(f) <==> InvalidPaths(f) == {}
  {
    if !ValidFranchise(f) {
      assert f.fullName == "" ==> "fullName" in InvalidPaths(f);
      assert f.email == "" ==> "email" in InvalidPaths(f);
      assert f.status !in FranchiseStatuses ==> "status" in InvalidPaths(f);
    }
  }

  /** The fields `createFranchise` hands to `Franchise.create`; an `image`
      of `None` is left undefined. No setter touches them. */
  datatype NewFields = NewFields(
    user: Id,
    fullName: string,
    email: string,
    password: string,
    contact: string,
    city: string,
    image: Option<string>,
    status: string)

  /** `Franchise.create(f)` short of the unique indexes: validation, then the
      hook hashing the (new, hence modified) password. The agent list starts
      empty. */
  function Create(f: NewFields, salt: nat): (r: Result<Franchise, set<string>>)
    ensures r.Ok? ==> r.value.agents == [] && r.value.user == f.user && r.value.email == f.email
    ensures r.Ok? ==> r.value.status == f.status && r.value.password == Some(Hash(f.password, salt))
    ensures r.Ok? ==> r.value.fullName == f.fullName && r.value.contact == Some(f.contact)
    ensures r.Ok? ==> r.value.city == Some(f.city) && r.value.image == f.image
    ensures r.Ok? <==> f.fullName != "" && f.email != "" && f.status in FranchiseStatuses
  {
    var d := Franchise(f.user, f.fullName, f.email, Some(f.contact), Some(f.city), Some(Plain(f.password)),
                       f.image, f.status, []);
    if !ValidFranchise(d) then Err(InvalidPaths(d))
    else Ok(d.(password := Some(Hash(f.password, salt))))
  }

  /** `doc.save()` on a stored franchise whose password was not modified. */
  function Resave(f: Franchise): (r: Result<Franchise, set<string>>)
    ensures r.Ok? <==> ValidFranchise(f)
    ensures r.Ok? ==> r.value == f
  {
    if !ValidFranchise(f) then Err(InvalidPaths(f)) else Ok(f)
  }

  /** The status `toggleFranchiseStatus` writes. */
  function Toggle(status: string): (t: string)
    ensures t in {"approved", "pending"}
    ensures t == "pending" <==> status == "approved"
  {
    if status == "approved" then "pending" else "approved"
  }

  /** The fields of an `editFranchise` body that the schema knows. */
  datatype Edit = Edit(
    fullName: Option<string>,
    email: Option<string>,
    contact: Option<string>,
    city: Option<string>,
    password: Option<Secret>,
    image: Option<string>,
    status: Option<string>)

  /** `findByIdAndUpdate(id, edit)` without validators: every field the body
      carries is written as it is, every other field and the owner and
      agents keep their stored values. */
  function Apply(f: Franchise, e: Edit): (g: Franchise)
    ensures g.user == f.user && g.agents == f.agents
    ensures g.fullName == (if e.fullName.Some? then e.fullName.value else f.fullName)
    ensures g.email == (if e.email.Some? then e.email.value else f.email)
    ensures g.contact == (if e.contact.Some? then e.contact else f.contact)
    ensures g.city == (if e.city.Some? then e.city else f.city)
    ensures g.password == (if e.password.Some? then e.password else f.password)
    ensures g.image == (if e.image.Some? then e.image else f.image)
    ensures g.status == (if e.status.Some? then e.status.value else f.status)
  {
    f.(fullName := e.fullName.GetOr(f.fullName), email := e.email.GetOr(f.email),
       contact := if e.contact.Some? then e.contact else f.contact,
       city := if e.city.Some? then e.city else f.city,
       password := if e.password.Some? then e.password else f.password,
       image := if e.image.Some? then e.image else f.image,
       status := e.status.GetOr(f.status))
  }

  /** `$pull: { agents: x }`: every occurrence of `x` removed, the rest kept
      in order. */
  function Pull(s: seq<Id>, x: Id): (r: seq<Id>)
    ensures |r| <= |s| && x !in r
    ensures forall y :: y != x ==> multiset(r)[y] == multiset(s)[y]
  {
    if s == [] then []
    else
      assert s == [s[0]] + s[1..];
      (if s[0] == x then [] else [s[0]]) + Pull(s[1..], x)
  }

  // ---- properties ----

  /** An edit carrying nothing changes nothing, and sending the same edit
      twice is sending it once. */
  lemma ApplyIdempotent(f: Franchise, e: Edit)
    ensures Apply(f, Edit(None, None, None, None, None, None, None)) == f
    ensures Apply(Apply(f, e), e) == Apply(f, e)
  {
  }

  /** Pulling an id that is not listed changes nothing, so pulling twice is
      pulling once. */
  lemma {:induction false} PullAbsent(s: seq<Id>, x: Id)
    requires x !in s
    ensures Pull(s, x) == s
  {
    if s != [] {
      PullAbsent(s[1..], x);
    }
  }

  lemma PullTwice(s: seq<Id>, x: Id)
    ensures Pull(Pull(s, x), x) == Pull(s, x)
  {
    PullAbsent(Pull(s, x), x);
  }

  /** Pulling an id from the agent list after appending it once to a list
      that did not hold it gives back the list. */
  lemma {:induction false} PullUndoesPush(s: seq<Id>, x: Id)
    requires x !in s
    ensures Pull(s + [x], x) == s
  {
    if s == [] {
      assert [x][1..] == [];
    } else {
      assert (s + [x])[1..] == s[1..] + [x];
      PullUndoesPush(s[1..], x);
    }
  }

  /** A created franchise has a valid status (by default, pending), no agents,
      and a password that verifies against the one it was created with. */
  lemma CreatedFranchise(f: NewFields, salt: nat, entered: string)
    requires Create(f, salt).Ok?
    ensures Create(f, salt).value.status in FranchiseStatuses
    ensures Create(f, salt).value.agents == []
    ensures ComparePassword(entered, Create(f, salt).value.password.value) <==> entered == f.password
  {
  }

  /** Toggling twice restores `approved` and `pending`; `rejected` (and any
      other status) becomes `approved`, so it is not restored. */
  lemma ToggleTwice(status: string)
    ensures status in {"approved", "pending"} ==> Toggle(Toggle(status)) == status
    ensures status !in {"approved", "pending"} ==> Toggle(Toggle(status)) == "pending"
    ensures Toggle("rejected") == "approved"
  {
  }

  /** A toggled franchise stays valid when it was valid apart from its status. */
  lemma ToggleKeepsValid(f: Franchise)
    requires f.fullName != "" && f.email != ""
    ensures ValidFranchise(f.(status := Toggle(f.status)))
  {
  }

  /** An edit can write a status outside the enum, since no validator runs. */
  lemma EditEscapesEnum(f: Franchise)
    ensures Apply(f, Edit(None, None, None, None, None, None, Some("inactive"))).status !in FranchiseStatuses
  {
  }

  /** Saving unchanged keeps the stored hash. */
  lemma ResaveKeepsHash(f: Franchise)
    requires ValidFranchise(f)
    ensures Resave(f).Ok? && Resave(f).value.password == f.password
  {
  }
}
