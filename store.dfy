/** The document store the controllers work on: one collection per model,
    ids handed out in increasing order, and the unique indexes the schemas
    declare (user email and contact, franchise user and email, district
    name), which refuse a write with a duplicate-key error. */
module Store {
  import opened Common
  import opened Users
  import opened Franchises
  import opened Records

  /** A property document, field by field (`src/models/property.model.js`). */
  type PropertyDoc = map<string, Val>

  predicate UsersUnique(users: map<Id, User>)
  {
    forall a, b :: a in users && b in users && a != b ==>
      users[a].email != users[b].email && users[a].contact != users[b].contact
  }

  predicate FranchisesUnique(fs: map<Id, Franchise>)
  {
    forall a, b :: a in fs && b in fs && a != b ==> fs[a].email != fs[b].email && fs[a].user != fs[b].user
  }

  predicate DistrictsUnique(ds: map<Id, District>)
  {
    forall a, b :: a in ds && b in ds && a != b ==> ds[a].name != ds[b].name
  }

  /** Writing `u` under id `self` breaks the email or the contact index. */
  predicate UserClash(users: map<Id, User>, u: User, self: Id)
  {
    exists k :: k in users && k != self && (users[k].email == u.email || users[k].contact == u.contact)
  }

  predicate FranchiseClash(fs: map<Id, Franchise>, f: Franchise, self: Id)
  {
    exists k :: k in fs && k != self && (fs[k].email == f.email || fs[k].user == f.user)
  }

  predicate DistrictClash(ds: map<Id, District>, d: District)
  {
    exists k :: k in ds && ds[k].name == d.name
  }

  /** `findOne(filter)` in natural (insertion) order: the oldest document
      below id `n` that satisfies `p`. */
  function FirstWhere<T>(m: map<Id, T>, p: T -> bool, n: nat): (r: Option<Id>)
    ensures r.Some? ==> r.value in m && r.value < n && p(m[r.value])
    ensures r.Some? ==> forall k :: k in m && k < r.value ==> !p(m[k])
    ensures r.None? ==> forall k :: k in m && k < n ==> !p(m[k])
  {
    if n == 0 then None
    else match FirstWhere(m, p, n - 1)
      case Some(k) => Some(k)
      case None => if n - 1 in m && p(m[n - 1]) then Some(n - 1) else None
  }

  /** The ids of the documents of `m` below `n` that satisfy `p`, oldest first. */
  function AllWhere<T>(m: map<Id, T>, p: T -> bool, n: nat): (r: seq<Id>)
    ensures forall i :: 0 <= i < |r| ==> r[i] in m && r[i] < n && p(m[r[i]])
    ensures forall k :: k in m && k < n && p(m[k]) ==> k in r
    ensures forall i, j :: 0 <= i < j < |r| ==> r[i] < r[j]
  {
    if n == 0 then []
    else AllWhere(m, p, n - 1) + (if n - 1 in m && p(m[n - 1]) then [n - 1] else [])
  }

  /** `{ email: e }` as a user filter; the setters normalise the query value. */
  function UserWithEmail(users: map<Id, User>, e: string, n: nat): Option<Id>
  {
    FirstWhere(users, (u: User) => u.email == NormEmail(e), n)
  }

  /** `{ $or: [{ email: x }, { contact: x }] }` as a user filter. */
  function UserWithLogin(users: map<Id, User>, x: string, n: nat): Option<Id>
  {
    FirstWhere(users, (u: User) => u.email == NormEmail(x) || u.contact == NormText(x), n)
  }

  /** `{ $or: [{ contact: c }, { email: e }] }` as a user filter. */
  function UserWithEither(users: map<Id, User>, e: string, c: string, n: nat): Option<Id>
  {
    FirstWhere(users, (u: User) => u.email == NormEmail(e) || u.contact == NormText(c), n)
  }

  /** `{ email: e }` as a franchise filter; the schema declares no setter. */
  function FranchiseWithEmail(fs: map<Id, Franchise>, e: string, n: nat): Option<Id>
  {
    FirstWhere(fs, (f: Franchise) => f.email == e, n)
  }

  /** How `findOneAndUpdate(filter, changes, { runValidators: true })` on the
      users ends: the validators refuse the update (before the query looks
      for a document), no document matches, the write breaks a unique
      index, or the matching document is updated. */
  datatype UpdateOutcome = Invalid | Missing | Duplicate | Updated

  function UpdateOutcomeOf(users: map<Id, User>, id: Id, p: User -> bool, c: Changes): (o: UpdateOutcome)
    ensures o == Updated ==> id in users && p(users[id]) && ChangesValid(c)
    ensures o == Missing <==> ChangesValid(c) && (id !in users || !p(users[id]))
  {
    if !ChangesValid(c) then Invalid
    else if id !in users || !p(users[id]) then Missing
    else if UserClash(users, Users.Apply(users[id], c), id) then Duplicate
    else Updated
  }

  /** `$push: { agents: a }` on franchise `fid`. */
  function WithAgent(fs: map<Id, Franchise>, fid: Id, a: Id): (r: map<Id, Franchise>)
    requires fid in fs
    ensures r.Keys == fs.Keys && r[fid].agents == fs[fid].agents + [a]
    ensures forall k :: k in fs && k != fid ==> r[k] == fs[k]
  {
    fs[fid := fs[fid].(agents := fs[fid].agents + [a])]
  }

  class Db {
    var users: map<Id, User>
    var franchises: map<Id, Franchise>
    var properties: map<Id, PropertyDoc>
    var areas: map<Id, Area>
    var districts: map<Id, District>
    var notifications: map<Id, Notification>
    var enquiries: map<Id, Enquiry>
    var requirements: map<Id, Requirement>
    var streams: map<Id, Stream>
    /** The next id to hand out; every stored id is smaller. */
    var nextId: nat

    ghost predicate Valid()
      reads this
    {
      && (forall k :: k in users ==> k < nextId)
      && (forall k :: k in franchises ==> k < nextId)
      && (forall k :: k in properties ==> k < nextId)
      && (forall k :: k in areas ==> k < nextId)
      && (forall k :: k in districts ==> k < nextId)
      && (forall k :: k in notifications ==> k < nextId)
      && (forall k :: k in enquiries ==> k < nextId)
      && (forall k :: k in requirements ==> k < nextId)
      && (forall k :: k in streams ==> k < nextId)
      && UsersUnique(users) && FranchisesUnique(franchises) && DistrictsUnique(districts)
    }

    constructor ()
      ensures Valid() && nextId == 0
      ensures users == map[] && franchises == map[] && properties == map[] && areas == map[]
      ensures districts == map[] && notifications == map[] && enquiries == map[]
      ensures requirements == map[] && streams == map[]
    {
      users, franchises, properties, areas := map[], map[], map[], map[];
      districts, notifications, enquiries, requirements, streams := map[], map[], map[], map[], map[];
      nextId := 0;
    }

    /** A fresh id, larger than every stored one. */
    method Fresh() returns (id: Id)
      requires Valid()
      modifies this`nextId
      ensures id == old(nextId) && nextId == id + 1 && Valid()
    {
      id := nextId;
      nextId := nextId + 1;
    }

    /** `insertOne` into the users: refused when the email or the contact is taken. */
    method InsertUser(u: User) returns (id: Option<Id>)
      requires Valid()
      modifies this`users, this`nextId
      ensures Valid()
      ensures id.None? <==> UserClash(old(users), u, old(nextId))
      ensures id.None? ==> users == old(users) && nextId == old(nextId)
      ensures id.Some? ==> id.value == old(nextId) && nextId == old(nextId) + 1 && users == old(users)[id.value := u]
    {
      if UserClash(users, u, nextId) {
        id := None;
      } else {
        var k := Fresh();
        users := users[k := u];
        id := Some(k);
      }
    }

    /** Replaces the stored user `id`: refused when another user has the
        same email or contact. */
    method PutUser(id: Id, u: User) returns (ok: bool)
      requires Valid() && id in users
      modifies this`users
      ensures Valid()
      ensures ok <==> !UserClash(old(users), u, id)
      ensures users == if ok then old(users)[id := u] else old(users)
    {
      if UserClash(users, u, id) {
        ok := false;
      } else {
        users := users[id := u];
        ok := true;
      }
    }

    /** `findOneAndUpdate({ _id: id, ...filter }, c, { runValidators: true })`. */
    method UpdateUserWhere(id: Id, p: User -> bool, c: Changes) returns (o: UpdateOutcome)
      requires Valid()
      modifies this`users
      ensures Valid()
      ensures o == UpdateOutcomeOf(old(users), id, p, c)
      ensures users == if o == Updated then old(users)[id := Users.Apply(old(users)[id], c)] else old(users)
    {
      if !ChangesValid(c) {
        return Invalid;
      }
      if id !in users || !p(users[id]) {
        return Missing;
      }
      var ok := PutUser(id, Users.Apply(users[id], c));
      o := if ok then Updated else Duplicate;
    }

    method InsertFranchise(f: Franchise) returns (id: Option<Id>)
      requires Valid()
      modifies this`franchises, this`nextId
      ensures Valid()
      ensures id.None? <==> FranchiseClash(old(franchises), f, old(nextId))
      ensures id.None? ==> franchises == old(franchises) && nextId == old(nextId)
      ensures id.Some? ==> id.value == old(nextId) && nextId == old(nextId) + 1
      ensures id.Some? ==> franchises == old(franchises)[id.value := f]
    {
      if FranchiseClash(franchises, f, nextId) {
        id := None;
      } else {
        var k := Fresh();
        franchises := franchises[k := f];
        id := Some(k);
      }
    }

    method PutFranchise(id: Id, f: Franchise) returns (ok: bool)
      requires Valid() && id in franchises
      modifies this`franchises
      ensures Valid()
      ensures ok <==> !FranchiseClash(old(franchises), f, id)
      ensures franchises == if ok then old(franchises)[id := f] else old(franchises)
    {
      if FranchiseClash(franchises, f, id) {
        ok := false;
      } else {
        franchises := franchises[id := f];
        ok := true;
      }
    }

    /** Appends `a` to the agents of franchise `fid`; the indexes are untouched. */
    method PushAgent(fid: Id, a: Id)
      requires Valid() && fid in franchises
      modifies this`franchises
      ensures Valid()
      ensures franchises == WithAgent(old(franchises), fid, a)
    {
      var g := franchises[fid].(agents := franchises[fid].agents + [a]);
      SameFranchiseKeysNoClash(franchises, fid, g);
      var ok := PutFranchise(fid, g);
    }

    /** `deleteOne` on a user; the indexes of the rest still hold. */
    method RemoveUser(k: Id)
      requires Valid()
      modifies this`users
      ensures Valid() && users == old(users) - {k}
    {
      RemoveKeepsUnique(users, k);
      users := users - {k};
    }

    /** `deleteOne` on a franchise. */
    method RemoveFranchise(k: Id)
      requires Valid()
      modifies this`franchises
      ensures Valid() && franchises == old(franchises) - {k}
    {
      franchises := franchises - {k};
    }

    method AddProperty(d: PropertyDoc) returns (id: Id)
      requires Valid()
      modifies this`properties, this`nextId
      ensures Valid()
      ensures id == old(nextId) && nextId == id + 1 && properties == old(properties)[id := d]
    {
      id := Fresh();
      properties := properties[id := d];
    }

    method PutProperty(id: Id, d: PropertyDoc)
      requires Valid() && id in properties
      modifies this`properties
      ensures Valid() && properties == old(properties)[id := d]
    {
      properties := properties[id := d];
    }

    method AddArea(a: Area) returns (id: Id)
      requires Valid()
      modifies this`areas, this`nextId
      ensures Valid()
      ensures id == old(nextId) && nextId == id + 1 && areas == old(areas)[id := a]
    {
      id := Fresh();
      areas := areas[id := a];
    }

    method PutArea(id: Id, a: Area)
      requires Valid() && id in areas
      modifies this`areas
      ensures Valid() && areas == old(areas)[id := a]
    {
      areas := areas[id := a];
    }

    method AddEnquiry(e: Enquiry) returns (id: Id)
      requires Valid()
      modifies this`enquiries, this`nextId
      ensures Valid()
      ensures id == old(nextId) && nextId == id + 1 && enquiries == old(enquiries)[id := e]
    {
      id := Fresh();
      enquiries := enquiries[id := e];
    }

    method PutEnquiry(id: Id, e: Enquiry)
      requires Valid() && id in enquiries
      modifies this`enquiries
      ensures Valid() && enquiries == old(enquiries)[id := e]
    {
      enquiries := enquiries[id := e];
    }

    method AddRequirement(r: Requirement) returns (id: Id)
      requires Valid()
      modifies this`requirements, this`nextId
      ensures Valid()
      ensures id == old(nextId) && nextId == id + 1 && requirements == old(requirements)[id := r]
    {
      id := Fresh();
      requirements := requirements[id := r];
    }

    method AddStream(st: Stream) returns (id: Id)
      requires Valid()
      modifies this`streams, this`nextId
      ensures Valid()
      ensures id == old(nextId) && nextId == id + 1 && streams == old(streams)[id := st]
    {
      id := Fresh();
      streams := streams[id := st];
    }

    method PutStream(id: Id, st: Stream)
      requires Valid() && id in streams
      modifies this`streams
      ensures Valid() && streams == old(streams)[id := st]
    {
      streams := streams[id := st];
    }

    method InsertDistrict(d: District) returns (id: Option<Id>)
      requires Valid()
      modifies this`districts, this`nextId
      ensures Valid()
      ensures id.None? <==> DistrictClash(old(districts), d)
      ensures id.None? ==> districts == old(districts) && nextId == old(nextId)
      ensures id.Some? ==> id.value == old(nextId) && nextId == old(nextId) + 1
      ensures id.Some? ==> districts == old(districts)[id.value := d]
    {
      if DistrictClash(districts, d) {
        id := None;
      } else {
        var k := Fresh();
        districts := districts[k := d];
        id := Some(k);
      }
    }
  }

  // ---- properties of the queries ----

  /** With unique emails, an email names at most one user, so the lookup by
      email finds exactly the user holding the normalised email. */
  lemma UserWithEmailExact(users: map<Id, User>, e: string, n: nat, k: Id)
    requires UsersUnique(users) && k in users && k < n
    ensures UserWithEmail(users, e, n) == Some(k) <==> users[k].email == NormEmail(e)
  {
  }

  /** A login that names a stored user's email, in any case and with
      surrounding blanks, finds a user. */
  lemma LoginFindsByEmail(users: map<Id, User>, x: string, n: nat, k: Id)
    requires k in users && k < n && users[k].email == NormEmail(x)
    ensures UserWithLogin(users, x, n).Some?
  {
  }

  /** Rewriting the document `findOne` found, with one that still matches,
      leaves the same document found. */
  lemma FirstWhereAfterWrite<T>(m: map<Id, T>, p: T -> bool, n: nat, k: Id, v: T)
    requires FirstWhere(m, p, n) == Some(k) && p(v)
    ensures FirstWhere(m[k := v], p, n) == Some(k)
  {
    var r := FirstWhere(m[k := v], p, n);
    assert m[k := v][k] == v;
    assert forall j :: j in m && j < k ==> m[k := v][j] == m[j];
  }

  /** A user rewritten with its own email and contact breaks no index. */
  lemma SameKeysNoClash(users: map<Id, User>, id: Id, v: User)
    requires UsersUnique(users) && id in users
    requires v.email == users[id].email && v.contact == users[id].contact
    ensures !UserClash(users, v, id)
  {
    forall k | k in users && k != id
      ensures users[k].email != v.email && users[k].contact != v.contact
    {
    }
  }

  /** A franchise rewritten with its own email and user breaks no index. */
  lemma SameFranchiseKeysNoClash(fs: map<Id, Franchise>, id: Id, g: Franchise)
    requires FranchisesUnique(fs) && id in fs
    requires g.email == fs[id].email && g.user == fs[id].user
    ensures !FranchiseClash(fs, g, id)
  {
    forall k | k in fs && k != id
      ensures fs[k].email != g.email && fs[k].user != g.user
    {
    }
  }

  /** Removing one user keeps the uniqueness of the rest. */
  lemma RemoveKeepsUnique(users: map<Id, User>, k: Id)
    requires UsersUnique(users)
    ensures UsersUnique(users - {k})
  {
  }
}
