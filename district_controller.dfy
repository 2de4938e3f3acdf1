/** The district handlers (`src/controllers/district.controller.js`). */
module DistrictController {
  import opened Common
  import opened Text
  import opened ApiErrors
  import opened ApiResponses
  import opened Records
  import opened Store
  import opened Http
  import opened Listing

  // The texts the handlers send.
  const DistrictCreatedSuccessfully := "District created successfully"
  const DistrictsFetchedSuccessfully := "Districts fetched successfully"

  /** `{ name }` as a district filter; the schema has no setter. */
  function DistrictNamed(ds: map<Id, District>, name: string, n: nat): (r: Option<Id>)
    ensures r.Some? ==> r.value in ds && ds[r.value].name == name
    ensures r.None? ==> forall k :: k in ds && k < n ==> ds[k].name != name
  {
    FirstWhere(ds, (d: District) => d.name == name, n)
  }

  const NameRequired := "District name is required"
  const NameTaken := "District with this name already exists"

  /** `createDistrict`: a name (trimmed) that is missing or blank is a 400,
      one an existing district holds is a 400; otherwise the district is
      stored with the trimmed name and sent with message and data swapped. */
  method CreateDistrict(db: Db, name: Option<string>, now: string) returns (r: Response)
    requires db.Valid()
    modifies db`districts, db`nextId
    ensures db.Valid()
    ensures !Given(name) || Trim(name.value) == [] ==>
      r == ErrorReply(400, BadRequest(Str(NameRequired), Undefined, now)) && unchanged(db)
    ensures Given(name) && Trim(name.value) != [] && (exists k :: k in old(db.districts) && old(db.districts)[k].name == Trim(name.value)) ==>
      r == ErrorReply(400, BadRequest(Str(NameTaken), Undefined, now)) && unchanged(db)
    ensures Given(name) && Trim(name.value) != [] && (forall k :: k in old(db.districts) ==> old(db.districts)[k].name != Trim(name.value)) ==>
      && db.districts == old(db.districts)[old(db.nextId) := District(Trim(name.value))]
      && db.nextId == old(db.nextId) + 1
      && r == OkReply(201, Success(Str(DistrictCreatedSuccessfully), Ref(old(db.nextId)), None, now))
  {
    if !Given(name) || Trim(name.value) == [] {
      return ErrorReply(400, BadRequest(Str(NameRequired), Undefined, now));
    }
    var t := Trim(name.value);
    if DistrictNamed(db.districts, t, db.nextId).Some? {
      return ErrorReply(400, BadRequest(Str(NameTaken), Undefined, now));
    }
    var id := db.InsertDistrict(District(t));
    // the lookup found no district with this name, so the unique index admits it
    r := OkReply(201, Success(Str(DistrictCreatedSuccessfully), Ref(id.value), None, now));
  }

  /** The name a district is sorted by. */
  function DistrictName(x: District): string
  {
    x.name
  }

  /** `getDistricts`: every district, ascending by name. */
  function GetDistricts(ds: map<Id, District>, n: nat, now: string): Response
  {
    OkReply(200, Success(Str(DistrictsFetchedSuccessfully), Refs(Ids(SortByKey(NameEntries(ds, DistrictName, n)))), None, now))
  }

  /** The reply lists the districts in its `message` (the arguments of
      `success` are swapped) and the fixed text in `data`; the list is
      ordered by name, names every district exactly once and gives each entry
      its district's name. */
  lemma DistrictsSorted(ds: map<Id, District>, n: nat, now: string)
    requires forall k :: k in ds ==> k < n
    ensures var r := GetDistricts(ds, n, now);
      && r.status == 200 && r.body.Obj? && "message" in r.body.fields && "data" in r.body.fields
      && r.body.fields["message"] == Refs(Ids(SortByKey(NameEntries(ds, DistrictName, n))))
      && r.body.fields["data"] == Str(DistrictsFetchedSuccessfully)
    ensures SortedByKey(SortByKey(NameEntries(ds, DistrictName, n)))
    ensures forall k :: k in ds <==> k in Ids(SortByKey(NameEntries(ds, DistrictName, n)))
    ensures DistinctIds(SortByKey(NameEntries(ds, DistrictName, n)))
    ensures var r := SortByKey(NameEntries(ds, DistrictName, n));
      forall i :: 0 <= i < |r| ==> r[i].id in ds && r[i].key == ds[r[i].id].name
  {
    SortedByName(ds, DistrictName, n);
  }

  /** Creating the same name twice, or the same name padded with spaces,
      stores one district: trimming happens before the lookup. */
  lemma TrimmedDuplicateRefused(ds: map<Id, District>, n: nat, name: string, k: Id)
    requires k in ds && k < n && ds[k].name == Trim(name)
    ensures DistrictNamed(ds, Trim(" " + name + " "), n).Some?
  {
    TrimPadded(name);
  }

  /** Padding with spaces does not change what trimming leaves. */
  lemma TrimPadded(s: string)
    ensures Trim(" " + s + " ") == Trim(s)
  {
    var p := " " + s + " ";
    if AllSpace(s) {
      TrimEmptyIffBlank(s);
      assert AllSpace(p) by {
        forall i | 0 <= i < |p| ensures IsSpace(p[i]) {
          if 0 < i < |p| - 1 { assert p[i] == s[i - 1]; }
        }
      }
      TrimEmptyIffBlank(p);
    } else {
      assert p[1..] == s + " ";
      assert TrimStart(p) == TrimStart(s + " ");
      TrimStartAppend(s, " ");
      var t := TrimStart(s);
      assert (t + " ")[..|t|] == t;
      assert TrimEnd(t + " ") == TrimEnd(t);
    }
  }

  /** Leading white space stops at the first non-space of `s` when `s` has one. */
  lemma {:induction false} TrimStartAppend(s: string, u: string)
    requires !AllSpace(s)
    ensures TrimStart(s + u) == TrimStart(s) + u
  {
    assert s != [];
    if IsSpace(s[0]) {
      assert (s + u)[1..] == s[1..] + u;
      TrimStartAppend(s[1..], u);
    }
  }
}
