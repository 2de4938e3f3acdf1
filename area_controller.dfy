/** The area handlers (`src/controllers/area.controller.js`). An area's
    district arrives as an id; `None` is a missing or empty one. */
module AreaController {
  import opened Common
  import opened Text
  import opened ApiErrors
  import opened ApiResponses
  import opened Records
  import opened Store
  import opened Http
  import opened Listing

  // The texts the handlers send.
  const AreaNameRequired := "Area name is required"
  const DistrictRequired := "District is required"
  const DistrictNotFound := "District not found"
  const AreaAlreadyExistsInDistrict := "Area already exists in this district"
  const AreaCreatedSuccessfully := "Area created successfully"
  const AreaNotFound := "Area not found"
  const AreaUpdatedSuccessfully := "Area updated successfully"
  const AreaDeletedSuccessfully := "Area deleted successfully"
  const AreaFetchedSuccessfully := "Area fetched successfully"
  const AreasFetchedSuccessfully := "Areas fetched successfully"

  /** `{ name, district }` as an area filter. */
  function AreaNamed(areas: map<Id, Area>, name: string, district: Id, n: nat): (r: Option<Id>)
    ensures r.Some? ==> r.value in areas && areas[r.value] == Area(name, Some(district))
    ensures r.None? ==> forall k :: k in areas && k < n ==> areas[k] != Area(name, Some(district))
  {
    FirstWhere(areas, (a: Area) => a == Area(name, Some(district)), n)
  }

  datatype CreateOutcome = NameMissing | DistrictMissing | NoDistrict | Exists | Created(area: Area)

  /** The checks of `createArea`, in order. */
  function CreateOutcomeOf(areas: map<Id, Area>, ds: map<Id, District>, name: Option<string>,
                           district: Option<Id>, n: nat): (o: CreateOutcome)
    ensures o.Created? ==> name.Some? && o.area == Area(Trim(name.value), district) && Trim(name.value) != []
    ensures o.Created? ==> district.Some? && district.value in ds
    ensures o.Created? ==> forall k :: k in areas && k < n ==> areas[k] != o.area
  {
    if !Given(name) || Trim(name.value) == [] then NameMissing
    else if district.None? then DistrictMissing
    else if district.value !in ds then NoDistrict
    else if AreaNamed(areas, Trim(name.value), district.value, n).Some? then Exists
    else Created(Area(Trim(name.value), district))
  }

  function CreateReply(o: CreateOutcome, id: Id, now: string): Response
  {
    match o
    case NameMissing => ErrorReply(400, BadRequest(Str(AreaNameRequired), Undefined, now))
    case DistrictMissing => ErrorReply(400, BadRequest(Str(DistrictRequired), Undefined, now))
    case NoDistrict => ErrorReply(404, ApiErrors.NotFound(Str(DistrictNotFound), now))
    case Exists => ErrorReply(400, BadRequest(Str(AreaAlreadyExistsInDistrict), Undefined, now))
    case Created(_) => OkReply(201, Success(Str(AreaCreatedSuccessfully), Ref(id), None, now))
  }

  method CreateArea(db: Db, name: Option<string>, district: Option<Id>, now: string) returns (r: Response)
    requires db.Valid()
    modifies db`areas, db`nextId
    ensures db.Valid()
    ensures var o := CreateOutcomeOf(old(db.areas), old(db.districts), name, district, old(db.nextId));
      && r == CreateReply(o, old(db.nextId), now)
      && (o.Created? ==> db.areas == old(db.areas)[old(db.nextId) := o.area] && db.nextId == old(db.nextId) + 1)
      && (!o.Created? ==> db.areas == old(db.areas) && db.nextId == old(db.nextId))
  {
    ghost var o := CreateOutcomeOf(db.areas, db.districts, name, district, db.nextId);
    if !Given(name) || Trim(name.value) == [] {
      return CreateReply(NameMissing, db.nextId, now);
    }
    if district.None? {
      return CreateReply(DistrictMissing, db.nextId, now);
    }
    if district.value !in db.districts {
      return CreateReply(NoDistrict, db.nextId, now);
    }
    var t := Trim(name.value);
    if AreaNamed(db.areas, t, district.value, db.nextId).Some? {
      return CreateReply(Exists, db.nextId, now);
    }
    var id := db.AddArea(Area(t, district));
    r := CreateReply(Created(Area(t, district)), id, now);
  }

  /** The 400s come before the district lookup, the 404 before the
      duplicate check; a created area has the trimmed name and is not a
      duplicate in its district. */
  lemma CreateOrder(areas: map<Id, Area>, ds: map<Id, District>, name: Option<string>, district: Option<Id>, n: nat)
    ensures var o := CreateOutcomeOf(areas, ds, name, district, n);
      && (o == NameMissing <==> !Given(name) || Trim(name.value) == [])
      && (o == DistrictMissing <==> Given(name) && Trim(name.value) != [] && district.None?)
      && (o == NoDistrict <==> Given(name) && Trim(name.value) != [] && district.Some? && district.value !in ds)
      && (o == Exists <==> Given(name) && Trim(name.value) != [] && district.Some? && district.value in ds
                           && exists k :: k in areas && k < n && areas[k] == Area(Trim(name.value), district))
  {
    var o := CreateOutcomeOf(areas, ds, name, district, n);
    if Given(name) && Trim(name.value) != [] && district.Some? && district.value in ds {
      var f := AreaNamed(areas, Trim(name.value), district.value, n);
      if f.Some? {
        assert areas[f.value] == Area(Trim(name.value), district);
      }
    }
  }

  /** An area after the update: the name changes when the body's trims to
      something, the district when one is given. */
  function Revised(a: Area, name: Option<string>, district: Option<Id>): (b: Area)
    ensures b.name == (if Given(name) && Trim(name.value) != [] then Trim(name.value) else a.name)
    ensures b.district == (if district.Some? then district else a.district)
  {
    Area(if Given(name) && Trim(name.value) != [] then Trim(name.value) else a.name,
         if district.Some? then district else a.district)
  }

  /** `updateArea`: an unknown district is a 404, with nothing written;
      then an unknown area is a 404; otherwise the area is revised. No
      uniqueness check runs. */
  method UpdateArea(db: Db, id: Id, name: Option<string>, district: Option<Id>, now: string) returns (r: Response)
    requires db.Valid()
    modifies db`areas
    ensures db.Valid()
    ensures district.Some? && district.value !in db.districts ==>
      r == ErrorReply(404, ApiErrors.NotFound(Str(DistrictNotFound), now)) && db.areas == old(db.areas)
    ensures !(district.Some? && district.value !in db.districts) && id !in old(db.areas) ==>
      r == ErrorReply(404, ApiErrors.NotFound(Str(AreaNotFound), now)) && db.areas == old(db.areas)
    ensures !(district.Some? && district.value !in db.districts) && id in old(db.areas) ==>
      && db.areas == old(db.areas)[id := Revised(old(db.areas)[id], name, district)]
      && r == OkReply(200, Success(Str(AreaUpdatedSuccessfully), Ref(id), None, now))
  {
    var newName: Option<string> := None;
    if Given(name) && Trim(name.value) != [] {
      newName := Some(Trim(name.value));
    }
    if district.Some? && district.value !in db.districts {
      return ErrorReply(404, ApiErrors.NotFound(Str(DistrictNotFound), now));
    }
    if id !in db.areas {
      return ErrorReply(404, ApiErrors.NotFound(Str(AreaNotFound), now));
    }
    var a := db.areas[id];
    db.PutArea(id, Area(newName.GetOr(a.name), if district.Some? then district else a.district));
    r := OkReply(200, Success(Str(AreaUpdatedSuccessfully), Ref(id), None, now));
  }

  /** An update can give an area the name and district of another: the
      pair that creation keeps unique is not unique after an update. */
  lemma UpdateMakesDuplicate(x: Area, y: Area, d: Id)
    requires x.name != [] && !IsSpace(x.name[0]) && !IsSpace(x.name[|x.name| - 1])
    ensures Revised(y, Some(x.name), Some(d)) == Area(x.name, Some(d))
  {
    TrimKeeps(x.name);
  }

  /** Trimming leaves a string without white space at its ends as it is. */
  lemma TrimKeeps(s: string)
    requires s != [] && !IsSpace(s[0]) && !IsSpace(s[|s| - 1])
    ensures Trim(s) == s
  {
  }

  /** An update with no usable field leaves the area as it was. */
  lemma EmptyUpdateKeeps(a: Area, name: Option<string>)
    requires !Given(name) || Trim(name.value) == []
    ensures Revised(a, name, None) == a
  {
  }

  /** `deleteArea`: removes exactly that area; 404 when it is unknown. */
  method DeleteArea(db: Db, id: Id, now: string) returns (r: Response)
    requires db.Valid()
    modifies db`areas
    ensures db.Valid()
    ensures db.areas == old(db.areas) - {id}
    ensures id !in old(db.areas) ==> r == ErrorReply(404, ApiErrors.NotFound(Str(AreaNotFound), now))
    ensures id in old(db.areas) ==> r == OkReply(200, Success(Str(AreaDeletedSuccessfully), Ref(id), None, now))
  {
    if id !in db.areas {
      return ErrorReply(404, ApiErrors.NotFound(Str(AreaNotFound), now));
    }
    db.areas := db.areas - {id};
    r := OkReply(200, Success(Str(AreaDeletedSuccessfully), Ref(id), None, now));
  }

  function AreaById(areas: map<Id, Area>, id: Id, now: string): (r: Response)
    ensures r.status == 404 <==> id !in areas
    ensures id in areas ==>
      r.status == 200 && r.body.Obj? && "data" in r.body.fields && r.body.fields["data"] == Str(AreaFetchedSuccessfully)
    ensures id in areas ==> "message" in r.body.fields && r.body.fields["message"] == Ref(id)
  {
    if id !in areas then ErrorReply(404, ApiErrors.NotFound(Str(AreaNotFound), now))
    else OkReply(200, Success(Str(AreaFetchedSuccessfully), Ref(id), None, now))
  }

  /** The name an area is sorted by. */
  function AreaName(x: Area): string
  {
    x.name
  }

  /** `getAreas`: every area ascending by name; among equal names the model
      keeps natural order. */
  function GetAreas(areas: map<Id, Area>, n: nat, now: string): Response
  {
    OkReply(200, Success(Str(AreasFetchedSuccessfully), Refs(Ids(SortByKey(NameEntries(areas, AreaName, n)))), None, now))
  }

  /** The reply lists the areas in its `message` (the arguments of
      `success` are swapped) and the fixed text in `data`; the list is
      ordered by name, names every area exactly once and gives each entry
      its area's name. */
  lemma AreasSorted(areas: map<Id, Area>, n: nat, now: string)
    requires forall k :: k in areas ==> k < n
    ensures var r := GetAreas(areas, n, now);
      && r.status == 200 && r.body.Obj? && "message" in r.body.fields && "data" in r.body.fields
      && r.body.fields["message"] == Refs(Ids(SortByKey(NameEntries(areas, AreaName, n))))
      && r.body.fields["data"] == Str(AreasFetchedSuccessfully)
    ensures SortedByKey(SortByKey(NameEntries(areas, AreaName, n)))
    ensures forall k :: k in areas <==> k in Ids(SortByKey(NameEntries(areas, AreaName, n)))
    ensures DistinctIds(SortByKey(NameEntries(areas, AreaName, n)))
    ensures var r := SortByKey(NameEntries(areas, AreaName, n));
      forall i :: 0 <= i < |r| ==> r[i].id in areas && r[i].key == areas[r[i].id].name
  {
    SortedByName(areas, AreaName, n);
  }
}
