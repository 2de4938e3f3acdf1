/** The requirement handlers (`src/controllers/requirement.controller.js`):
    a visitor posts what they are looking for; the listing and the delete
    serve the dashboard. */
module RequirementController {
  import opened Common
  import opened ApiErrors
  import opened Records
  import opened Store
  import opened Http
  import opened Listing

  // The texts the handlers send.
  const AllFieldsAreRequired := "All fields are required"
  const RequirementSubmittedSuccessfully := "Requirement submitted successfully"
  const RequirementsFetchedSuccessfully := "Requirements fetched successfully"
  const RequirementNotFound := "Requirement not found"
  const RequirementDeletedSuccessfully := "Requirement deleted successfully"

  /** The three fields must be non-empty strings, which is also what the
      schema's `required` validators demand, so creation does not fail. */
  method AddRequirement(db: Db, name: Option<string>, phone: Option<string>, requirement: Option<string>,
                        now: string) returns (r: Response)
    requires db.Valid()
    modifies db`requirements, db`nextId
    ensures db.Valid()
    ensures !(Given(name) && Given(phone) && Given(requirement)) ==>
      && r == ErrorReply(400, BadRequest(Str(AllFieldsAreRequired), Undefined, now))
      && db.requirements == old(db.requirements) && db.nextId == old(db.nextId)
    ensures Given(name) && Given(phone) && Given(requirement) ==>
      && db.requirements == old(db.requirements)[old(db.nextId) := Requirement(name.value, phone.value, requirement.value)]
      && db.nextId == old(db.nextId) + 1
      && r == Reply(201, Ref(old(db.nextId)), RequirementSubmittedSuccessfully, now)
  {
    if !(Given(name) && Given(phone) && Given(requirement)) {
      return ErrorReply(400, BadRequest(Str(AllFieldsAreRequired), Undefined, now));
    }
    var id := db.AddRequirement(Requirement(name.value, phone.value, requirement.value));
    r := Reply(201, Ref(id), RequirementSubmittedSuccessfully, now);
  }

  /** `getAllRequirements`: newest first, a 200 even when empty. */
  function AllRequirements(rs: map<Id, Requirement>, n: nat, now: string): Response
  {
    Reply(200, Refs(NewestFirst(rs.Keys, n)), RequirementsFetchedSuccessfully, now)
  }

  /** The listing is always a 200 and names exactly the stored requirements,
      newest first; an empty store gives an empty list. */
  lemma AllRequirementsExact(rs: map<Id, Requirement>, n: nat, now: string)
    requires forall k :: k in rs ==> k < n
    ensures var ids := NewestFirst(rs.Keys, n);
      && AllRequirements(rs, n, now) == Reply(200, Refs(ids), RequirementsFetchedSuccessfully, now)
      && (forall k :: k in rs <==> k in ids)
      && StrictlyDescending(ids)
      && (rs == map[] <==> ids == [])
  {
    var ids := NewestFirst(rs.Keys, n);
    if rs != map[] {
      var k :| k in rs;
      assert k in ids;
    }
  }

  method DeleteRequirement(db: Db, id: Id, now: string) returns (r: Response)
    requires db.Valid()
    modifies db`requirements
    ensures db.Valid()
    ensures db.requirements == old(db.requirements) - {id}
    ensures id !in old(db.requirements) ==> r == ErrorReply(404, ApiErrors.NotFound(Str(RequirementNotFound), now))
    ensures id in old(db.requirements) ==> r == Reply(200, Null, RequirementDeletedSuccessfully, now)
  {
    if id !in db.requirements {
      return ErrorReply(404, ApiErrors.NotFound(Str(RequirementNotFound), now));
    }
    db.requirements := db.requirements - {id};
    r := Reply(200, Null, RequirementDeletedSuccessfully, now);
  }
}
