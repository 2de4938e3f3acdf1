/** The enquiry handlers (`src/controllers/enquiry.controller.js`): a guest
    or a signed-in user leaves an enquiry, staff list, re-status and delete
    them. Body fields are `None` when the body leaves them undefined. */
module EnquiryController {
  import opened Common
  import opened ApiErrors
  import opened Records
  import opened Store
  import opened Http
  import opened Listing

  // The texts the handlers send.
  const EnquirySubmittedSuccessfully := "Enquiry submitted successfully"
  const NoEnquiriesFound := "No enquiries found"
  const EnquiriesFetchedSuccessfully := "Enquiries fetched successfully"
  const EnquiryNotFound := "Enquiry not found"
  const EnquiryUpdatedSuccessfully := "Enquiry updated successfully"
  const EnquiryDeletedSuccessfully := "Enquiry deleted successfully"

  /** The fields `createEnquiry` reads from the body. */
  datatype Form = Form(
    name: Option<string>,
    contact: Option<string>,
    message: Option<string>,
    email: Option<string>,
    city: Option<string>,
    user: Option<Id>)

  /** Name, contact, email and city must be non-empty strings. */
  predicate Complete(f: Form)
  {
    Given(f.name) && Given(f.contact) && Given(f.email) && Given(f.city)
  }

  /** The enquiry `Enquiry.create` stores: a guest's has no user, and the
      status takes its default. */
  function Submitted(f: Form): (e: Enquiry)
    requires Complete(f)
    ensures e.status == "new" && e.status in EnquiryStatuses
    ensures e.user == f.user && e.message == f.message
    ensures e.name == f.name.value && e.contact == f.contact.value && e.email == f.email.value && e.city == f.city.value
  {
    Enquiry(f.user, f.name.value, f.contact.value, f.message, f.email.value, f.city.value, "new")
  }

  const FieldsMissing := "All required fields must be filled"

  method CreateEnquiry(db: Db, f: Form, now: string) returns (r: Response)
    requires db.Valid()
    modifies db`enquiries, db`nextId
    ensures db.Valid()
    ensures !Complete(f) ==>
      r == Reject(400, FieldsMissing, Undefined, now) && db.enquiries == old(db.enquiries) && db.nextId == old(db.nextId)
    ensures Complete(f) ==>
      && db.enquiries == old(db.enquiries)[old(db.nextId) := Submitted(f)] && db.nextId == old(db.nextId) + 1
      && r == Reply(201, Ref(old(db.nextId)), EnquirySubmittedSuccessfully, now)
  {
    if !Complete(f) {
      return Reject(400, FieldsMissing, Undefined, now);
    }
    var id := db.AddEnquiry(Submitted(f));
    r := Reply(201, Ref(id), EnquirySubmittedSuccessfully, now);
  }

  /** A refused enquiry is the 400 exactly when one of the four fields is
      missing or empty; the message is optional. */
  lemma RequiredFields(f: Form, m: Option<string>)
    ensures Complete(f) <==> Complete(f.(message := m))
    ensures !Complete(f.(name := Some("")))
    ensures !Complete(f.(city := None))
  {
  }

  /** `getAllEnquiries`: newest first; an empty collection is a 404. */
  function AllEnquiries(es: map<Id, Enquiry>, n: nat, now: string): Response
  {
    var ids := NewestFirst(es.Keys, n);
    if ids == [] then Reject(404, NoEnquiriesFound, Undefined, now)
    else Reply(200, Refs(ids), EnquiriesFetchedSuccessfully, now)
  }

  /** The listing names exactly the stored enquiries, newest first, and is a
      404 exactly when there is none. */
  lemma AllEnquiriesExact(es: map<Id, Enquiry>, n: nat, now: string)
    requires forall k :: k in es ==> k < n
    ensures var r := AllEnquiries(es, n, now);
      && (r.status == 404 <==> es == map[])
      && (r.status == 404 ==> r == Reject(404, NoEnquiriesFound, Undefined, now))
      && (r.status == 200 ==>
            && r == Reply(200, Refs(NewestFirst(es.Keys, n)), EnquiriesFetchedSuccessfully, now)
            && (forall k :: k in es <==> k in NewestFirst(es.Keys, n))
            && StrictlyDescending(NewestFirst(es.Keys, n)))
  {
    var ids := NewestFirst(es.Keys, n);
    if es != map[] {
      var k :| k in es;
      assert k in ids;
    }
    assert ids != [] ==> ids[0] in es;
  }

  /** `findByIdAndUpdate(id, { status })` without validators: an undefined
      status is dropped from the update, any other is written as it is. */
  function Restatus(e: Enquiry, status: Option<string>): (d: Enquiry)
    ensures d.status == status.GetOr(e.status)
    ensures d.(status := e.status) == e
  {
    if status.Some? then e.(status := status.value) else e
  }

  method UpdateEnquiry(db: Db, id: Id, status: Option<string>, now: string) returns (r: Response)
    requires db.Valid()
    modifies db`enquiries
    ensures db.Valid()
    ensures id !in old(db.enquiries) ==>
      db.enquiries == old(db.enquiries) && r == Forward(New(Num(404), Str(EnquiryNotFound), Undefined, now), now)
    ensures id in old(db.enquiries) ==>
      && db.enquiries == old(db.enquiries)[id := Restatus(old(db.enquiries)[id], status)]
      && r == Reply(200, Ref(id), EnquiryUpdatedSuccessfully, now)
  {
    if id !in db.enquiries {
      return Forward(New(Num(404), Str(EnquiryNotFound), Undefined, now), now);
    }
    db.PutEnquiry(id, Restatus(db.enquiries[id], status));
    r := Reply(200, Ref(id), EnquiryUpdatedSuccessfully, now);
  }

  /** The status enum is not enforced on update, and re-sending the same
      status changes nothing further. */
  lemma RestatusEscapesEnum(e: Enquiry)
    ensures Restatus(e, Some("spam")).status !in EnquiryStatuses
    ensures Restatus(e, Some("")).status !in EnquiryStatuses
  {
  }

  lemma RestatusIdempotent(e: Enquiry, status: Option<string>)
    ensures Restatus(Restatus(e, status), status) == Restatus(e, status)
  {
  }

  method DeleteEnquiry(db: Db, id: Id, now: string) returns (r: Response)
    requires db.Valid()
    modifies db`enquiries
    ensures db.Valid()
    ensures db.enquiries == old(db.enquiries) - {id}
    ensures id !in old(db.enquiries) ==> r == Reject(404, EnquiryNotFound, Undefined, now)
    ensures id in old(db.enquiries) ==> r == Reply(200, Ref(id), EnquiryDeletedSuccessfully, now)
  {
    if id !in db.enquiries {
      return Reject(404, EnquiryNotFound, Undefined, now);
    }
    db.enquiries := db.enquiries - {id};
    r := Reply(200, Ref(id), EnquiryDeletedSuccessfully, now);
  }
}
