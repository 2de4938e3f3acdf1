/** The property handlers (`src/controllers/property.controller.js`) over
    the property documents of `src/models/property.model.js`. A document is
    its map from schema path to value. The create and update routes take
    multipart bodies, so their values arrive as strings; the `Number` paths
    are cast as Mongoose casts them (`CastNumber`), and a reference is taken
    to arrive as `Ref`, already cast to a document id. */
module PropertyController {
  import opened Common
  import opened ApiErrors
  import opened ApiResponses
  import opened Store
  import opened Http
  import opened Listing
  import Media
  import Text

  // The texts the handlers send.
  const NotInEnumFor := "` is not a valid enum value for path `"
  const TitleRequired := "Title is required"
  const CategoryRequired := "Category is required"
  const SellingTypeRequired := "Selling type is required"
  const PriceRequired := "Price is required"
  const PropertyCreatedSuccessfully := "Property created successfully"
  const TooManyImages := "Maximum 4 images are allowed."
  const ValidationFailed := "Validation failed"
  const TooManyImagesOnUpdate := "Maximum 4 images are allowed"
  const PropertyNotFound := "Property not found"
  const PropertyUpdatedSuccessfully := "Property updated successfully"
  const PropertiesFetched := "Properties fetched"
  const PropertyFetched := "Property fetched"
  const PropertyDeletedSuccessfully := "Property deleted successfully"
  const UnauthorizedAccess := "Unauthorized access"
  const OnlyAgentsFranchisesCanView := "Only agents or franchises can view their properties"
  const MyPropertiesFetched := "My properties fetched"

  const Categories: set<string> := {"Property", "Plot", "House", "Agricultural Land", "Property Land"}
  const SellingTypes: set<string> := {"Sale", "Rent", "Lease"}
  const PropertyStatuses: set<string> := {"Available", "Sold", "Rented", "Pending"}

  /** The paths of the schema; the strict schema drops every other key. */
  const SchemaPaths: set<string> := {"title", "category", "features", "images", "video", "sellingType",
                                     "price", "areaSize", "district", "area", "address", "status",
                                     "contactNumber", "agent", "franchise"}

  /** The reference paths whose empty values an update strips. */
  const RefPaths: seq<string> := ["district", "area", "agent", "franchise"]

  /** The cap on images per request. */
  const MaxImages: nat := 4

  function Get(d: map<string, Val>, k: string): (v: Val)
    ensures k !in d ==> v == Undefined
  {
    if k in d then d[k] else Undefined
  }

  // ---- validation ----

  /** One failed validator: the path and the message it reports. */
  datatype FieldError = FieldError(path: string, message: string)

  /** What a handler can catch: a `ValidationError` whose `errors` object
      lists its entries in key order, or any other error. */
  datatype Failure = ValidationError(errors: seq<FieldError>) | OtherError(message: string)

  /** Mongoose's `required` check fails on undefined, null and the empty string. */
  predicate Blank(v: Val)
  {
    v.Undefined? || v.Null? || v == Str("")
  }

  predicate InEnum(v: Val, allowed: set<string>)
  {
    v.Str? && v.s in allowed
  }

  /** Mongoose's default enum message. */
  function EnumMessage(v: Val, path: string): string
  {
    "`" + ErrorMessage(v) + NotInEnumFor + path + "`."
  }

  function RequiredPath(d: map<string, Val>, path: string, message: string): (es: seq<FieldError>)
    ensures es == [] <==> !Blank(Get(d, path))
    ensures |es| <= 1 && forall i :: 0 <= i < |es| ==> es[i].path == path
  {
    if Blank(Get(d, path)) then [FieldError(path, message)] else []
  }

  /** A required enum path: the `required` message first, the enum one only
      for a value that is present. */
  function RequiredEnumPath(d: map<string, Val>, path: string, allowed: set<string>, message: string): (es: seq<FieldError>)
    requires "" !in allowed
    ensures es == [] <==> InEnum(Get(d, path), allowed)
    ensures |es| <= 1 && forall i :: 0 <= i < |es| ==> es[i].path == path
  {
    var v := Get(d, path);
    if Blank(v) then [FieldError(path, message)]
    else if !InEnum(v, allowed) then [FieldError(path, EnumMessage(v, path))]
    else []
  }

  /** An optional enum path: only an undefined value skips the enum check. */
  function OptionalEnumPath(d: map<string, Val>, path: string, allowed: set<string>): (es: seq<FieldError>)
    ensures es == [] <==> Get(d, path).Undefined? || InEnum(Get(d, path), allowed)
    ensures |es| <= 1 && forall i :: 0 <= i < |es| ==> es[i].path == path
  {
    var v := Get(d, path);
    if v.Undefined? || InEnum(v, allowed) then [] else [FieldError(path, EnumMessage(v, path))]
  }

  /** Every validator of the schema passes. */
  predicate ValidDoc(d: map<string, Val>)
  {
    && !Blank(Get(d, "title"))
    && InEnum(Get(d, "category"), Categories)
    && InEnum(Get(d, "sellingType"), SellingTypes)
    && !Blank(Get(d, "price"))
    && (Get(d, "status").Undefined? || InEnum(Get(d, "status"), PropertyStatuses))
  }

  predicate DistinctPaths(es: seq<FieldError>)
  {
    forall i, j :: 0 <= i < j < |es| ==> es[i].path != es[j].path
  }

  /** The errors of `doc.save()`, one per failing path. The model lists
      them in the order the schema declares the paths, which need not be
      Mongoose's; `DocErrorPaths` states what does not depend on the order. */
  function DocErrors(d: map<string, Val>): (es: seq<FieldError>)
    ensures es == [] <==> ValidDoc(d)
    ensures DistinctPaths(es)
  {
    var a := RequiredPath(d, "title", TitleRequired);
    var b := RequiredEnumPath(d, "category", Categories, CategoryRequired);
    var c := RequiredEnumPath(d, "sellingType", SellingTypes, SellingTypeRequired);
    var p := RequiredPath(d, "price", PriceRequired);
    var s := OptionalEnumPath(d, "status", PropertyStatuses);
    a + b + c + p + s
  }

  /** The paths named by a list of errors. */
  function PathsOf(es: seq<FieldError>): set<string>
  {
    if es == [] then {} else PathsOf(es[..|es| - 1]) + {es[|es| - 1].path}
  }

  /** The paths whose validators fail, with no order: a blank title or
      price, a category or selling type that is missing or outside its enum,
      and a status that is given but outside its enum. */
  function FailingPaths(d: map<string, Val>): set<string>
  {
    (if Blank(Get(d, "title")) then {"title"} else {})
    + (if InEnum(Get(d, "category"), Categories) then {} else {"category"})
    + (if InEnum(Get(d, "sellingType"), SellingTypes) then {} else {"sellingType"})
    + (if Blank(Get(d, "price")) then {"price"} else {})
    + (if Get(d, "status").Undefined? || InEnum(Get(d, "status"), PropertyStatuses) then {} else {"status"})
  }

  /** Whatever order `save()` lists them in, its errors name exactly the
      failing paths (and, by `DocErrors`, each of them once). */
  lemma DocErrorPaths(d: map<string, Val>)
    ensures PathsOf(DocErrors(d)) == FailingPaths(d)
  {
    var a := RequiredPath(d, "title", TitleRequired);
    var b := RequiredEnumPath(d, "category", Categories, CategoryRequired);
    var c := RequiredEnumPath(d, "sellingType", SellingTypes, SellingTypeRequired);
    var p := RequiredPath(d, "price", PriceRequired);
    var s := OptionalEnumPath(d, "status", PropertyStatuses);
    assert DocErrors(d) == a + b + c + p + s;
    PathsOfFive(a, b, c, p, s, "title", "category", "sellingType", "price", "status");
  }

  /** The paths of five lists of at most one error each. */
  lemma PathsOfFive(a: seq<FieldError>, b: seq<FieldError>, c: seq<FieldError>, p: seq<FieldError>, s: seq<FieldError>,
                    na: string, nb: string, nc: string, np: string, ns: string)
    requires |a| <= 1 && (a != [] ==> a[0].path == na)
    requires |b| <= 1 && (b != [] ==> b[0].path == nb)
    requires |c| <= 1 && (c != [] ==> c[0].path == nc)
    requires |p| <= 1 && (p != [] ==> p[0].path == np)
    requires |s| <= 1 && (s != [] ==> s[0].path == ns)
    ensures PathsOf(a + b + c + p + s) ==
      (if a == [] then {} else {na}) + (if b == [] then {} else {nb}) + (if c == [] then {} else {nc})
      + (if p == [] then {} else {np}) + (if s == [] then {} else {ns})
  {
    PathsOfSingle(a, na);
    PathsOfAddOne(a, b, nb);
    PathsOfAddOne(a + b, c, nc);
    PathsOfAddOne(a + b + c, p, np);
    PathsOfAddOne(a + b + c + p, s, ns);
  }

  lemma PathsOfSingle(y: seq<FieldError>, path: string)
    requires |y| <= 1 && (y != [] ==> y[0].path == path)
    ensures PathsOf(y) == (if y == [] then {} else {path})
  {
    if y != [] {
      assert y[..0] == [];
    }
  }

  /** Appending the errors of one path adds that path, if there are any. */
  lemma PathsOfAddOne(x: seq<FieldError>, y: seq<FieldError>, path: string)
    requires |y| <= 1 && (y != [] ==> y[0].path == path)
    ensures PathsOf(x + y) == PathsOf(x) + (if y == [] then {} else {path})
  {
    if y == [] {
      assert x + y == x;
    } else {
      assert (x + y)[..|x + y| - 1] == x;
    }
  }

  /** The errors of `es` when the update writes `path`, else none. */
  function IfWritten(s: map<string, Val>, path: string, es: seq<FieldError>): (r: seq<FieldError>)
    ensures path in s ==> r == es
    ensures path !in s ==> r == []
  {
    if path in s then es else []
  }

  /** The errors of an update run with validators: the validators of the
      paths that `$set` writes, and of no other path. */
  function SetErrors(s: map<string, Val>): (es: seq<FieldError>)
    ensures forall i :: 0 <= i < |es| ==> es[i].path in s
    ensures DistinctPaths(es)
  {
    var a := IfWritten(s, "title", RequiredPath(s, "title", TitleRequired));
    var b := IfWritten(s, "category", RequiredEnumPath(s, "category", Categories, CategoryRequired));
    var c := IfWritten(s, "sellingType", RequiredEnumPath(s, "sellingType", SellingTypes, SellingTypeRequired));
    var p := IfWritten(s, "price", RequiredPath(s, "price", PriceRequired));
    var t := IfWritten(s, "status", OptionalEnumPath(s, "status", PropertyStatuses));
    DistinctPieces(a, b, c, p, t, "title", "category", "sellingType", "price", "status");
    a + b + c + p + t
  }

  /** Errors on at most one path each, the paths all different, have
      distinct paths together. */
  lemma DistinctPieces(a: seq<FieldError>, b: seq<FieldError>, c: seq<FieldError>, p: seq<FieldError>,
                       t: seq<FieldError>, pa: string, pb: string, pc: string, pp: string, pt: string)
    requires |a| <= 1 && |b| <= 1 && |c| <= 1 && |p| <= 1 && |t| <= 1
    requires (forall i :: 0 <= i < |a| ==> a[i].path == pa) && (forall i :: 0 <= i < |b| ==> b[i].path == pb)
    requires (forall i :: 0 <= i < |c| ==> c[i].path == pc) && (forall i :: 0 <= i < |p| ==> p[i].path == pp)
    requires forall i :: 0 <= i < |t| ==> t[i].path == pt
    requires pa != pb && pa != pc && pa != pp && pa != pt && pb != pc && pb != pp && pb != pt
    requires pc != pp && pc != pt && pp != pt
    ensures DistinctPaths(a + b + c + p + t)
  {
    AppendDistinct(a, b, {pa});
    AppendDistinct(a + b, c, {pa, pb});
    AppendDistinct(a + b + c, p, {pa, pb, pc});
    AppendDistinct(a + b + c + p, t, {pa, pb, pc, pp});
  }

  /** Appending errors on paths outside `seen` keeps the paths distinct. */
  lemma AppendDistinct(x: seq<FieldError>, y: seq<FieldError>, seen: set<string>)
    requires DistinctPaths(x) && DistinctPaths(y)
    requires forall i :: 0 <= i < |x| ==> x[i].path in seen
    requires forall j :: 0 <= j < |y| ==> y[j].path !in seen
    ensures DistinctPaths(x + y)
  {
  }

  function Paths(es: seq<FieldError>): set<string>
  {
    set i | 0 <= i < |es| :: es[i].path
  }

  /** No later entry has the path of entry `i`. */
  predicate LastFor(es: seq<FieldError>, i: nat)
  {
    forall j :: i < j < |es| ==> es[j].path != es[i].path
  }

  /** `v` is what `formatValidationError` builds from `es`: an object with one
      key per path, holding the message of the last entry for that path (all
      of them, when the paths are distinct). */
  ghost predicate FormatsErrors(es: seq<FieldError>, v: Val)
  {
    && v.Obj?
    && v.fields.Keys == Paths(es)
    && forall i :: 0 <= i < |es| && LastFor(es, i) ==> v.fields[es[i].path] == Str(es[i].message)
  }

  /** The object of `formatValidationError` for the entries `es`, filled in
      entry by entry. */
  function Formatted(es: seq<FieldError>): (v: Val)
    ensures v.Obj?
  {
    if es == [] then Obj(map[])
    else
      var last := es[|es| - 1];
      Obj(Formatted(es[..|es| - 1]).fields[last.path := Str(last.message)])
  }

  /** The object holds one key per path, with the message of the last entry
      for that path. */
  lemma {:induction false} FormattedMeaning(es: seq<FieldError>)
    ensures FormatsErrors(es, Formatted(es))
  {
    FormattedKeys(es);
    forall i | 0 <= i < |es| && LastFor(es, i)
      ensures Formatted(es).fields[es[i].path] == Str(es[i].message)
    {
      FormattedAt(es, i);
    }
  }

  lemma {:induction false} FormattedKeys(es: seq<FieldError>)
    ensures Formatted(es).fields.Keys == Paths(es)
  {
    if es != [] {
      var n := |es| - 1;
      var init := es[..n];
      FormattedKeys(init);
      forall k | k in Paths(es) ensures k in Paths(init) + {es[n].path} {
        var i :| 0 <= i < |es| && es[i].path == k;
        if i < n { assert init[i].path == k; }
      }
      forall k | k in Paths(init) ensures k in Paths(es) {
        var i :| 0 <= i < n && init[i].path == k;
        assert es[i].path == k;
      }
    }
  }

  lemma {:induction false} FormattedAt(es: seq<FieldError>, i: nat)
    requires i < |es| && LastFor(es, i)
    ensures es[i].path in Formatted(es).fields && Formatted(es).fields[es[i].path] == Str(es[i].message)
  {
    var n := |es| - 1;
    if i < n {
      var init := es[..n];
      assert init[i] == es[i];
      assert LastFor(init, i);
      FormattedAt(init, i);
      assert es[n].path != es[i].path;
    }
  }

  /** `formatValidationError`: a field-to-message object for a validation
      error, null for any other error. */
  method FormatValidationError(err: Failure) returns (r: Val)
    ensures err.OtherError? ==> r == Null
    ensures err.ValidationError? ==> r == Formatted(err.errors)
  {
    if err.OtherError? {
      return Null;
    }
    var es := err.errors;
    var errors: map<string, Val> := map[];
    for i := 0 to |es|
      invariant Obj(errors) == Formatted(es[..i])
    {
      assert es[..i + 1][..i] == es[..i];
      errors := errors[es[i].path := Str(es[i].message)];
    }
    assert es[..|es|] == es;
    r := Obj(errors);
  }

  /** With distinct paths the object holds every entry's message. */
  lemma FormattedDistinct(es: seq<FieldError>, i: nat)
    requires DistinctPaths(es) && i < |es|
    ensures es[i].path in Formatted(es).fields && Formatted(es).fields[es[i].path] == Str(es[i].message)
  {
    FormattedMeaning(es);
  }

  /** The `errors` array of `createProperty`'s 400: one `{ field, message }`
      per key of the errors object. */
  function ErrorList(es: seq<FieldError>): (v: Val)
    ensures v.Arr? && |v.items| == |es|
    ensures forall i :: 0 <= i < |es| ==>
              v.items[i] == Obj(map["field" := Str(es[i].path), "message" := Str(es[i].message)])
  {
    Arr(seq(|es|, i requires 0 <= i < |es| => Obj(map["field" := Str(es[i].path), "message" := Str(es[i].message)])))
  }

  // ---- uploads ----

  /** The loop over the image uploads: each upload's `secure_url`, when
      truthy, is collected. The upload result has no such field, so nothing
      ever is. */
  method SecureUrls(uploads: seq<Option<Media.Uploaded>>) returns (urls: seq<Val>)
    ensures urls == []
  {
    urls := [];
    for i := 0 to |uploads|
      invariant urls == []
    {
      Media.NoSecureUrl(uploads[i]);
      var url := Field(Media.UploadVal(uploads[i]), "secure_url");
      if Truthy(url) {
        urls := urls + [url];
      }
    }
  }

  /** The video URL: the `secure_url` of the upload when a video came, else
      null; for the same reason it is always null. */
  function VideoUrl(video: Option<Option<Media.Uploaded>>): (v: Val)
    ensures v == Null
  {
    if video.Some? then
      Media.NoSecureUrl(video.value);
      var url := Field(Media.UploadVal(video.value), "secure_url");
      if Truthy(url) then url else Null
    else Null
  }

  // ---- createProperty ----

  /** The body keys the schema knows, without undefined values. */
  function Known(body: map<string, Val>): (d: map<string, Val>)
    ensures forall k :: k in d <==> k in body && k in SchemaPaths && !body[k].Undefined?
    ensures forall k :: k in d ==> d[k] == body[k]
  {
    map k | k in body && k in SchemaPaths && !body[k].Undefined? :: body[k]
  }

  /** The paths the schema types as `Number`. */
  const NumberPaths: set<string> := {"price", "areaSize"}

  predicate IsDigit(c: char)
  {
    '0' <= c <= '9'
  }

  predicate AllDigits(t: string)
  {
    forall i :: 0 <= i < |t| ==> IsDigit(t[i])
  }

  /** The value of a string of decimal digits. */
  function DigitsValue(t: string): (v: nat)
    requires AllDigits(t)
    decreases |t|
  {
    if t == [] then 0 else DigitsValue(t[..|t| - 1]) * 10 + (t[|t| - 1] as int - '0' as int)
  }

  /** `Number(t)` for a trimmed text that is an integer in decimal, with an
      optional sign; `None` for any other text. */
  function IntegerText(t: string): (r: Option<int>)
    ensures r.Some? ==> t != []
  {
    if t != [] && AllDigits(t) then Some(DigitsValue(t))
    else if |t| > 1 && t[0] == '-' && AllDigits(t[1..]) then Some(-(DigitsValue(t[1..]) as int))
    else if |t| > 1 && t[0] == '+' && AllDigits(t[1..]) then Some(DigitsValue(t[1..]))
    else None
  }

  /** Mongoose's cast of a value written to a `Number` path: the empty
      string is null, a string is `Number(s)` (which ignores surrounding
      white space, and reads a blank text as 0), a boolean is 0 or 1, and a
      number or null is kept. Any other string is kept as it is. */
  function CastNumber(v: Val): (c: Val)
    ensures v.Num? || v.Null? || v.Undefined? ==> c == v
    ensures v == Str("") ==> c == Null
    ensures v.Bool? ==> c == Num(if v.b then 1 else 0)
  {
    match v
    case Str(s) =>
      if s == "" then Null
      else if Text.Trim(s) == "" then Num(0)
      else
        var t := IntegerText(Text.Trim(s));
        if t.Some? then Num(t.value) else v
    case Bool(b) => Num(if b then 1 else 0)
    case _ => v
  }

  /** The decimal digits `String(n)` writes are digits and read back as `n`. */
  lemma {:induction false} DigitsOfDecimal(n: nat)
    ensures AllDigits(Decimal(n)) && DigitsValue(Decimal(n)) == n
    decreases n
  {
    var d := ['0', '1', '2', '3', '4', '5', '6', '7', '8', '9'][n % 10];
    if n >= 10 {
      DigitsOfDecimal(n / 10);
      var t := Decimal(n);
      assert t == Decimal(n / 10) + [d];
      assert t[..|t| - 1] == Decimal(n / 10);
    }
  }

  /** The cast reads back every number written in decimal: a price sent as
      the text of `n` (or of `-n`) is stored as the number. */
  lemma CastOfDecimal(n: nat)
    ensures CastNumber(Str(Decimal(n))) == Num(n)
    ensures n > 0 ==> CastNumber(Str("-" + Decimal(n))) == Num(-(n as int))
  {
    DigitsOfDecimal(n);
    var t := Decimal(n);
    assert Text.Trim(t) == t by {
      assert !Text.IsSpace(t[0]) && !Text.IsSpace(t[|t| - 1]);
    }
    var m := "-" + t;
    assert m[1..] == t;
    assert Text.Trim(m) == m by {
      assert !Text.IsSpace(m[0]) && !Text.IsSpace(m[|m| - 1]);
    }
  }

  /** A body value as the schema stores it at path `k`. */
  function CastPath(k: string, v: Val): Val
  {
    if k in NumberPaths then CastNumber(v) else v
  }

  /** The known body keys, each cast to its path's type. */
  function CastKnown(body: map<string, Val>): (d: map<string, Val>)
    ensures forall k :: k in d <==> k in body && k in SchemaPaths && !body[k].Undefined?
    ensures forall k :: k in d ==> d[k] == CastPath(k, body[k])
  {
    map k | k in Known(body) :: CastPath(k, body[k])
  }

  /** `new Property({ ...data, agent: req.user?._id || data.agent, images, video })`,
      with the status default applied. */
  function NewDoc(body: map<string, Val>, user: Option<Id>, images: seq<Val>, video: Val): (d: map<string, Val>)
  {
    var agent := if user.Some? then Ref(user.value) else Get(body, "agent");
    var base := CastKnown(body)["images" := Arr(images)]["video" := video];
    var withAgent := if agent.Undefined? then base - {"agent"} else base["agent" := agent];
    if Get(withAgent, "status").Undefined? then withAgent["status" := Str("Available")] else withAgent
  }

  datatype CreateOutcome = CreateCapped | CreateInvalid(errors: seq<FieldError>) | Saved(doc: map<string, Val>)

  function CreateOutcomeOf(body: map<string, Val>, images: nat, user: Option<Id>): (o: CreateOutcome)
    ensures o.CreateInvalid? ==> o.errors != [] && DistinctPaths(o.errors)
  {
    var d := NewDoc(body, user, [], Null);
    if images > MaxImages then CreateCapped
    else if DocErrors(d) != [] then CreateInvalid(DocErrors(d))
    else Saved(d)
  }

  /** The hand-written JSON bodies of `createProperty`. */
  function Plain(success: bool, message: string): Val
  {
    Obj(map["success" := Bool(success), "message" := Str(message)])
  }

  method CreateProperty(db: Db, body: map<string, Val>, images: seq<Option<Media.Uploaded>>,
                        video: Option<Option<Media.Uploaded>>, user: Option<Id>) returns (r: Response)
    requires db.Valid()
    modifies db`properties, db`nextId
    ensures db.Valid()
    ensures CreateOutcomeOf(body, |images|, user).Saved? ==>
      && db.properties == old(db.properties)[old(db.nextId) := CreateOutcomeOf(body, |images|, user).doc]
      && db.nextId == old(db.nextId) + 1
      && r == Response(201, Obj(Plain(true, PropertyCreatedSuccessfully).fields["data" := Ref(old(db.nextId))]))
    ensures !CreateOutcomeOf(body, |images|, user).Saved? ==>
      db.properties == old(db.properties) && db.nextId == old(db.nextId)
    ensures CreateOutcomeOf(body, |images|, user).CreateCapped? ==>
      r == Response(400, Plain(false, TooManyImages))
    ensures CreateOutcomeOf(body, |images|, user).CreateInvalid? ==>
      r == Response(400, Obj(Plain(false, ValidationFailed).fields["errors" :=
                                ErrorList(CreateOutcomeOf(body, |images|, user).errors)]))
  {
    if |images| > MaxImages {
      return Response(400, Plain(false, TooManyImages));
    }
    var urls := SecureUrls(images);
    var d := NewDoc(body, user, urls, VideoUrl(video));
    var errors := DocErrors(d);
    if errors != [] {
      return Response(400, Obj(Plain(false, ValidationFailed).fields["errors" := ErrorList(errors)]));
    }
    var id := db.AddProperty(d);
    r := Response(201, Obj(Plain(true, PropertyCreatedSuccessfully).fields["data" := Ref(id)]));
  }

  /** More than four images are refused whatever the body holds. */
  lemma CreateCappedFirst(body: map<string, Val>, images: nat, user: Option<Id>)
    requires images > MaxImages
    ensures CreateOutcomeOf(body, images, user) == CreateCapped
  {
  }

  /** A saved property passes every validator; its agent is the signed-in
      user when there is one, else the body's `agent`; it has no images and
      no video; its status is the body's or `Available`; every other schema
      path is the body's. */
  lemma SavedProperty(body: map<string, Val>, images: nat, user: Option<Id>)
    requires CreateOutcomeOf(body, images, user).Saved?
    ensures var d := CreateOutcomeOf(body, images, user).doc;
      && ValidDoc(d)
      && Get(d, "agent") == (if user.Some? then Ref(user.value) else Get(body, "agent"))
      && d["images"] == Arr([]) && d["video"] == Null
      && d["status"] == (if Get(body, "status").Undefined? then Str("Available") else body["status"])
      && d.Keys <= SchemaPaths
      && forall k :: k in body && k in SchemaPaths && k !in {"agent", "images", "video"} ==> Get(d, k) == (if k == "status" && body[k].Undefined? then Str("Available") else CastPath(k, body[k]))
  {
    NewDocShape(body, user);
  }

  /** The document a create builds, before validation. */
  lemma NewDocShape(body: map<string, Val>, user: Option<Id>)
    ensures var d := NewDoc(body, user, [], Null);
      && Get(d, "agent") == (if user.Some? then Ref(user.value) else Get(body, "agent"))
      && d["images"] == Arr([]) && d["video"] == Null
      && d["status"] == (if Get(body, "status").Undefined? then Str("Available") else body["status"])
      && d.Keys <= SchemaPaths
      && forall k :: k in body && k in SchemaPaths && k !in {"agent", "images", "video"} ==> Get(d, k) == (if k == "status" && body[k].Undefined? then Str("Available") else CastPath(k, body[k]))
  {
  }

  /** A price sent as the text of a number is stored as that number, so a
      listing with a lower bound at or below it admits the price. */
  lemma TextPriceStored(body: map<string, Val>, user: Option<Id>, images: seq<Val>, video: Val, p: nat, lo: int)
    requires "price" in body && body["price"] == Str(Decimal(p)) && lo <= p
    ensures Get(NewDoc(body, user, images, video), "price") == Num(p)
    ensures InRange(map["$gte" := Num(lo)], Get(NewDoc(body, user, images, video), "price"))
  {
    CastOfDecimal(p);
  }

  /** A body that fails a validator is refused with exactly the failing paths. */
  lemma CreateRefusesInvalid(body: map<string, Val>, images: nat, user: Option<Id>)
    requires images <= MaxImages
    ensures CreateOutcomeOf(body, images, user).CreateInvalid? <==> !ValidDoc(NewDoc(body, user, [], Null))
  {
  }

  // ---- updateProperty ----

  predicate EmptyRef(v: Val)
  {
    v == Str("") || v.Undefined?
  }

  /** The update with every reference path holding `''` or undefined
      deleted, and every other key as it was. */
  function Stripped(updates: map<string, Val>): (r: map<string, Val>)
    ensures forall k :: k in r ==> k in updates && r[k] == updates[k]
    ensures forall k :: k in updates && k !in RefPaths ==> k in r
    ensures forall k :: k in updates && k in RefPaths ==> (k in r <==> !EmptyRef(updates[k]))
  {
    map k | k in updates && !(k in RefPaths && EmptyRef(updates[k])) :: updates[k]
  }

  /** The loop over `district`, `area`, `agent` and `franchise` that deletes
      the empty ones from the update. */
  method StripEmptyRefs(updates: map<string, Val>) returns (r: map<string, Val>)
    ensures r == Stripped(updates)
  {
    r := updates;
    for i := 0 to |RefPaths|
      invariant forall k :: k in r ==> k in updates && r[k] == updates[k]
      invariant forall k :: k in updates && k !in RefPaths[..i] ==> k in r
      invariant forall k :: k in updates && k in RefPaths[..i] ==> (k in r <==> !EmptyRef(updates[k]))
    {
      var f := RefPaths[i];
      assert RefPaths[..i + 1] == RefPaths[..i] + [f];
      if f in r && EmptyRef(r[f]) {
        r := r - {f};
      }
    }
    assert RefPaths[..|RefPaths|] == RefPaths;
  }

  /** What `$set: updates` writes on the stored document: the schema paths
      with a defined value, cast to their path's type; every other key is
      dropped. */
  function SetPart(updates: map<string, Val>): (s: map<string, Val>)
    ensures forall k :: k in s <==> k in updates && k in SchemaPaths && !updates[k].Undefined?
    ensures forall k :: k in s && k !in NumberPaths ==> s[k] == updates[k]
    ensures forall k :: k in s && k in NumberPaths ==> s[k] == CastNumber(updates[k])
  {
    CastKnown(updates)
  }

  /** The stored document after `$set`. */
  function ApplySet(d: map<string, Val>, s: map<string, Val>): (e: map<string, Val>)
    ensures forall k :: k in e <==> k in d || k in s
    ensures forall k :: k in s ==> e[k] == s[k]
    ensures forall k :: k in d && k !in s ==> e[k] == d[k]
  {
    map k | k in d.Keys + s.Keys :: if k in s then s[k] else d[k]
  }

  datatype UpdateResult = UpdateCapped | UpdateInvalid(errors: seq<FieldError>) | NoProperty | Changed(doc: map<string, Val>)

  /** The update a request makes before the query: the body with its empty
      references stripped, and `images: []` when new images came. */
  function Updates(stripped: map<string, Val>, images: nat): (u: map<string, Val>)
    ensures images == 0 ==> u == stripped
    ensures images > 0 ==> u == stripped["images" := Arr([])]
  {
    if images > 0 then stripped["images" := Arr([])] else stripped
  }

  function UpdateResultOf(props: map<Id, map<string, Val>>, id: Id, stripped: map<string, Val>, images: nat): (o: UpdateResult)
    ensures o.UpdateInvalid? ==> o.errors != [] && DistinctPaths(o.errors)
    ensures o.Changed? ==> id in props
  {
    var s := SetPart(Updates(stripped, images));
    if images > MaxImages then UpdateCapped
    else if SetErrors(s) != [] then UpdateInvalid(SetErrors(s))
    else if id !in props then NoProperty
    else Changed(ApplySet(props[id], s))
  }

  /** `ApiError.badRequest('Validation failed', validationErrors)`. */
  function InvalidReply(details: Val, now: string): (r: Response)
    ensures r.status == 400 && r.body.Obj? && "message" in r.body.fields && "details" in r.body.fields && "success" in r.body.fields
    ensures r.body.fields["message"] == Str(ValidationFailed) && r.body.fields["success"] == Bool(false)
    ensures r.body.fields["details"] == (if details == Undefined then Null else details)
  {
    ErrorReply(400, BadRequest(Str(ValidationFailed), details, now))
  }

  /** The reply of `updateProperty` for each result. */
  function UpdateReply(o: UpdateResult, id: Id, now: string): (r: Response)
    ensures o.UpdateCapped? || o.UpdateInvalid? <==> r.status == 400
    ensures o.NoProperty? <==> r.status == 404
    ensures o.Changed? <==> r.status == 200
    ensures r.body.Obj? && "message" in r.body.fields
    ensures o.Changed? ==> r.body.fields["message"] == Ref(id)
    ensures o.UpdateInvalid? ==>
      && r.body.fields["message"] == Str(ValidationFailed)
      && "details" in r.body.fields && r.body.fields["details"] == Formatted(o.errors)
  {
    match o
    case UpdateCapped => ErrorReply(400, BadRequest(Str(TooManyImagesOnUpdate), Undefined, now))
    case UpdateInvalid(es) => InvalidReply(Formatted(es), now)
    case NoProperty => ErrorReply(404, ApiErrors.NotFound(Str(PropertyNotFound), now))
    case Changed(_) => OkReply(200, Success(Str(PropertyUpdatedSuccessfully), Ref(id), None, now))
  }

  method UpdateProperty(db: Db, id: Id, body: map<string, Val>, images: seq<Option<Media.Uploaded>>,
                        video: Option<Option<Media.Uploaded>>, now: string) returns (r: Response)
    requires db.Valid()
    modifies db`properties
    ensures db.Valid()
    ensures var o := UpdateResultOf(old(db.properties), id, Stripped(body), |images|);
      db.properties == if o.Changed? then old(db.properties)[id := o.doc] else old(db.properties)
    ensures r == UpdateReply(UpdateResultOf(old(db.properties), id, Stripped(body), |images|), id, now)
  {
    var stripped := StripEmptyRefs(body);
    if |images| > MaxImages {
      return UpdateReply(UpdateCapped, id, now);
    }
    var updates := MediaUpdates(stripped, images, video);
    var s := SetPart(updates);
    var errors := SetErrors(s);
    if errors != [] {
      var v := FormatValidationError(ValidationError(errors));
      UpdateResultInvalid(db.properties, id, stripped, |images|);
      InvalidReplyOf(errors, v, id, now);
      return InvalidReply(v, now);
    }
    UpdateResultValid(db.properties, id, stripped, |images|);
    r := WriteUpdate(db, id, s, now);
  }

  /** `findByIdAndUpdate(id, { $set })` once validation has passed: a missing
      property is a 404, a stored one gets the set paths. */
  method WriteUpdate(db: Db, id: Id, s: map<string, Val>, now: string) returns (r: Response)
    requires db.Valid()
    modifies db`properties
    ensures db.Valid()
    ensures id !in old(db.properties) ==> db.properties == old(db.properties) && r == UpdateReply(NoProperty, id, now)
    ensures id in old(db.properties) ==>
      var e := ApplySet(old(db.properties)[id], s);
      db.properties == old(db.properties)[id := e] && r == UpdateReply(Changed(e), id, now)
  {
    if id !in db.properties {
      return UpdateReply(NoProperty, id, now);
    }
    var e := ApplySet(db.properties[id], s);
    db.PutProperty(id, e);
    r := UpdateReply(Changed(e), id, now);
  }

  /** The image and video part of the update: `images` is replaced by the
      collected URLs when new images came, and `video` set when its URL is
      truthy, which it never is. */
  method MediaUpdates(stripped: map<string, Val>, images: seq<Option<Media.Uploaded>>,
                      video: Option<Option<Media.Uploaded>>) returns (updates: map<string, Val>)
    ensures updates == Updates(stripped, |images|)
  {
    updates := stripped;
    if |images| > 0 {
      var urls := SecureUrls(images);
      updates := updates["images" := Arr(urls)];
    }
    var url := VideoUrl(video);
    if Truthy(url) {
      updates := updates["video" := url];
    }
  }

  lemma UpdateResultInvalid(props: map<Id, map<string, Val>>, id: Id, stripped: map<string, Val>, images: nat)
    requires images <= MaxImages
    requires SetErrors(SetPart(Updates(stripped, images))) != []
    ensures UpdateResultOf(props, id, stripped, images) == UpdateInvalid(SetErrors(SetPart(Updates(stripped, images))))
  {
  }

  lemma InvalidReplyOf(es: seq<FieldError>, v: Val, id: Id, now: string)
    requires v == Formatted(es)
    ensures InvalidReply(v, now) == UpdateReply(UpdateInvalid(es), id, now)
  {
  }

  lemma UpdateResultValid(props: map<Id, map<string, Val>>, id: Id, stripped: map<string, Val>, images: nat)
    requires images <= MaxImages
    requires SetErrors(SetPart(Updates(stripped, images))) == []
    ensures id !in props ==> UpdateResultOf(props, id, stripped, images) == NoProperty
    ensures id in props ==>
      UpdateResultOf(props, id, stripped, images) == Changed(ApplySet(props[id], SetPart(Updates(stripped, images))))
  {
  }

  /** New images replace the stored list (with the empty list, since no URL
      is ever collected); without new images the list is kept. */
  lemma UpdateReplacesImages(props: map<Id, map<string, Val>>, id: Id, stripped: map<string, Val>, images: nat)
    requires UpdateResultOf(props, id, stripped, images).Changed?
    ensures var e := UpdateResultOf(props, id, stripped, images).doc;
      && (images > 0 ==> e["images"] == Arr([]))
      && (images == 0 && "images" !in stripped && "images" in props[id] ==> e["images"] == props[id]["images"])
  {
  }

  /** A stripped reference keeps its stored value: an empty `district` in
      the body does not clear the district. */
  lemma StrippedRefKept(props: map<Id, map<string, Val>>, id: Id, stripped: map<string, Val>, images: nat, k: string)
    requires UpdateResultOf(props, id, stripped, images).Changed?
    requires k in RefPaths && k !in stripped && k in props[id]
    ensures UpdateResultOf(props, id, stripped, images).doc[k] == props[id][k]
  {
  }

  /** An update that sets no validated path never fails validation: only
      the paths it writes are checked, so a stored document that breaks a
      validator can be updated. */
  lemma UpdateValidatesSetPathsOnly(props: map<Id, map<string, Val>>, id: Id, stripped: map<string, Val>)
    requires id in props
    requires forall k :: k in stripped ==> k !in {"title", "category", "sellingType", "price", "status"}
    ensures UpdateResultOf(props, id, stripped, 0).Changed?
  {
    var s := SetPart(Updates(stripped, 0));
    assert SetErrors(s) == [];
  }

  // ---- getProperties ----

  /** The query string of the listing. A price bound is present when its
      parameter is a non-empty string, and holds the number it reads as. */
  datatype Query = Query(search: Option<string>, category: Option<string>, sellingType: Option<string>,
                         status: Option<string>, minPrice: Option<int>, maxPrice: Option<int>)

  /** `$gte`/`$lte` bounds on a stored price (a non-numeric price matches no bound). */
  predicate InRange(ops: map<string, Val>, p: Val)
  {
    && ("$gte" in ops ==> ops["$gte"].Num? && p.Num? && p.n >= ops["$gte"].n)
    && ("$lte" in ops ==> ops["$lte"].Num? && p.Num? && p.n <= ops["$lte"].n)
  }

  /** One clause of a filter: `$text` is the text index search `text`, an
      object on `price` is a range, anything else is equality. */
  predicate Clause(k: string, v: Val, d: map<string, Val>, text: (string, map<string, Val>) -> bool)
  {
    if k == "$text" then v.Obj? && "$search" in v.fields && v.fields["$search"].Str? && text(v.fields["$search"].s, d)
    else if k == "price" && v.Obj? then InRange(v.fields, Get(d, "price"))
    else Get(d, k) == v
  }

  /** A document matches a filter when it meets every clause. */
  predicate Matches(f: map<string, Val>, d: map<string, Val>, text: (string, map<string, Val>) -> bool)
  {
    forall k :: k in f ==> Clause(k, f[k], d, text)
  }

  /** What the listing's parameters ask of a property. */
  predicate Admits(q: Query, d: map<string, Val>, text: (string, map<string, Val>) -> bool)
  {
    && (Given(q.search) ==> text(q.search.value, d))
    && (Given(q.category) ==> Get(d, "category") == Str(q.category.value))
    && (Given(q.sellingType) ==> Get(d, "sellingType") == Str(q.sellingType.value))
    && (Given(q.status) ==> Get(d, "status") == Str(q.status.value))
    && (q.minPrice.Some? ==> Get(d, "price").Num? && Get(d, "price").n >= q.minPrice.value)
    && (q.maxPrice.Some? ==> Get(d, "price").Num? && Get(d, "price").n <= q.maxPrice.value)
  }

  /** The filter `getProperties` builds clause by clause: a clause for each
      given parameter and no other, and a document matches it exactly when
      the parameters admit it. */
  method BuildFilter(q: Query, ghost text: (string, map<string, Val>) -> bool) returns (f: map<string, Val>)
    ensures f.Keys <= {"$text", "category", "sellingType", "status", "price"}
    ensures ("$text" in f <==> Given(q.search)) && ("category" in f <==> Given(q.category))
    ensures ("sellingType" in f <==> Given(q.sellingType)) && ("status" in f <==> Given(q.status))
    ensures "price" in f <==> q.minPrice.Some? || q.maxPrice.Some?
    ensures forall d :: Matches(f, d, text) <==> Admits(q, d, text)
  {
    f := map[];
    if Given(q.search) {
      f := f["$text" := Obj(map["$search" := Str(q.search.value)])];
    }
    if Given(q.category) {
      f := f["category" := Str(q.category.value)];
    }
    if Given(q.sellingType) {
      f := f["sellingType" := Str(q.sellingType.value)];
    }
    if Given(q.status) {
      f := f["status" := Str(q.status.value)];
    }
    if q.minPrice.Some? || q.maxPrice.Some? {
      var price: map<string, Val> := map[];
      if q.minPrice.Some? {
        price := price["$gte" := Num(q.minPrice.value)];
      }
      if q.maxPrice.Some? {
        price := price["$lte" := Num(q.maxPrice.value)];
      }
      f := f["price" := Obj(price)];
    }
    forall d | true
      ensures Matches(f, d, text) <==> Admits(q, d, text)
    {
      MatchesBuilt(q, f, d, text);
    }
  }

  /** The clause-by-clause reading of the filter `BuildFilter` builds. */
  lemma MatchesBuilt(q: Query, f: map<string, Val>, d: map<string, Val>, text: (string, map<string, Val>) -> bool)
    requires f.Keys <= {"$text", "category", "sellingType", "status", "price"}
    requires "$text" in f <==> Given(q.search)
    requires Given(q.search) ==> f["$text"] == Obj(map["$search" := Str(q.search.value)])
    requires ("category" in f <==> Given(q.category)) && (Given(q.category) ==> f["category"] == Str(q.category.value))
    requires ("sellingType" in f <==> Given(q.sellingType)) && (Given(q.sellingType) ==> f["sellingType"] == Str(q.sellingType.value))
    requires ("status" in f <==> Given(q.status)) && (Given(q.status) ==> f["status"] == Str(q.status.value))
    requires "price" in f <==> q.minPrice.Some? || q.maxPrice.Some?
    requires "price" in f ==> f["price"].Obj? && f["price"].fields.Keys <= {"$gte", "$lte"}
    requires "price" in f ==> ("$gte" in f["price"].fields <==> q.minPrice.Some?) && ("$lte" in f["price"].fields <==> q.maxPrice.Some?)
    requires "price" in f && q.minPrice.Some? ==> f["price"].fields["$gte"] == Num(q.minPrice.value)
    requires "price" in f && q.maxPrice.Some? ==> f["price"].fields["$lte"] == Num(q.maxPrice.value)
    ensures Matches(f, d, text) <==> Admits(q, d, text)
  {
    if Matches(f, d, text) {
      if Given(q.search) { assert Clause("$text", f["$text"], d, text); }
      if Given(q.category) { assert Clause("category", f["category"], d, text); }
      if Given(q.sellingType) { assert Clause("sellingType", f["sellingType"], d, text); }
      if Given(q.status) { assert Clause("status", f["status"], d, text); }
      if "price" in f { assert Clause("price", f["price"], d, text); }
    }
  }

  /** The ids of the properties below `n` that match `f`, newest first. */
  function Matching(props: map<Id, map<string, Val>>, f: map<string, Val>, text: (string, map<string, Val>) -> bool, n: nat): (ids: seq<Id>)
    ensures forall i :: 0 <= i < |ids| ==> ids[i] in props && Matches(f, props[ids[i]], text)
    ensures forall k :: k in props && k < n && Matches(f, props[k], text) ==> k in ids
    ensures StrictlyDescending(ids)
  {
    NewestFirst((set k | k in props && Matches(f, props[k], text)), n)
  }

  /** `getProperties`: the properties the parameters admit, newest first,
      sent with the message and the data swapped. */
  method GetProperties(db: Db, q: Query, text: (string, map<string, Val>) -> bool, now: string) returns (r: Response, ids: seq<Id>)
    requires db.Valid()
    ensures r == OkReply(200, Success(Str(PropertiesFetched), Refs(ids), None, now))
    ensures forall i :: 0 <= i < |ids| ==> ids[i] in db.properties && Admits(q, db.properties[ids[i]], text)
    ensures forall k :: k in db.properties && Admits(q, db.properties[k], text) ==> k in ids
    ensures StrictlyDescending(ids)
  {
    var f := BuildFilter(q, text);
    ids := Matching(db.properties, f, text, db.nextId);
    r := OkReply(200, Success(Str(PropertiesFetched), Refs(ids), None, now));
  }

  // ---- getPropertyById, deleteProperty ----

  function PropertyById(props: map<Id, map<string, Val>>, id: Id, now: string): (r: Response)
    ensures id !in props <==> r == ErrorReply(404, ApiErrors.NotFound(Str(PropertyNotFound), now))
    ensures id in props ==>
      r.status == 200 && r.body.Obj? && "data" in r.body.fields && r.body.fields["data"] == Str(PropertyFetched)
    ensures id in props ==> "message" in r.body.fields && r.body.fields["message"] == Ref(id)
  {
    if id !in props then ErrorReply(404, ApiErrors.NotFound(Str(PropertyNotFound), now))
    else OkReply(200, Success(Str(PropertyFetched), Ref(id), None, now))
  }

  method DeleteProperty(db: Db, id: Id, now: string) returns (r: Response)
    requires db.Valid()
    modifies db`properties
    ensures db.Valid()
    ensures db.properties == old(db.properties) - {id}
    ensures id !in old(db.properties) ==> r == ErrorReply(404, ApiErrors.NotFound(Str(PropertyNotFound), now))
    ensures id in old(db.properties) ==>
      r == OkReply(200, Success(Str(PropertyDeletedSuccessfully), Ref(id), None, now))
  {
    if id !in db.properties {
      return ErrorReply(404, ApiErrors.NotFound(Str(PropertyNotFound), now));
    }
    db.properties := db.properties - {id};
    r := OkReply(200, Success(Str(PropertyDeletedSuccessfully), Ref(id), None, now));
  }

  // ---- getMyProperties ----

  /** `req.user`: its id and role. */
  datatype Caller = Caller(id: Id, role: string)

  /** Whose properties are listed: by `agent` for an agent, by `franchise`
      (compared with the user's own id) for a franchise user. */
  datatype Scope = NoCaller | WrongRole | ByAgent(id: Id) | ByFranchise(id: Id)

  function ScopeOf(user: Option<Caller>): (s: Scope)
    ensures s == NoCaller <==> user.None?
    ensures s.ByAgent? <==> user.Some? && user.value.role == "agent"
    ensures s.ByFranchise? <==> user.Some? && user.value.role == "franchise"
    ensures (s.ByAgent? || s.ByFranchise?) ==> s.id == user.value.id
  {
    match user
    case None => NoCaller
    case Some(c) =>
      if c.role == "agent" then ByAgent(c.id)
      else if c.role == "franchise" then ByFranchise(c.id)
      else WrongRole
  }

  function ScopeFilter(s: Scope): (f: map<string, Val>)
    requires s.ByAgent? || s.ByFranchise?
  {
    if s.ByAgent? then map["agent" := Ref(s.id)] else map["franchise" := Ref(s.id)]
  }

  function MyProperties(props: map<Id, map<string, Val>>, user: Option<Caller>,
                        text: (string, map<string, Val>) -> bool, n: nat, now: string): (r: Response)
    ensures user.None? ==> r == ErrorReply(401, ApiErrors.Unauthorized(Str(UnauthorizedAccess), now))
    ensures ScopeOf(user) == WrongRole ==>
      r == ErrorReply(403, ApiErrors.Forbidden(Str(OnlyAgentsFranchisesCanView), now))
  {
    match ScopeOf(user)
    case NoCaller => ErrorReply(401, ApiErrors.Unauthorized(Str(UnauthorizedAccess), now))
    case WrongRole => ErrorReply(403, ApiErrors.Forbidden(Str(OnlyAgentsFranchisesCanView), now))
    case _ =>
      OkReply(200, Success(Str(MyPropertiesFetched), Refs(Matching(props, ScopeFilter(ScopeOf(user)), text, n)), None, now))
  }

  /** An agent sees exactly the properties naming it as `agent`, and a
      franchise user exactly those whose `franchise` is its own user id, newest first. */
  lemma MyPropertiesScoped(props: map<Id, map<string, Val>>, c: Caller,
                           text: (string, map<string, Val>) -> bool, n: nat, now: string)
    requires c.role in {"agent", "franchise"}
    requires forall k :: k in props ==> k < n
    ensures var r := MyProperties(props, Some(c), text, n, now);
      var path := if c.role == "agent" then "agent" else "franchise";
      var ids := Matching(props, ScopeFilter(ScopeOf(Some(c))), text, n);
      && r == OkReply(200, Success(Str(MyPropertiesFetched), Refs(ids), None, now))
      && (forall k :: k in ids <==> k in props && Get(props[k], path) == Ref(c.id))
      && StrictlyDescending(ids)
  {
    var path := if c.role == "agent" then "agent" else "franchise";
    var f := ScopeFilter(ScopeOf(Some(c)));
    assert f == map[path := Ref(c.id)];
    forall k | k in props
      ensures Matches(f, props[k], text) <==> Get(props[k], path) == Ref(c.id)
    {
      assert Clause(path, f[path], props[k], text) <==> Get(props[k], path) == Ref(c.id);
    }
  }
}
