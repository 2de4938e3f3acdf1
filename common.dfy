/** Values shared by every part of the model: optional values, results,
    document ids and the JavaScript values that travel through request
    bodies, stored documents and JSON replies. */
module Common {

  datatype Option<+T> = None | Some(value: T)
  {
    function GetOr(default: T): T
    {
      match this
      case Some(v) => v
      case None => default
    }
  }

  datatype Result<+T, +E> = Ok(value: T) | Err(error: E)

  /** A document id. Ids are handed out in increasing order, so a smaller id
      is an older document (the model's stand-in for `createdAt` and for the
      store's natural order). */
  type Id = nat

  /** A JavaScript value. `Ref` stands for a stored document, named by id. */
  datatype Val =
    | Undefined
    | Null
    | Bool(b: bool)
    | Num(n: int)
    | Str(s: string)
    | Ref(id: Id)
    | Arr(items: seq<Val>)
    | Obj(fields: map<string, Val>)

  /** JavaScript truthiness (numbers are integers here, so there is no NaN). */
  predicate Truthy(v: Val)
  {
    match v
    case Undefined => false
    case Null => false
    case Bool(b) => b
    case Num(n) => n != 0
    case Str(s) => s != []
    case _ => true
  }

  /** `a || b` */
  function Or(a: Val, b: Val): (r: Val)
    ensures Truthy(a) ==> r == a
    ensures !Truthy(a) ==> r == b
  {
    if Truthy(a) then a else b
  }

  /** The property read `v?.key`: undefined unless `v` is an object that has `key`. */
  function Field(v: Val, key: string): (r: Val)
    ensures !v.Obj? ==> r == Undefined
    ensures v.Obj? && key !in v.fields ==> r == Undefined
  {
    if v.Obj? && key in v.fields then v.fields[key] else Undefined
  }

  /** A request field that is either absent or a string, read for truthiness:
      `if (x)` holds exactly when the field is present and non-empty. */
  predicate Given(o: Option<string>)
  {
    o.Some? && o.value != ""
  }

  /** `a || b || c` over optional request strings. */
  function FirstGiven(a: Option<string>, b: Option<string>, c: Option<string>): (r: Option<string>)
    ensures r.Some? <==> Given(a) || Given(b) || Given(c)
    ensures r.Some? ==> r.value != ""
    ensures Given(a) ==> r == a
    ensures !Given(a) && Given(b) ==> r == b
    ensures !Given(a) && !Given(b) ==> r == (if Given(c) then c else None)
  {
    if Given(a) then a else if Given(b) then b else if Given(c) then c else None
  }

  /** An optional request string as a JavaScript value. */
  function OptStr(o: Option<string>): (v: Val)
    ensures Truthy(v) <==> Given(o)
  {
    match o
    case None => Undefined
    case Some(s) => Str(s)
  }
}
