/** The success envelope (`src/utils/ApiResponse.js`). */
module ApiResponses {
  import opened Common

  datatype ApiResponse = ApiResponse(statusCode: int, success: bool, message: Val, data: Val, timestamp: string)

  /** `new ApiResponse(statusCode, data = null, message = "Success")`, created at `now`. */
  function New(statusCode: int, data: Val, message: Val, now: string): (r: ApiResponse)
    ensures r.success <==> 200 <= statusCode < 300
    ensures r.statusCode == statusCode && r.timestamp == now
    ensures r.data == (if data == Undefined then Null else data)
    ensures r.message == (if message == Undefined then Str("Success") else message)
  {
    ApiResponse(statusCode, 200 <= statusCode && statusCode < 300,
      if message == Undefined then Str("Success") else message,
      if data == Undefined then Null else data, now)
  }

  /** `ApiResponse.success(data, message = "Request successful", statusCode = 200)`;
      `None` is an omitted status code. */
  function Success(data: Val, message: Val, statusCode: Option<int>, now: string): ApiResponse
  {
    New(statusCode.GetOr(200), data, if message == Undefined then Str("Request successful") else message, now)
  }

  /** `ApiResponse.created(data, message = "Resource created successfully")`. */
  function Created(data: Val, message: Val, now: string): ApiResponse
  {
    New(201, data, if message == Undefined then Str("Resource created successfully") else message, now)
  }

  /** The envelope as it is serialised. */
  function ToJson(r: ApiResponse): (j: Val)
    ensures j.Obj? && j.fields.Keys == {"statusCode", "success", "message", "data", "timestamp"}
    ensures j.fields["success"] == Bool(r.success) && j.fields["data"] == r.data
  {
    Obj(map[
      "statusCode" := Num(r.statusCode),
      "success" := Bool(r.success),
      "message" := r.message,
      "data" := r.data,
      "timestamp" := Str(r.timestamp)])
  }

  /** Reads an envelope back from its JSON form: the inverse of `ToJson`. */
  function FromJson(j: Val): (r: Option<ApiResponse>)
  {
    if j.Obj? && j.fields.Keys == {"statusCode", "success", "message", "data", "timestamp"}
       && j.fields["statusCode"].Num? && j.fields["success"].Bool? && j.fields["timestamp"].Str?
    then Some(ApiResponse(j.fields["statusCode"].n, j.fields["success"].b, j.fields["message"],
                          j.fields["data"], j.fields["timestamp"].s))
    else None
  }

  /** The serialised envelope loses nothing: every field can be read back,
      so two envelopes with the same JSON are the same envelope. */
  lemma JsonRoundTrip(r: ApiResponse, r': ApiResponse)
    ensures FromJson(ToJson(r)) == Some(r)
    ensures ToJson(r) == ToJson(r') ==> r == r'
  {
    assert FromJson(ToJson(r)) == Some(r);
    assert FromJson(ToJson(r')) == Some(r');
  }

  /** `success` on the factories: `created` is always a 201 and a success,
      `success` with the default code is a 200 and a success. */
  lemma FactoryCodes(data: Val, message: Val, now: string)
    ensures Created(data, message, now).statusCode == 201 && Created(data, message, now).success
    ensures Success(data, message, None, now).statusCode == 200 && Success(data, message, None, now).success
    ensures forall c :: !(200 <= c < 300) ==> !Success(data, message, Some(c), now).success
  {
  }

  /** `success(d, m)` stores its first argument as the data and its second as
      the message, whatever they are: the call sites that pass the message
      first (`ApiResponse.success('...updated successfully', doc)`) end up
      with the text as `data` and the document as `message`. */
  lemma SuccessArgumentRoles(first: string, second: Val, now: string)
    requires second != Undefined
    ensures Success(Str(first), second, None, now).data == Str(first)
    ensures Success(Str(first), second, None, now).message == second
  {
  }

  /** The defaults of the constructor: no data is null, no message is "Success". */
  lemma ConstructorDefaults(statusCode: int, now: string)
    ensures New(statusCode, Undefined, Undefined, now).data == Null
    ensures New(statusCode, Undefined, Undefined, now).message == Str("Success")
  {
  }
}
