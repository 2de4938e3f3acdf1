/** The live-stream handlers (`src/controllers/stream.controller.js`): the
    site shows at most one YouTube stream, the first stored one. Their
    replies are plain objects rather than `ApiResponse`s. */
module StreamController {
  import opened Common
  import opened Records
  import opened Store
  import opened Http

  // The texts the handlers send.
  const NoStreamToDelete := "No stream found to delete."
  const StreamDeletedSuccessfully := "Stream deleted successfully."

  predicate Any(s: Stream)
  {
    true
  }

  /** `Stream.findOne()`: the first stream in natural order. */
  function Current(streams: map<Id, Stream>, n: nat): (r: Option<Id>)
    ensures r.Some? ==> r.value in streams && r.value < n && forall k :: k in streams ==> r.value <= k
    ensures r.None? ==> forall k :: k in streams ==> k >= n
  {
    FirstWhere(streams, Any, n)
  }

  /** The message of the validation error `save()` raises without a url. */
  const UrlRequired := "Stream validation failed: youtubeUrl: Path `youtubeUrl` is required."

  /** What `setStream` leaves stored: nothing changes without a url (String
      `required` refuses undefined and `""`); otherwise a new stream when
      there is none, its `isActive` defaulting to false, or the current one
      overwritten, where an undefined `isActive` is unset. */
  function SetStreams(streams: map<Id, Stream>, n: nat, url: Option<string>, isActive: Option<bool>): map<Id, Stream>
  {
    if !Given(url) then streams
    else match Current(streams, n)
      case None => streams[n := Stream(url.value, Some(isActive.GetOr(false)))]
      case Some(k) => streams[k := Stream(url.value, isActive)]
  }

  function Saved(id: Id): Response
  {
    Response(200, Obj(map["success" := Bool(true), "stream" := Ref(id)]))
  }

  function Failed(message: string): Response
  {
    Response(500, Obj(map["success" := Bool(false), "message" := Str(message)]))
  }

  method SetStream(db: Db, url: Option<string>, isActive: Option<bool>) returns (r: Response)
    requires db.Valid()
    modifies db`streams, db`nextId
    ensures db.Valid()
    ensures db.streams == SetStreams(old(db.streams), old(db.nextId), url, isActive)
    ensures !Given(url) ==> r == Failed(UrlRequired) && db.nextId == old(db.nextId)
    ensures Given(url) ==> r == Saved(Current(old(db.streams), old(db.nextId)).GetOr(old(db.nextId)))
    ensures Given(url) ==>
      db.nextId == (if Current(old(db.streams), old(db.nextId)).None? then old(db.nextId) + 1 else old(db.nextId))
  {
    if !Given(url) {
      return Failed(UrlRequired);
    }
    var cur := Current(db.streams, db.nextId);
    if cur.None? {
      var id := db.AddStream(Stream(url.value, Some(isActive.GetOr(false))));
      r := Saved(id);
    } else {
      db.PutStream(cur.value, Stream(url.value, isActive));
      r := Saved(cur.value);
    }
  }

  /** Setting the stream never makes a second one: it adds a stream only to
      an empty collection, and otherwise keeps the same set of ids. */
  lemma SetKeepsOneStream(streams: map<Id, Stream>, n: nat, url: Option<string>, isActive: Option<bool>)
    requires forall k :: k in streams ==> k < n
    ensures var s := SetStreams(streams, n, url, isActive);
      && (streams != map[] ==> s.Keys == streams.Keys)
      && (streams == map[] && Given(url) ==> s.Keys == {n})
      && (|streams| <= 1 ==> |s| <= 1)
  {
    var s := SetStreams(streams, n, url, isActive);
    if streams != map[] {
      var k :| k in streams;
      assert Current(streams, n).Some?;
    }
    if streams == map[] && Given(url) {
      assert s == map[n := Stream(url.value, Some(isActive.GetOr(false)))];
    }
  }

  /** A set stream carries the url it was given, and a new one is inactive
      unless the body says otherwise. */
  lemma SetStoresUrl(streams: map<Id, Stream>, n: nat, url: string, isActive: Option<bool>)
    requires url != ""
    ensures var s := SetStreams(streams, n, Some(url), isActive);
      var k := Current(streams, n).GetOr(n);
      && k in s && s[k].youtubeUrl == url
      && (Current(streams, n).None? ==> s[k].isActive == Some(isActive.GetOr(false)))
      && (Current(streams, n).Some? ==> s[k].isActive == isActive)
  {
  }

  /** `getStream`: the current stream, or `{}`. */
  function GetStream(streams: map<Id, Stream>, n: nat): (r: Response)
    ensures r.status == 200
    ensures r.body == Obj(map[]) <==> Current(streams, n).None?
    ensures Current(streams, n).Some? ==> r.body == Ref(Current(streams, n).value)
  {
    match Current(streams, n)
    case None => Response(200, Obj(map[]))
    case Some(k) => Response(200, Ref(k))
  }

  /** `deleteStream`: removes the current stream, or answers 404. */
  method DeleteStream(db: Db) returns (r: Response)
    requires db.Valid()
    modifies db`streams
    ensures db.Valid()
    ensures Current(old(db.streams), db.nextId).None? ==>
      && db.streams == old(db.streams)
      && r == Response(404, Obj(map["success" := Bool(false), "message" := Str(NoStreamToDelete)]))
    ensures Current(old(db.streams), db.nextId).Some? ==>
      && db.streams == old(db.streams) - {Current(old(db.streams), db.nextId).value}
      && r == Response(200, Obj(map["success" := Bool(true), "message" := Str(StreamDeletedSuccessfully)]))
  {
    var cur := Current(db.streams, db.nextId);
    if cur.None? {
      return Response(404, Obj(map["success" := Bool(false), "message" := Str(NoStreamToDelete)]));
    }
    db.streams := db.streams - {cur.value};
    r := Response(200, Obj(map["success" := Bool(true), "message" := Str(StreamDeletedSuccessfully)]));
  }

  /** Deleting the only stream empties the collection, and `getStream` then
      answers `{}`. */
  lemma DeleteLeavesNone(streams: map<Id, Stream>, n: nat)
    requires forall k :: k in streams ==> k < n
    requires |streams| == 1
    ensures Current(streams, n).Some?
    ensures streams - {Current(streams, n).value} == map[]
    ensures GetStream(streams - {Current(streams, n).value}, n).body == Obj(map[])
  {
    var k :| k in streams;
    assert Current(streams, n).Some?;
    var c := Current(streams, n).value;
    assert |streams.Keys - {k}| == |streams.Keys| - 1 == 0;
    assert streams.Keys == {k};
    assert (streams - {c}).Keys == {};
  }
}
