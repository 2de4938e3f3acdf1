/** Uploads to the media service and the file filter in front of them
    (`src/middleware/multer.js`, and the result shape of
    `src/utils/cloudinary.js`). */
module Media {
  import opened Common
  import opened Text

  /** What `uploadOnCloudinary` resolves to when the upload succeeds: an
      object with `url` (the service's secure URL) and `publicId`. A failed
      upload resolves to null; the helper never throws. */
  datatype Uploaded = Uploaded(url: string, publicId: string)

  function UploadVal(u: Option<Uploaded>): (v: Val)
    ensures u.None? ==> v == Null
    ensures u.Some? ==> v.Obj? && v.fields.Keys == {"url", "publicId"} && v.fields["url"] == Str(u.value.url)
  {
    match u
    case None => Null
    case Some(up) => Obj(map["url" := Str(up.url), "publicId" := Str(up.publicId)])
  }

  /** The upload result has no `secure_url` field, so every
      `uploaded?.secure_url` read is undefined, whatever the upload did. */
  lemma NoSecureUrl(u: Option<Uploaded>)
    ensures Field(UploadVal(u), "secure_url") == Undefined
    ensures Field(UploadVal(u), "url") == (if u.Some? then Str(u.value.url) else Undefined)
  {
  }

  /** The upload size limit, in bytes. */
  const MaxFileSize: nat := 2 * 1024 * 1024

  /** The alternatives of the type expression `/jpeg|jpg|png|webp|mp4|mov|avi|mkv/`. */
  const AllowedTypes: seq<string> := ["jpeg", "jpg", "png", "webp", "mp4", "mov", "avi", "mkv"]

  const RejectMessage := "Only images (jpg, jpeg, png, webp) or videos (mp4, mov, avi, mkv) are allowed"

  /** The index of the last occurrence of `c` in `s`. */
  function LastIndexOf(s: string, c: char): (r: Option<nat>)
    ensures r.Some? ==> r.value < |s| && s[r.value] == c && forall j :: r.value < j < |s| ==> s[j] != c
    ensures r.None? ==> forall j :: 0 <= j < |s| ==> s[j] != c
    decreases |s|
  {
    if s == [] then None
    else if s[|s| - 1] == c then Some(|s| - 1)
    else LastIndexOf(s[..|s| - 1], c)
  }

  function StripTrailingSlashes(p: string): (q: string)
    ensures IsPrefix(q, p)
    decreases |p|
  {
    if p != [] && p[|p| - 1] == '/' then StripTrailingSlashes(p[..|p| - 1]) else p
  }

  /** What follows the last `c` in `q`, or all of `q` when it holds none. */
  function AfterLast(q: string, c: char): (r: string)
    ensures c !in r
  {
    match LastIndexOf(q, c)
    case None => q
    case Some(k) => q[k + 1..]
  }

  /** The last path segment, ignoring trailing separators. */
  function BaseName(p: string): string
  {
    AfterLast(StripTrailingSlashes(p), '/')
  }

  /** `path.extname(p)` (POSIX): from the last dot of the last segment to its
      end; empty when the segment has no dot, when its only dot leads it, or
      when the segment is `..`. */
  function ExtName(p: string): (e: string)
    ensures e == [] || (e[0] == '.' && '/' !in e)
  {
    var b := BaseName(p);
    match LastIndexOf(b, '.')
    case None => ""
    case Some(k) => if k == 0 || b == ".." then "" else b[k..]
  }

  /** `allowedTypes.test(s)`: an unanchored match, so any string containing
      one of the alternatives passes. */
  predicate TypeTest(s: string)
  {
    exists k :: 0 <= k < |AllowedTypes| && Contains(s, AllowedTypes[k])
  }

  /** `/image|video/.test(mimetype)` */
  predicate MimeTest(m: string)
  {
    Contains(m, "image") || Contains(m, "video")
  }

  datatype Verdict = Accept | Reject(message: string)

  /** The multer `fileFilter`: the lower-cased extension of the client's file
      name must pass the type test and the MIME type the image/video test. */
  function FileFilter(originalName: string, mimeType: string): (v: Verdict)
    ensures v.Reject? ==> v.message == RejectMessage
  {
    if TypeTest(ToLower(ExtName(originalName))) && MimeTest(mimeType) then Accept
    else Reject(RejectMessage)
  }

  /** multer's own text for a file over `limits.fileSize`. */
  const TooLarge := "File too large"

  /** What multer makes of one uploaded file of `size` bytes: the filter runs
      on the file's name and MIME type first, and a file it lets through is
      then refused when it grows past the size limit. */
  function Admit(originalName: string, mimeType: string, size: nat): (v: Verdict)
    ensures v == Accept <==> FileFilter(originalName, mimeType) == Accept && size <= MaxFileSize
    ensures FileFilter(originalName, mimeType).Reject? ==> v == Reject(RejectMessage)
    ensures FileFilter(originalName, mimeType) == Accept && size > MaxFileSize ==> v == Reject(TooLarge)
  {
    match FileFilter(originalName, mimeType)
    case Reject(m) => Reject(m)
    case Accept => if size <= MaxFileSize then Accept else Reject(TooLarge)
  }

  lemma LastIndexOfUnique(s: string, c: char, r: Option<nat>)
    requires r.Some? ==> r.value < |s| && s[r.value] == c && forall j :: r.value < j < |s| ==> s[j] != c
    requires r.None? ==> forall j :: 0 <= j < |s| ==> s[j] != c
    ensures r == LastIndexOf(s, c)
  {
  }

  /** Lower-casing moves no character that is not a letter. */
  lemma LowerKeepsLastIndex(s: string, c: char)
    requires !('A' <= c <= 'Z') && !('a' <= c <= 'z')
    ensures LastIndexOf(ToLower(s), c) == LastIndexOf(s, c)
  {
    LastIndexOfUnique(ToLower(s), c, LastIndexOf(s, c));
  }

  /** Lower-casing commutes with stripping the trailing slashes. */
  lemma {:induction false} LowerKeepsStrip(s: string)
    ensures StripTrailingSlashes(ToLower(s)) == ToLower(StripTrailingSlashes(s))
    decreases |s|
  {
    var t := ToLower(s);
    if s != [] && s[|s| - 1] == '/' {
      LowerKeepsStrip(s[..|s| - 1]);
      assert t[..|t| - 1] == ToLower(s[..|s| - 1]);
    }
  }

  lemma SliceOfLower(s: string, k: nat)
    requires k <= |s|
    ensures ToLower(s)[k..] == ToLower(s[k..])
  {
  }

  lemma AfterLastOfLower(q: string, c: char)
    requires !('A' <= c <= 'Z') && !('a' <= c <= 'z')
    ensures AfterLast(ToLower(q), c) == ToLower(AfterLast(q, c))
  {
    LowerKeepsLastIndex(q, c);
    match LastIndexOf(q, c)
    case None =>
    case Some(k) => SliceOfLower(q, k + 1);
  }

  lemma BaseNameOfLower(p: string)
    ensures BaseName(ToLower(p)) == ToLower(BaseName(p))
  {
    LowerKeepsStrip(p);
    AfterLastOfLower(StripTrailingSlashes(p), '/');
  }

  lemma DotDotOfLower(b: string)
    ensures (ToLower(b) == "..") == (b == "..")
  {
    if |b| == 2 {
      assert ToLower(b)[0] == LowerChar(b[0]) && ToLower(b)[1] == LowerChar(b[1]);
    }
  }

  /** The extension of a lower-cased name is the lower-cased extension. */
  lemma ExtNameOfLower(p: string)
    ensures ExtName(ToLower(p)) == ToLower(ExtName(p))
  {
    BaseNameOfLower(p);
    var b := BaseName(p);
    LowerKeepsLastIndex(b, '.');
    DotDotOfLower(b);
    match LastIndexOf(b, '.')
    case None =>
    case Some(k) => SliceOfLower(b, k);
  }

  /** The extension test ignores case: a file name and its lower-cased form
      get the same verdict. The MIME type is tested as sent. */
  lemma FilterIgnoresNameCase(originalName: string, mimeType: string)
    ensures FileFilter(ToLower(originalName), mimeType) == FileFilter(originalName, mimeType)
  {
    ExtNameOfLower(originalName);
    ToLowerIdempotent(ExtName(originalName));
  }

  /** Any extension containing an allowed type passes, however long it is,
      provided the MIME type mentions image or video. */
  lemma SubstringExtensionsPass(originalName: string, mimeType: string, k: nat)
    requires k < |AllowedTypes| && Contains(ToLower(ExtName(originalName)), AllowedTypes[k])
    requires Contains(mimeType, "image")
    ensures FileFilter(originalName, mimeType) == Accept
  {
  }

  /** A name without an extension is always refused. */
  lemma NoExtensionRejected(originalName: string, mimeType: string)
    requires ExtName(originalName) == ""
    ensures FileFilter(originalName, mimeType) == Reject(RejectMessage)
  {
    forall k | 0 <= k < |AllowedTypes| ensures !Contains("", AllowedTypes[k]) {
      assert |AllowedTypes[k]| > 0;
    }
  }

  /** Concretely: the extension of `clip.MP4x` is `.MP4x`, kept in its case. */
  lemma ExtNameExample()
    ensures ExtName("clip.MP4x") == ".MP4x"
  {
    var n := "clip.MP4x";
    assert StripTrailingSlashes(n) == n;
    LastIndexOfUnique(n, '/', None);
    assert BaseName(n) == n;
    LastIndexOfUnique(n, '.', Some(4));
    assert n[4..] == ".MP4x";
  }

  /** `clip.MP4x` sent as `video/mp4` is accepted: case and a trailing
      letter after the type do not matter. */
  lemma AcceptExample()
    ensures FileFilter("clip.MP4x", "video/mp4") == Accept
  {
    ExtNameExample();
    LowerExample();
    TypeExample();
    assert MimeTest("video/mp4") by {
      assert IsPrefix("video", "video/mp4");
    }
  }

  /** The accepted clip passes up to 2 MiB exactly, and one byte more is refused
      with multer's size error. */
  lemma SizeLimitExample()
    ensures Admit("clip.MP4x", "video/mp4", 2097152) == Accept
    ensures Admit("clip.MP4x", "video/mp4", 2097153) == Reject(TooLarge)
  {
    AcceptExample();
  }

  lemma LowerExample()
    ensures ToLower(".MP4x") == ".mp4x"
  {
    var e := ToLower(".MP4x");
    assert e[1] == 'm' && e[2] == 'p';
  }

  lemma TypeExample()
    ensures TypeTest(".mp4x")
  {
    var e := ".mp4x";
    assert OccursAt(e, AllowedTypes[4], 1) by { assert e[1..4] == "mp4"; }
    ContainsIffOccurs(e, AllowedTypes[4]);
  }

  /** The MIME test is case-sensitive: an upper-case MIME type is refused. */
  lemma UpperMimeRejected(originalName: string)
    ensures FileFilter(originalName, "IMAGE/PNG") == Reject(RejectMessage)
  {
    var m := "IMAGE/PNG";
    assert 'i' !in m && 'v' !in m;
    FirstCharAbsent(m, "image");
    FirstCharAbsent(m, "video");
  }
}
