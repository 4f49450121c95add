/**
 * The upload admission rule (server/middlewares/multerMiddleware.js):
 * a MIME allow-list checked by `fileFilter`, a per-file size ceiling, and the
 * per-field file-count caps that `upload.fields` enforces. Multipart parsing
 * and in-memory buffering are not modelled; a file is its declared MIME type and
 * its bytes, and the field it came in is the list that holds it.
 */
module MulterMiddleware {
  import opened Wrappers

  /** A file part of a multipart request. */
  datatype UploadedFile = UploadedFile(mimetype: string, buffer: seq<bv8>)

  /** The sixteen MIME types `fileFilter` accepts. */
  const AllowedTypes: seq<string> := [
    "image/jpeg",
    "image/png",
    "image/gif",
    "image/webp",
    "image/svg+xml",
    "video/ogg",
    "video/quicktime",
    "video/x-msvideo",
    "video/mp4",
    "video/webm",
    "application/pdf",
    "application/msword",
    // the Word document type, written in pieces so that the verifier can see its characters
    "application/" + "vnd.openxmlformats-officedocument." + "wordprocessingml.document",
    "audio/mpeg",
    "audio/ogg",
    "audio/wav"
  ]

  /** `limits.fileSize`: 10 MiB. */
  const MaxFileSize: nat := 10 * 1024 * 1024

  /** The errors the upload middleware can raise. */
  datatype UploadError =
    | UnexpectedField                   // more files in a field than its maxCount
    | TypeNotAllowed(mimetype: string)  // raised by fileFilter
    | FileTooLarge                      // over limits.fileSize

  /** `allowedTypes.join(", ")` */
  function JoinWith(parts: seq<string>, sep: string): string
  {
    if |parts| == 0 then ""
    else if |parts| == 1 then parts[0]
    else parts[0] + sep + JoinWith(parts[1..], sep)
  }

  /** The `message` of each error, as `err.message` reports it to the client. */
  function Message(e: UploadError): string
  {
    match e
    case UnexpectedField => "Unexpected field"
    case TypeNotAllowed(m) =>
      "File type " + m + " is not allowed. Only " + JoinWith(AllowedTypes, ", ") + " are allowed."
    case FileTooLarge => "File too large"
  }

  /** What `fileFilter` reports through its callback. */
  datatype FilterDecision = Accept | Reject(error: UploadError)

  /** `fileFilter`: accept exactly the listed types, compared as whole strings;
      a rejection carries the offending type. */
  function FileFilter(mimetype: string): (d: FilterDecision)
    ensures d.Accept? <==> exists i :: 0 <= i < |AllowedTypes| && AllowedTypes[i] == mimetype
    ensures d.Reject? ==> d.error == TypeNotAllowed(mimetype)
  {
    if mimetype in AllowedTypes then Accept else Reject(TypeNotAllowed(mimetype))
  }

  /** The rejection message names the offending type, right after "File type ". */
  lemma RejectMessageNamesType(mimetype: string)
    ensures var msg := Message(TypeNotAllowed(mimetype));
      |msg| > 10 + |mimetype| && msg[10..10 + |mimetype|] == mimetype
  {
    var tail := " is not allowed. Only " + JoinWith(AllowedTypes, ", ") + " are allowed.";
    assert Message(TypeNotAllowed(mimetype)) == "File type " + mimetype + tail;
  }

  /** Every accepted type is an image, video, document (application) or audio type. */
  predicate HasMediaCategory(mimetype: string)
  {
    || StartsWith(mimetype, "image/")
    || StartsWith(mimetype, "video/")
    || StartsWith(mimetype, "application/")
    || StartsWith(mimetype, "audio/")
  }

  /** `s` is `prefix` followed by at least one more character. */
  predicate StartsWith(s: string, prefix: string)
  {
    |prefix| < |s| && s[..|prefix|] == prefix
  }

  lemma {:induction false} AcceptedTypesAreMedia(mimetype: string)
    ensures FileFilter(mimetype).Accept? ==> HasMediaCategory(mimetype)
  {
    if FileFilter(mimetype).Accept? {
      var i :| 0 <= i < |AllowedTypes| && AllowedTypes[i] == mimetype;
      if i < 5 {
        assert StartsWith(mimetype, "image/");
      } else if i < 10 {
        assert StartsWith(mimetype, "video/");
      } else if i == 10 {
        assert StartsWith(mimetype, "application/");
      } else if i == 11 {
        assert StartsWith(mimetype, "application/");
      } else if i == 12 {
        assert StartsWith(mimetype, "application/");
      } else {
        assert StartsWith(mimetype, "audio/");
      }
    }
  }

  /** Acceptance is an exact match: near variants of listed types are refused. */
  lemma NearVariantsRejected()
    ensures FileFilter("image/jpg").Reject?
    ensures FileFilter("IMAGE/PNG").Reject?
    ensures FileFilter("video/mp4 ").Reject?
    ensures FileFilter("image/png").Accept?
  {
    assert AllowedTypes[1] == "image/png";
  }

  /** A file's size is within the ceiling, taken as inclusive. */
  predicate WithinSizeLimit(f: UploadedFile)
  {
    |f.buffer| <= MaxFileSize
  }

  /** The ceiling is 10485760 bytes: a file of exactly that size passes, one byte more does not. */
  lemma SizeCeiling(f: UploadedFile)
    ensures WithinSizeLimit(f) <==> |f.buffer| <= 10485760
  {
  }

  /** The error, if any, that multer raises for the file at position `k` of a field
      whose `maxCount` is `maxCount`: the count cap is checked first, then the
      filter, then the size. */
  function FileError(f: UploadedFile, k: nat, maxCount: nat): Option<UploadError>
  {
    if k >= maxCount then Some(UnexpectedField)
    else match FileFilter(f.mimetype)
      case Reject(e) => Some(e)
      case Accept => if !WithinSizeLimit(f) then Some(FileTooLarge) else None
  }

  /** The first error among the files of one field, from position `from` on.
      No error exactly when the field holds at most `maxCount` files and each of
      them is of an allowed type and within the size ceiling. */
  function FieldErrorFrom(files: seq<UploadedFile>, maxCount: nat, from: nat): (r: Option<UploadError>)
    requires from <= |files|
    decreases |files| - from
    ensures r.None? <==>
      && (from < |files| ==> |files| <= maxCount)
      && forall k :: from <= k < |files| ==>
           FileFilter(files[k].mimetype).Accept? && WithinSizeLimit(files[k])
  {
    if from == |files| then None
    else match FileError(files[from], from, maxCount)
      case Some(e) => Some(e)
      case None => FieldErrorFrom(files, maxCount, from + 1)
  }

  /** The error `upload.fields` reports for one field, if any. */
  function FieldError(files: seq<UploadedFile>, maxCount: nat): (r: Option<UploadError>)
    ensures r.None? <==>
      && |files| <= maxCount
      && forall k :: 0 <= k < |files| ==> FileFilter(files[k].mimetype).Accept? && WithinSizeLimit(files[k])
  {
    FieldErrorFrom(files, maxCount, 0)
  }

  /** A file of a type outside the list makes its field fail with the filter's error,
      when nothing before it failed. */
  lemma {:induction false} RejectedTypeFailsField(files: seq<UploadedFile>, maxCount: nat, k: nat)
    requires k < |files| && |files| <= maxCount
    requires files[k].mimetype !in AllowedTypes
    requires forall j :: 0 <= j < k ==> FileError(files[j], j, maxCount).None?
    ensures FieldError(files, maxCount) == Some(TypeNotAllowed(files[k].mimetype))
  {
    FirstErrorAt(files, maxCount, 0, k);
  }

  lemma {:induction false} FirstErrorAt(files: seq<UploadedFile>, maxCount: nat, from: nat, k: nat)
    requires from <= k < |files|
    requires forall j :: from <= j < k ==> FileError(files[j], j, maxCount).None?
    requires FileError(files[k], k, maxCount).Some?
    ensures FieldErrorFrom(files, maxCount, from) == FileError(files[k], k, maxCount)
    decreases k - from
  {
    var e := FileError(files[from], from, maxCount);
    if from < k {
      assert e.None?;
      FirstErrorAt(files, maxCount, from + 1, k);
    } else {
      assert e.Some?;
    }
  }
}
