/**
 * Upload validation and storage naming: `allowed_file`, the checks shared by
 * the two upload handlers, the stored file names, and the unbound upload
 * handler `upload_file_direct` without its file write.
 */
module Uploads {
  import opened Wrappers
  import opened Text
  import opened Payload

  const AllowedExtensions: set<string> := {"mp3", "wav", "mp4", "m4a", "aac", "flac", "ogg", "mov", "avi"}

  /** 100 MiB. */
  const MaxFileSize: nat := 100 * 1024 * 1024

  const UploadFolder: string := "uploads"

  const NoFileProvided := "No file provided"
  const NoFileSelected := "No file selected"
  const InvalidFileType := "Invalid file type. Please upload an audio or video file."
  const FileTooLarge := "File size exceeds 100MB limit"
  const UploadFailed := "Failed to upload file"

  /** The multipart part named "file": its client-side file name and its size in bytes. */
  datatype FilePart = FilePart(filename: string, size: nat)

  /** `ext` is the text after the last '.' of `name`. */
  predicate ExtensionIs(name: string, ext: string)
  {
    && |ext| < |name|
    && name[|name| - |ext| - 1] == '.'
    && '.' !in ext
    && name[|name| - |ext|..] == ext
  }

  /** A name has at most one extension. */
  lemma ExtensionUnique(name: string, e1: string, e2: string)
    requires ExtensionIs(name, e1) && ExtensionIs(name, e2)
    ensures e1 == e2
  {
    var i1, i2 := |name| - |e1| - 1, |name| - |e2| - 1;
    LastIndexUnique(name, '.', i1);
    LastIndexUnique(name, '.', i2);
  }

  /** The extension `rsplit('.', 1)[1]` finds, when `name` has a '.'. */
  lemma RSplitExtension(name: string)
    requires '.' in name
    ensures ExtensionIs(name, RSplitOnce(name, '.')[1])
  {
    var parts := RSplitOnce(name, '.');
    assert name == parts[0] + ['.'] + parts[1];
    assert name[|name| - |parts[1]|..] == parts[1];
  }

  /** `allowed_file`: a '.' is present and the lower-cased text after the last one is an allowed extension. */
  function AllowedFile(filename: string): (ok: bool)
    ensures ok <==> exists ext :: ExtensionIs(filename, ext) && Lower(ext) in AllowedExtensions
  {
    if '.' in filename then
      var ext := RSplitOnce(filename, '.')[1];
      RSplitExtension(filename);
      assert forall e :: ExtensionIs(filename, e) ==> e == ext by {
        forall e | ExtensionIs(filename, e) ensures e == ext { ExtensionUnique(filename, e, ext); }
      }
      Lower(ext) in AllowedExtensions
    else
      false
  }

  /** Lower-casing commutes with taking a suffix. */
  lemma LowerSuffix(s: string, k: nat)
    requires k <= |s|
    ensures Lower(s)[k..] == Lower(s[k..])
  {
    var a, b := Lower(s)[k..], Lower(s[k..]);
    assert |a| == |b|;
    forall j | 0 <= j < |a| ensures a[j] == b[j] {
      assert a[j] == Lower(s)[k + j];
      assert b[j] == LowerChar(s[k..][j]);
    }
  }

  /** Lower-casing never creates or removes a '.'. */
  lemma LowerDotFree(s: string)
    ensures '.' in Lower(s) <==> '.' in s
  {
    LowerKeepsDots(s);
    if '.' in s {
      var j :| 0 <= j < |s| && s[j] == '.';
      assert Lower(s)[j] == '.';
    }
    if '.' in Lower(s) {
      var j :| 0 <= j < |s| && Lower(s)[j] == '.';
      assert s[j] == '.';
    }
  }

  /** Lower-casing a name lower-cases its extension. */
  lemma LowerExtension(name: string, ext: string)
    requires ExtensionIs(name, ext)
    ensures ExtensionIs(Lower(name), Lower(ext))
  {
    var k := |name| - |ext|;
    LowerSuffix(name, k);
    LowerDotFree(ext);
    LowerKeepsDots(name);
    assert Lower(name)[k - 1] == '.';
  }

  /** `allowed_file` ignores case: lower-casing the name never changes the verdict. */
  lemma {:induction false} AllowedFileIgnoresCase(filename: string)
    ensures AllowedFile(Lower(filename)) == AllowedFile(filename)
  {
    LowerDotFree(filename);
    if '.' in filename {
      var low := Lower(filename);
      var ext := RSplitOnce(filename, '.')[1];
      RSplitExtension(filename);
      LowerExtension(filename, ext);
      LowerIdempotent(ext);
      forall e | ExtensionIs(filename, e) ensures e == ext { ExtensionUnique(filename, e, ext); }
      forall e | ExtensionIs(low, e) ensures e == Lower(ext) { ExtensionUnique(low, e, Lower(ext)); }
      assert AllowedFile(filename) == (Lower(ext) in AllowedExtensions);
      assert AllowedFile(low) == (Lower(Lower(ext)) in AllowedExtensions);
    }
  }

  /** An upper-case extension is accepted. */
  lemma AcceptsUpperCaseExtension()
    ensures AllowedFile("A.MP3")
  {
    assert ExtensionIs("A.MP3", "MP3");
    assert Lower("MP3") == "mp3";
  }

  /** Only the text after the last '.' is looked at: an earlier '.' does no harm... */
  lemma AcceptsEarlierDots()
    ensures AllowedFile("take.final.Wav")
  {
    assert ExtensionIs("take.final.Wav", "Wav");
    assert Lower("Wav") == "wav";
  }

  /** ... and an allowed extension before the last '.' does not help. */
  lemma RejectsHiddenExtension()
    ensures !AllowedFile("song.mp3.exe")
  {
    assert ExtensionIs("song.mp3.exe", "exe");
    forall e | ExtensionIs("song.mp3.exe", e) ensures e == "exe" {
      ExtensionUnique("song.mp3.exe", e, "exe");
    }
    assert Lower("exe") == "exe";
  }

  /** An executable, and a name with no '.', are refused. */
  lemma RejectsExeAndNoExtension()
    ensures !AllowedFile("x.exe")
    ensures !AllowedFile("noext")
  {
    assert ExtensionIs("x.exe", "exe");
    forall e | ExtensionIs("x.exe", e) ensures e == "exe" { ExtensionUnique("x.exe", e, "exe"); }
    assert Lower("exe") == "exe";
    assert forall i :: 0 <= i < 5 ==> "noext"[i] != '.';
  }

  /**
   * The checks both upload handlers make, in the source's order: a part named
   * "file", a non-empty file name, an allowed extension, at most MaxFileSize
   * bytes. None means the file is accepted.
   */
  function FileError(file: Option<FilePart>): (err: Option<string>)
    ensures err.None? <==>
              file.Some? && file.value.filename != "" && AllowedFile(file.value.filename)
              && file.value.size <= MaxFileSize
    ensures err.Some? ==> err.value in {NoFileProvided, NoFileSelected, InvalidFileType, FileTooLarge}
    ensures file.None? ==> err == Some(NoFileProvided)
    ensures file.Some? && file.value.filename == "" ==> err == Some(NoFileSelected)
    ensures (file.Some? && file.value.filename != "" && !AllowedFile(file.value.filename))
              ==> err == Some(InvalidFileType)
    ensures (file.Some? && AllowedFile(file.value.filename) && file.value.size > MaxFileSize)
              ==> err == Some(FileTooLarge)
  {
    if file.None? then Some(NoFileProvided)
    else if file.value.filename == "" then Some(NoFileSelected)
    else if !AllowedFile(file.value.filename) then Some(InvalidFileType)
    else if file.value.size > MaxFileSize then Some(FileTooLarge)
    else None
  }

  /** The size limit is inclusive: MaxFileSize bytes pass, one byte more does not. */
  lemma SizeLimitIsInclusive(filename: string)
    requires AllowedFile(filename)
    ensures FileError(Some(FilePart(filename, MaxFileSize))) == None
    ensures FileError(Some(FilePart(filename, MaxFileSize + 1))) == Some(FileTooLarge)
  {
  }

  /**
   * `filename.rsplit('.', 1)[1].lower()` on the sanitized name; None where the
   * index raises because the name holds no '.'.
   */
  function StoredExtension(name: string): (ext: Option<string>)
    ensures ext.None? <==> '.' !in name
    ensures ext.Some? ==> exists e :: ExtensionIs(name, e) && ext.value == Lower(e)
  {
    if '.' in name then
      RSplitExtension(name);
      Some(Lower(RSplitOnce(name, '.')[1]))
    else None
  }

  /** `<file_id>.<ext>`, the name of an upload that is bound to no order. */
  function DirectFileName(fileId: string, ext: string): (name: string)
    ensures fileId <= name && |name| == |fileId| + 1 + |ext|
    ensures name[|fileId|] == '.'
    ensures '.' !in ext ==> ExtensionIs(name, ext)
  {
    var name := fileId + "." + ext;
    assert name[|name| - |ext|..] == ext;
    name
  }

  /** `<order_id>_<first 8 of uuid hex>.<ext>`, the name of an upload bound to an order. */
  function OrderFileName(orderId: string, uuidHex: string, ext: string): (name: string)
    ensures orderId + "_" <= name
    ensures '.' !in ext ==> ExtensionIs(name, ext)
    ensures IsUuidHex(uuidHex) ==>
              |name| == |orderId| + 10 + |ext|
              && forall i :: |orderId| < i <= |orderId| + 8 ==> IsLowerHexDigit(name[i])
  {
    var name := orderId + "_" + Take(uuidHex, 8) + "." + ext;
    assert name[|name| - |ext|..] == ext;
    name
  }

  /**
   * Where `upload_file` writes an order's file: `uploads/<order_id>_<8 hex>.<ext>`.
   * None where the sanitized name has no '.', so that the source's
   * `rsplit('.', 1)[1]` raises.
   */
  function OrderUploadPath(orderId: string, uuidHex: string, name: string): (path: Option<string>)
    ensures path.None? <==> '.' !in name
    ensures path.Some? ==>
              exists ext :: ExtensionIs(name, ext)
                && path.value == UploadFolder + "/" + OrderFileName(orderId, uuidHex, Lower(ext))
  {
    match StoredExtension(name)
    case None => None
    case Some(ext) => Some(UploadFolder + "/" + OrderFileName(orderId, uuidHex, ext))
  }

  /** Where `upload_file_direct` writes a file: `uploads/<file_id>.<ext>`, None as for `OrderUploadPath`. */
  function DirectUploadPath(fileId: string, name: string): (path: Option<string>)
    ensures path.None? <==> '.' !in name
    ensures path.Some? ==>
              exists ext :: ExtensionIs(name, ext)
                && path.value == UploadFolder + "/" + DirectFileName(fileId, Lower(ext))
  {
    match StoredExtension(name)
    case None => None
    case Some(ext) => Some(UploadFolder + "/" + DirectFileName(fileId, ext))
  }

  /** A stored name gives back the extension it was built with: the round trip of naming and `rsplit`. */
  lemma {:induction false} StoredNameKeepsExtension(orderId: string, uuidHex: string, name: string)
    requires '.' in name
    ensures var ext := StoredExtension(name).value;
            StoredExtension(OrderFileName(orderId, uuidHex, ext)) == Some(ext)
  {
    var ext := StoredExtension(name).value;
    var e :| ExtensionIs(name, e) && ext == Lower(e);
    assert '.' !in ext by { LowerKeepsDots(e); }
    var stored := OrderFileName(orderId, uuidHex, ext);
    var e2 :| ExtensionIs(stored, e2) && StoredExtension(stored).value == Lower(e2);
    ExtensionUnique(stored, e2, ext);
    LowerIdempotent(e);
  }

  /**
   * `upload_file_direct` without its file write: the response, and the path
   * the file is written to when it is accepted. `secureFilename` stands for
   * werkzeug's `secure_filename`, `fileId` for `str(uuid.uuid4())`.
   */
  function UploadDirect(file: Option<FilePart>, secureFilename: string -> string, fileId: string)
    : (res: (Response<Object>, Option<string>))
    ensures res.0.BadRequest? <==> FileError(file).Some?
    ensures res.0.BadRequest? ==> res.0.error == FileError(file).value
    ensures !res.0.NotFound?
    ensures res.0.ServerError? <==>
              FileError(file).None? && '.' !in secureFilename(file.value.filename)
    ensures res.0.ServerError? ==> res.0.error == UploadFailed
    ensures res.1.Some? <==> res.0.Ok?
    ensures res.0.Ok? ==>
              && file.Some?
              && var name := secureFilename(file.value.filename);
              && res.0.body == map["success" := Bool(true), "message" := Str("File uploaded successfully"),
                                   "file_id" := Str(fileId), "filename" := Str(name),
                                   "file_size" := Num(file.value.size)]
              && res.1 == DirectUploadPath(fileId, name)
  {
    match FileError(file)
    case Some(err) => (BadRequest(err), None)
    case None =>
      var name := secureFilename(file.value.filename);
      match DirectUploadPath(fileId, name)
      case None => (ServerError(UploadFailed), None)
      case Some(path) =>
        (Ok(map["success" := Bool(true), "message" := Str("File uploaded successfully"),
                "file_id" := Str(fileId), "filename" := Str(name), "file_size" := Num(file.value.size)]),
         Some(path))
  }
}
