/** The upload and delete helpers of src/helpers/media_helper.ts: the mime allow-list, the stored file name,
    the upload limits as multer applies them to a request, and `deleteImages`, which unlinks by basename and
    skips only errors of one name. Files are names in the upload directory (`Db.uploads`). */
module Media {
  import opened Common
  import opened Strings
  import opened Store

  /** `ALLOWED_EXTENSION`. */
  function AllowedExtension(mimetype: string): (ext: Option<string>)
    ensures ext.Some? <==> mimetype in {"image/png", "image/jpg", "image/jpeg"}
    ensures ext.Some? ==> ext.value in {"png", "jpg", "jpeg"} && mimetype == "image/" + ext.value
  {
    if mimetype == "image/png" then Some("png")
    else if mimetype == "image/jpg" then Some("jpg")
    else if mimetype == "image/jpeg" then Some("jpeg")
    else None
  }

  /** `limits.fileSize`, in bytes. */
  const SizeLimit := 1024 * 1024 * 5

  const UploadDir := "public/uploads"

  /** The name the disk storage gives an upload: "-" before the original name, the first ".png", then the
      first "jpg", then the first "jpeg" removed, then "-", the uuid, "." and the extension of the mime type
      (`undefined` for a type outside the list: the filter refuses such a file, but then calls back a second
      time accepting it, so the storage may still name and write it). */
  function StoredName(originalname: string, uuid: string, mimetype: string): (name: string)
    ensures StartsWith(name, "-")
  {
    var base := ReplaceFirst(ReplaceFirst(ReplaceFirst(ReplaceFirst(originalname, "", "-"), ".png", ""), "jpg", ""), "jpeg", "");
    var ext := match AllowedExtension(mimetype) case Some(e) => e case None => "undefined";
    assert base[0] == '-' by {
      assert ReplaceFirst(originalname, "", "-") == "-" + originalname;
      RemovalKeepsDash("-" + originalname, ".png");
      RemovalKeepsDash(ReplaceFirst("-" + originalname, ".png", ""), "jpg");
      RemovalKeepsDash(ReplaceFirst(ReplaceFirst("-" + originalname, ".png", ""), "jpg", ""), "jpeg");
    }
    base + "-" + uuid + "." + ext
  }

  /** A replacement that brings no slash in leaves no slash. */
  lemma NoSlashReplace(s: string, pat: string, rep: string)
    requires '/' !in s && '/' !in rep
    ensures '/' !in ReplaceFirst(s, pat, rep)
  {
    match IndexOf(s, pat)
    case None =>
    case Some(i) =>
      var r := s[..i] + rep + s[i + |pat|..];
      forall k | 0 <= k < |r| ensures r[k] != '/' {
        if k < i { assert r[k] == s[k]; }
        else if k < i + |rep| { assert r[k] == rep[k - i]; }
        else { assert r[k] == s[k - |rep| + |pat|]; }
      }
  }

  /** Removing a non-empty pattern that does not start with "-" keeps a leading "-". */
  lemma RemovalKeepsDash(s: string, pat: string)
    requires |s| > 0 && s[0] == '-' && |pat| > 0 && pat[0] != '-'
    ensures |ReplaceFirst(s, pat, "")| > 0 && ReplaceFirst(s, pat, "")[0] == '-'
  {
    match IndexOf(s, pat)
    case None =>
    case Some(i) =>
      assert s[i..i + |pat|] == pat;
      assert s[i] == s[i..i + |pat|][0] == pat[0];
      assert (s[..i] + "" + s[i + |pat|..])[0] == s[0];
  }

  /** A stored name never holds a slash when the original name and the uuid do not, so it is a single path
      segment. */
  lemma StoredNameIsSegment(originalname: string, uuid: string, mimetype: string)
    requires '/' !in originalname && '/' !in uuid
    ensures '/' !in StoredName(originalname, uuid, mimetype) && StoredName(originalname, uuid, mimetype) != []
  {
    var s0 := ReplaceFirst(originalname, "", "-");
    assert s0 == "-" + originalname;
    NoSlashReplace(originalname, "", "-");
    NoSlashReplace(s0, ".png", "");
    var s1 := ReplaceFirst(s0, ".png", "");
    NoSlashReplace(s1, "jpg", "");
    var s2 := ReplaceFirst(s1, "jpg", "");
    NoSlashReplace(s2, "jpeg", "");
    var base := ReplaceFirst(s2, "jpeg", "");
    var ext := match AllowedExtension(mimetype) case Some(e) => e case None => "undefined";
    assert '/' !in ext;
    var name := base + "-" + uuid + "." + ext;
    forall k | 0 <= k < |name| ensures name[k] != '/' {
      if k < |base| { assert name[k] == base[k]; }
      else if k < |base| + 1 { assert name[k] == '-'; }
      else if k < |base| + 1 + |uuid| { assert name[k] == uuid[k - |base| - 1]; }
      else if k < |base| + 2 + |uuid| { assert name[k] == '.'; }
      else { assert name[k] == ext[k - |base| - 2 - |uuid|]; }
    }
  }

  /** The URL the handlers store for an upload: `${protocol}://${host}/${file.path}`. */
  function UploadUrl(protocol: string, host: string, name: string): string {
    protocol + "://" + host + "/" + UploadDir + "/" + name
  }

  /** The basename of a stored URL is the stored file's name, so `deleteImages` finds what the upload wrote. */
  lemma UrlNamesItsFile(protocol: string, host: string, originalname: string, uuid: string, mimetype: string)
    requires '/' !in originalname && '/' !in uuid
    ensures var name := StoredName(originalname, uuid, mimetype);
            Basename(UploadUrl(protocol, host, name)) == name
  {
    var name := StoredName(originalname, uuid, mimetype);
    StoredNameIsSegment(originalname, uuid, mimetype);
    var dir := protocol + "://" + host + "/" + UploadDir;
    assert UploadUrl(protocol, host, name) == dir + "/" + name;
    BasenameOfJoin(dir, name);
  }

  /** One file part of a multipart request. */
  datatype Part = Part(field: string, originalname: string, mimetype: string, size: int)

  /** A request as multer sees it: not multipart at all, or its file parts in stream order. */
  datatype UploadRequest = NotMultipart | Multipart(parts: seq<Part>)

  /** One entry of `upload.fields([...])`. */
  datatype FieldSpec = FieldSpec(name: string, maxCount: int)

  datatype StoredFile = StoredFile(field: string, name: string)

  /** The error multer hands the handler: `code` (undefined for the filter's plain Error), message and
      field. */
  datatype UploadError = UploadError(code: Option<string>, message: string, field: Option<string>)

  datatype Upload = Uploaded(files: seq<StoredFile>) | Refused(error: UploadError) | Skipped

  /** How many more files `field` may still take after `taken` parts. */
  function Allowance(specs: seq<FieldSpec>, field: string): int {
    if specs == [] then 0
    else if specs[0].name == field then specs[0].maxCount
    else Allowance(specs[1..], field)
  }

  function CountField(parts: seq<Part>, field: string): nat {
    if parts == [] then 0 else CountField(parts[..|parts| - 1], field) + (if parts[|parts| - 1].field == field then 1 else 0)
  }

  /** The first problem with a part, checked in multer's order: field and count, then the file filter, then the
      size limit. `earlier` are the parts before it. */
  function PartError(specs: seq<FieldSpec>, earlier: seq<Part>, p: Part): (e: Option<UploadError>)
    ensures e.None? ==> AllowedExtension(p.mimetype).Some? && p.size <= SizeLimit
                        && CountField(earlier, p.field) < Allowance(specs, p.field)
  {
    if CountField(earlier, p.field) >= Allowance(specs, p.field) then
      Some(UploadError(Some("LIMIT_UNEXPECTED_FILE"), "Unexpected field", Some(p.field)))
    else if AllowedExtension(p.mimetype).None? then
      Some(UploadError(None, "Invalid image type\n" + p.mimetype + " is not allowed", None))
    else if p.size > SizeLimit then
      Some(UploadError(Some("LIMIT_FILE_SIZE"), "File too large", Some(p.field)))
    else None
  }

  /** `upload.fields(specs)` on a request; `uuidOf(i)` is the uuid drawn for the i-th part. A failure removes
      what was already written, so only a success leaves files behind. */
  function ProcessUpload(specs: seq<FieldSpec>, req: UploadRequest, uuidOf: nat -> string): (u: Upload)
    ensures req.NotMultipart? <==> u.Skipped?
    ensures u.Uploaded? ==> |u.files| == |req.parts| && forall i :: 0 <= i < |req.parts| ==> PartStored(specs, req.parts, uuidOf, u.files, i)
  {
    match req
    case NotMultipart => Skipped
    case Multipart(parts) => StoreParts(specs, parts, uuidOf)
  }

  /** The i-th part was accepted and stored under its generated name. */
  predicate PartStored(specs: seq<FieldSpec>, parts: seq<Part>, uuidOf: nat -> string, files: seq<StoredFile>, i: int)
    requires 0 <= i < |parts| && |files| == |parts|
  {
    && files[i] == StoredFile(parts[i].field, StoredName(parts[i].originalname, uuidOf(i), parts[i].mimetype))
    && parts[i].size <= SizeLimit && AllowedExtension(parts[i].mimetype).Some?
    && CountField(parts[..i], parts[i].field) < Allowance(specs, parts[i].field)
  }

  function StoreParts(specs: seq<FieldSpec>, parts: seq<Part>, uuidOf: nat -> string): (u: Upload)
    ensures !u.Skipped?
    ensures u.Uploaded? ==> |u.files| == |parts| && forall i :: 0 <= i < |parts| ==> PartStored(specs, parts, uuidOf, u.files, i)
    decreases |parts|
  {
    if parts == [] then Uploaded([])
    else
      var init := parts[..|parts| - 1];
      var last := parts[|parts| - 1];
      match StoreParts(specs, init, uuidOf)
      case Refused(e) => Refused(e)
      case Uploaded(files) =>
        match PartError(specs, init, last)
        case Some(e) => Refused(e)
        case None =>
          var r := files + [StoredFile(last.field, StoredName(last.originalname, uuidOf(|parts| - 1), last.mimetype))];
          ExtendStored(specs, parts, init, uuidOf, files, r);
          Uploaded(r)
  }

  lemma ExtendStored(specs: seq<FieldSpec>, parts: seq<Part>, init: seq<Part>, uuidOf: nat -> string, files: seq<StoredFile>, r: seq<StoredFile>)
    requires |parts| > 0 && init == parts[..|parts| - 1] && |files| == |init| && |r| == |parts| && r[..|files|] == files
    requires forall i :: 0 <= i < |files| ==> PartStored(specs, init, uuidOf, files, i)
    requires r[|files|] == StoredFile(parts[|files|].field, StoredName(parts[|files|].originalname, uuidOf(|files|), parts[|files|].mimetype))
    requires PartError(specs, init, parts[|files|]).None?
    ensures forall i :: 0 <= i < |parts| ==> PartStored(specs, parts, uuidOf, r, i)
  {
    forall i | 0 <= i < |parts| ensures PartStored(specs, parts, uuidOf, r, i) {
      if i < |files| {
        StoredKept(specs, parts, init, uuidOf, files, r, i);
      } else {
        assert parts[..i] == init;
      }
    }
  }

  lemma StoredKept(specs: seq<FieldSpec>, parts: seq<Part>, init: seq<Part>, uuidOf: nat -> string, files: seq<StoredFile>, r: seq<StoredFile>, i: int)
    requires |parts| > 0 && init == parts[..|parts| - 1] && |files| == |init| && |r| == |parts| && r[..|files|] == files
    requires 0 <= i < |files| && PartStored(specs, init, uuidOf, files, i)
    ensures PartStored(specs, parts, uuidOf, r, i)
  {
    assert init[..i] == parts[..i] && init[i] == parts[i] && r[i] == files[i];
  }

  /** A field with `maxCount` 1 takes at most one file. */
  lemma SingleFileField(specs: seq<FieldSpec>, parts: seq<Part>, uuidOf: nat -> string, field: string)
    requires Allowance(specs, field) == 1 && StoreParts(specs, parts, uuidOf).Uploaded?
    ensures CountField(parts, field) <= 1
  {
    CountBound(specs, parts, uuidOf, field);
  }

  lemma {:induction false} CountBound(specs: seq<FieldSpec>, parts: seq<Part>, uuidOf: nat -> string, field: string)
    requires StoreParts(specs, parts, uuidOf).Uploaded?
    ensures CountField(parts, field) <= if Allowance(specs, field) < 0 then 0 else Allowance(specs, field)
    decreases |parts|
  {
    if parts != [] {
      var init := parts[..|parts| - 1];
      CountBound(specs, init, uuidOf, field);
      assert init == parts[..|parts| - 1];
    }
  }

  /** Running the upload middleware: on success the stored files are in the upload directory; a failure
      leaves the directory as it was. */
  method RunUpload(db: Db, specs: seq<FieldSpec>, req: UploadRequest, uuidOf: nat -> string) returns (u: Upload)
    modifies db`uploads
    ensures u == ProcessUpload(specs, req, uuidOf)
    ensures db.uploads == if u.Uploaded? then old(db.uploads) + Names(u.files) else old(db.uploads)
  {
    u := ProcessUpload(specs, req, uuidOf);
    if u.Uploaded? {
      db.uploads := db.uploads + Names(u.files);
    }
  }

  /** The stored files of a field are as many as the parts sent for it. */
  lemma {:induction false} FilesOfCount(specs: seq<FieldSpec>, parts: seq<Part>, uuidOf: nat -> string, field: string)
    requires StoreParts(specs, parts, uuidOf).Uploaded?
    ensures |FilesOf(StoreParts(specs, parts, uuidOf).files, field)| == CountField(parts, field)
    decreases |parts|
  {
    if parts != [] {
      var init := parts[..|parts| - 1];
      FilesOfCount(specs, init, uuidOf, field);
      var files := StoreParts(specs, parts, uuidOf).files;
      assert files[..|files| - 1] == StoreParts(specs, init, uuidOf).files;
      assert files[|files| - 1].field == parts[|parts| - 1].field;
    }
  }

  /** An upload never stores more files for a field than its `maxCount`. */
  lemma UploadRespectsMaxCount(specs: seq<FieldSpec>, req: UploadRequest, uuidOf: nat -> string, field: string)
    requires ProcessUpload(specs, req, uuidOf).Uploaded?
    ensures |FilesOf(ProcessUpload(specs, req, uuidOf).files, field)| <= if Allowance(specs, field) < 0 then 0 else Allowance(specs, field)
  {
    FilesOfCount(specs, req.parts, uuidOf, field);
    CountBound(specs, req.parts, uuidOf, field);
  }

  /** The reply text of an upload error: `${message}{${field}}`. */
  function UploadErrorText(e: UploadError): string {
    e.message + "{" + (match e.field case Some(f) => f case None => "undefined") + "}"
  }

  /** The stored files of one field, in upload order (`req.files[field]`). */
  function FilesOf(files: seq<StoredFile>, field: string): (r: seq<string>)
    ensures |r| <= |files|
    ensures r == [] <==> forall i :: 0 <= i < |files| ==> files[i].field != field
    ensures forall j :: 0 <= j < |r| ==> StoredFile(field, r[j]) in files
  {
    if files == [] then []
    else
      var init := files[..|files| - 1];
      assert forall i :: 0 <= i < |init| ==> init[i] == files[i];
      FilesOf(init, field) + (if files[|files| - 1].field == field then [files[|files| - 1].name] else [])
  }

  /** `req.files?.[field]?.[0]`: the first file stored for the field, if the middleware ran and stored one. */
  function FirstFile(u: Upload, field: string): (name: Option<string>)
    ensures name.Some? ==> u.Uploaded? && StoredFile(field, name.value) in u.files
    ensures name.None? <==> !u.Uploaded? || forall i :: 0 <= i < |u.files| ==> u.files[i].field != field
  {
    if u.Uploaded? && FilesOf(u.files, field) != [] then Some(FilesOf(u.files, field)[0]) else None
  }

  function Names(files: seq<StoredFile>): set<string> {
    set i | 0 <= i < |files| :: files[i].name
  }

  /** Errors from `unlink`: Node names every file-system error "Error" and tells them apart by `code`. */
  datatype FsError = FsError(name: string, code: string)

  const FsErrorName := "Error"

  /** The files left and the first error not skipped, after unlinking some URLs in order. */
  datatype Sweep = Sweep(left: set<string>, error: Option<FsError>)

  /** A basename that joins back to the upload directory itself or to its parent. */
  predicate NamesDirectory(name: string) {
    name == "" || name == "." || name == ".."
  }

  /** One unlink: a basename that names a directory fails with EISDIR, a missing file with ENOENT. */
  function UnlinkStep(s: Sweep, name: string, skip: string): Sweep {
    if name in s.left && !NamesDirectory(name) then Sweep(s.left - {name}, s.error)
    else if FsErrorName == skip || s.error.Some? then s
    else Sweep(s.left, Some(FsError(FsErrorName, if NamesDirectory(name) then "EISDIR" else "ENOENT")))
  }

  /** The file names a list of URLs points at. */
  function NamesOf(urls: seq<string>): (names: seq<string>)
    ensures |names| == |urls| && forall i :: 0 <= i < |urls| ==> names[i] == Basename(urls[i])
  {
    seq(|urls|, i requires 0 <= i < |urls| => Basename(urls[i]))
  }

  /** Unlinking `names` in order from a directory holding `files`. */
  function UnlinkAll(names: seq<string>, files: set<string>, skip: string): (s: Sweep)
    ensures s.left == files - set i | 0 <= i < |names| && !NamesDirectory(names[i]) :: names[i]
    ensures skip == FsErrorName ==> s.error.None?
    ensures s.error.Some? ==> s.error.value.name == FsErrorName && s.error.value.code in {"ENOENT", "EISDIR"}
    decreases |names|
  {
    if names == [] then Sweep(files, None)
    else
      var init := names[..|names| - 1];
      var prev := UnlinkAll(init, files, skip);
      assert (set i | 0 <= i < |names| && !NamesDirectory(names[i]) :: names[i])
          == (set i | 0 <= i < |init| && !NamesDirectory(init[i]) :: init[i])
             + (if NamesDirectory(names[|names| - 1]) then {} else {names[|names| - 1]}) by {
        assert forall i :: 0 <= i < |init| ==> init[i] == names[i];
      }
      UnlinkStep(prev, names[|names| - 1], skip)
  }

  /** `deleteImages(urls, skip)` on a directory holding `files`. Every unlink is attempted, since the promises
      run side by side; the call rejects with the first error whose name is not `skip`. */
  function DeleteAll(urls: seq<string>, files: set<string>, skip: string): (s: Sweep)
    ensures s.left == files - set i | 0 <= i < |urls| && !NamesDirectory(Basename(urls[i])) :: Basename(urls[i])
    ensures skip == FsErrorName ==> s.error.None?
    ensures s.error.Some? ==> s.error.value.name == FsErrorName && s.error.value.code in {"ENOENT", "EISDIR"}
  {
    var names := NamesOf(urls);
    assert (set i | 0 <= i < |names| && !NamesDirectory(names[i]) :: names[i])
        == (set i | 0 <= i < |urls| && !NamesDirectory(Basename(urls[i])) :: Basename(urls[i]));
    UnlinkAll(names, files, skip)
  }

  /** When errors are not skipped, an unlink run that ends without error found every name it was given. */
  lemma {:induction false} CleanUnlinkFoundAll(names: seq<string>, files: set<string>, skip: string, i: int)
    requires skip != FsErrorName && UnlinkAll(names, files, skip).error.None?
    requires 0 <= i < |names|
    ensures names[i] in files && !NamesDirectory(names[i])
    decreases |names|
  {
    var init := names[..|names| - 1];
    if i < |init| {
      assert init[i] == names[i];
      CleanUnlinkFoundAll(init, files, skip, i);
    } else {
      assert UnlinkAll(init, files, skip).left <= files;
    }
  }

  /** A `deleteImages` call that does not skip errors resolves only when every URL named an existing file. */
  lemma CleanDeleteFoundAll(urls: seq<string>, files: set<string>, skip: string, i: int)
    requires skip != FsErrorName && DeleteAll(urls, files, skip).error.None?
    requires 0 <= i < |urls|
    ensures Basename(urls[i]) in files && !NamesDirectory(Basename(urls[i]))
  {
    CleanUnlinkFoundAll(NamesOf(urls), files, skip, i);
  }

  lemma UnlinkAllSnoc(names: seq<string>, i: nat, files: set<string>, skip: string)
    requires i < |names|
    ensures UnlinkAll(names[..i + 1], files, skip) == UnlinkStep(UnlinkAll(names[..i], files, skip), names[i], skip)
  {
    assert names[..i + 1][..i] == names[..i];
  }

  /** `deleteImages` over the upload directory: unlinks each URL's basename in turn and reports the first
      error not skipped. */
  method DeleteImages(db: Db, urls: seq<string>, skip: string) returns (error: Option<FsError>)
    modifies db`uploads
    ensures Sweep(db.uploads, error) == DeleteAll(urls, old(db.uploads), skip)
  {
    error := None;
    ghost var names := NamesOf(urls);
    var i := 0;
    while i < |urls|
      invariant 0 <= i <= |urls|
      invariant Sweep(db.uploads, error) == UnlinkAll(names[..i], old(db.uploads), skip)
    {
      var filename := Basename(urls[i]);
      assert filename == names[i];
      ghost var before := Sweep(db.uploads, error);
      UnlinkAllSnoc(names, i, old(db.uploads), skip);
      if filename in db.uploads && !NamesDirectory(filename) {
        db.uploads := db.uploads - {filename};
      } else if FsErrorName != skip && error.None? {
        error := Some(FsError(FsErrorName, if NamesDirectory(filename) then "EISDIR" else "ENOENT"));
      }
      assert Sweep(db.uploads, error) == UnlinkStep(before, names[i], skip);
      i := i + 1;
    }
    assert names[..|urls|] == names;
  }
}
