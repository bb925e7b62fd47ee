/** The upload middleware: where an uploaded file is written, the name it is stored
    under, which files are accepted, and the size and count limits, together with
    the order in which the multipart parser applies them to the files of one request. */
module Upload {
  import opened Foundation
  import opened Text

  /** A file part as the client sends it. */
  datatype Incoming = Incoming(fieldname: string, originalname: string, mimetype: string, size: nat)

  /** A file once disk storage has written it. */
  datatype StoredFile = StoredFile(
    fieldname: string, originalname: string, mimetype: string, size: nat,
    destination: string, filename: string, path: string)

  /** Destination directory, chosen by the form field the file was sent under. */
  function Destination(fieldname: string): (dir: string)
    ensures dir == "uploads/documents/" <==> fieldname == "documents"
    ensures dir == "uploads/gallery/" <==> fieldname == "gallery"
    ensures dir == "uploads/complaints/" <==> fieldname == "complaints"
    ensures dir == "uploads/misc/" <==> fieldname !in {"documents", "gallery", "complaints"}
  {
    var uploadPath := "uploads/";
    if fieldname == "documents" then uploadPath + "documents/"
    else if fieldname == "gallery" then uploadPath + "gallery/"
    else if fieldname == "complaints" then uploadPath + "complaints/"
    else uploadPath + "misc/"
  }

  function LastIndexOf(s: string, c: char): (k: Option<nat>)
    ensures k.None? <==> c !in s
    ensures k.Some? ==> k.value < |s| && s[k.value] == c && c !in s[k.value + 1..]
  {
    if |s| == 0 then None
    else if s[|s| - 1] == c then Some(|s| - 1)
    else
      var k := LastIndexOf(s[..|s| - 1], c);
      assert s == s[..|s| - 1] + [s[|s| - 1]];
      if k.Some? then
        assert s[k.value + 1..] == s[..|s| - 1][k.value + 1..] + [s[|s| - 1]];
        k
      else k
  }

  /** The last occurrence is the one after which the character does not occur. */
  lemma LastIndexAt(s: string, c: char, k: nat)
    requires k < |s| && s[k] == c && c !in s[k + 1..]
    ensures LastIndexOf(s, c) == Some(k)
  {
    var r := LastIndexOf(s, c).value;
    assert forall j :: k < j < |s| ==> s[j] == s[k + 1..][j - k - 1];
    assert forall j :: r < j < |s| ==> s[j] == s[r + 1..][j - r - 1];
  }

  /** Final path component of a client file name (text after the last '/'). */
  function Basename(name: string): (base: string)
    ensures '/' !in base
    ensures EndsWith(name, base)
    ensures |base| == |name| || name[|name| - |base| - 1] == '/'
  {
    match LastIndexOf(name, '/')
    case None => name
    case Some(k) => name[k + 1..]
  }

  /** `path.extname`: from the last '.' of the final component to its end, or empty
      when that component has no '.', has its only dot at the start, or is "..". */
  function Extname(name: string): (ext: string)
    ensures ext == [] || (ext[0] == '.' && '.' !in ext[1..] && '/' !in ext)
    ensures EndsWith(name, ext) && EndsWith(Basename(name), ext)
    ensures ext != [] <==>
              Basename(name) != ".." && exists k :: 0 < k < |Basename(name)| && Basename(name)[k] == '.'
  {
    var base := Basename(name);
    LaterDot(base);
    match LastIndexOf(base, '.')
    case None => ""
    case Some(k) =>
      if k == 0 || base == ".." then ""
      else
        DotSuffix(name, base, k);
        base[k..]
  }

  /** A text has a dot after its first character exactly when its last dot is not
      at the start. */
  lemma LaterDot(base: string)
    ensures (exists k :: 0 < k < |base| && base[k] == '.') <==>
              LastIndexOf(base, '.').Some? && LastIndexOf(base, '.').value > 0
  {
    var last := LastIndexOf(base, '.');
    if last == Some(0) {
      forall j | 0 < j < |base| ensures base[j] != '.' {
        assert base[j] == base[1..][j - 1];
      }
    }
  }

  /** The text of a final component from its last dot on is an extension of the name. */
  lemma DotSuffix(name: string, base: string, k: nat)
    requires EndsWith(name, base) && '/' !in base
    requires k < |base| && base[k] == '.' && '.' !in base[k + 1..]
    ensures base[k..][0] == '.' && '.' !in base[k..][1..] && '/' !in base[k..]
    ensures EndsWith(name, base[k..]) && EndsWith(base, base[k..])
  {
    assert base[k..][1..] == base[k + 1..];
    assert forall i :: 0 <= i < |base[k..]| ==> base[k..][i] == base[k + i];
    assert EndsWith(base, base[k..]);
    EndsWithTransitive(name, base, base[k..]);
  }

  predicate HexOrDash(c: char)
  {
    '0' <= c <= '9' || 'a' <= c <= 'f' || c == '-'
  }

  /** Shape of a version-4 UUID in its text form. */
  predicate IsUuid(u: string)
  {
    |u| == 36 && forall i :: 0 <= i < |u| ==> HexOrDash(u[i])
  }

  /** Stored file name: a fresh UUID followed by the original extension. */
  function StoredName(uuid: string, originalname: string): (n: string)
    ensures |uuid| <= |n| && n[..|uuid|] == uuid && EndsWith(n, Extname(originalname))
    ensures IsUuid(uuid) ==> '/' !in n
  {
    var n := uuid + Extname(originalname);
    if IsUuid(uuid) then
      UuidIsPlain(uuid);
      NotInConcat(uuid, Extname(originalname), '/');
      n
    else n
  }

  /** A UUID has neither a path separator nor a dot. */
  lemma UuidIsPlain(uuid: string)
    requires IsUuid(uuid)
    ensures '/' !in uuid && '.' !in uuid
  {
    forall i | 0 <= i < |uuid| ensures uuid[i] != '/' && uuid[i] != '.' {
      assert HexOrDash(uuid[i]);
    }
  }

  /** A character in neither part is not in their concatenation. */
  lemma NotInConcat(a: string, b: string, c: char)
    requires c !in a && c !in b
    ensures c !in a + b
  {
    forall i | 0 <= i < |a + b| ensures (a + b)[i] != c {
      if i >= |a| { assert (a + b)[i] == b[i - |a|]; }
    }
  }

  /** After a dot-free prefix, the last dot of an extension is its first character. */
  lemma LastDotOfExtension(prefix: string, ext: string)
    requires '.' !in prefix && ext != [] && ext[0] == '.' && '.' !in ext[1..]
    ensures LastIndexOf(prefix + ext, '.') == Some(|prefix|)
  {
    var s := prefix + ext;
    assert s[|prefix| + 1..] == ext[1..];
    LastIndexAt(s, '.', |prefix|);
  }

  /** The stored name keeps the extension of the client's file name. */
  lemma StoredNameKeepsExtension(uuid: string, originalname: string)
    requires IsUuid(uuid)
    ensures Extname(StoredName(uuid, originalname)) == Extname(originalname)
  {
    var ext := Extname(originalname);
    var s := uuid + ext;
    UuidIsPlain(uuid);
    NotInConcat(uuid, ext, '/');
    assert Basename(s) == s;
    if ext == [] {
      assert s == uuid;
    } else {
      LastDotOfExtension(uuid, ext);
      assert s[|uuid|..] == ext;
    }
  }

  const DocumentTypes: seq<string> := ["pdf", "doc", "docx", "xls", "xlsx", "ppt", "pptx", "txt"]
  const ImageTypes: seq<string> := ["jpeg", "jpg", "png", "gif", "webp"]

  /** An unanchored alternation of the tokens matches somewhere in `s`. */
  predicate MatchesAny(tokens: seq<string>, s: string)
  {
    exists i :: 0 <= i < |tokens| && Contains(s, tokens[i])
  }

  /** Both halves of the filter's test: the lower-cased extension and the
      mimetype as sent (not lower-cased) each contain an allowed token. */
  predicate TypeAllowed(tokens: seq<string>, f: Incoming)
  {
    MatchesAny(tokens, Lower(Extname(f.originalname))) && MatchesAny(tokens, f.mimetype)
  }

  datatype Verdict = Accept | Reject(message: string)

  const DocumentTypeError := "Invalid document type. Only PDF, DOC, XLS, PPT files allowed."
  const ImageTypeError := "Invalid image type. Only JPEG, PNG, GIF, WebP files allowed."
  const FieldNameError := "Invalid field name"

  /** The file filter. Its rejecting branches fall through to a second
      'Invalid field name' callback, which the parser ignores once the first has
      aborted the request; the verdict here is the first one given. */
  function FileFilter(f: Incoming): (v: Verdict)
    ensures v.Accept? <==>
              (f.fieldname == "documents" && TypeAllowed(DocumentTypes, f)) ||
              ((f.fieldname == "gallery" || f.fieldname == "complaints") && TypeAllowed(ImageTypes, f))
    ensures v.Reject? && f.fieldname == "documents" ==> v.message == DocumentTypeError
    ensures v.Reject? && (f.fieldname == "gallery" || f.fieldname == "complaints") ==> v.message == ImageTypeError
    ensures f.fieldname !in {"documents", "gallery", "complaints"} ==> v == Reject(FieldNameError)
  {
    if f.fieldname == "documents" then
      if TypeAllowed(DocumentTypes, f) then Accept else Reject(DocumentTypeError)
    else if f.fieldname == "gallery" || f.fieldname == "complaints" then
      if TypeAllowed(ImageTypes, f) then Accept else Reject(ImageTypeError)
    else Reject(FieldNameError)
  }

  /** No document token occurs in "text/plain". */
  lemma PlainTextNoDocumentToken()
    ensures !MatchesAny(DocumentTypes, "text/plain")
  {
    var m := "text/plain";
    forall i | 0 <= i < |DocumentTypes| ensures !Contains(m, DocumentTypes[i]) {
      if i <= 1 { CharMissing(m, DocumentTypes[i], if i == 0 then 1 else 0); }       // no 'd'
      else if i == 2 { CharMissing(m, DocumentTypes[i], 0); }
      else if i <= 4 { CharMissing(m, DocumentTypes[i], 2); }   // no 's'
      else { PairMissing(m, DocumentTypes[i], 0); }             // no "pp", no "tx"
    }
  }

  /** No image token occurs in "text/plain". */
  lemma PlainTextNoImageToken()
    ensures !MatchesAny(ImageTypes, "text/plain")
  {
    var m := "text/plain";
    forall i | 0 <= i < |ImageTypes| ensures !Contains(m, ImageTypes[i]) {
      // no 'j', 'g' or 'w'
      CharMissing(m, ImageTypes[i], if i == 2 then 2 else 0);
    }
  }

  /** A file sent with the mimetype "text/plain" is refused under every field,
      although "txt" is one of the allowed document tokens: the mimetype test looks
      for a token inside the mimetype, and "text/plain" contains none. */
  lemma PlainTextRefused(f: Incoming)
    requires f.mimetype == "text/plain"
    ensures FileFilter(f).Reject?
  {
    PlainTextNoDocumentToken();
    PlainTextNoImageToken();
    assert !TypeAllowed(DocumentTypes, f) && !TypeAllowed(ImageTypes, f);
  }

  const MaxFileSize: nat := 10 * 1024 * 1024
  const MaxFiles: nat := 5

  /** Store a file: destination by field, fresh name, path inside the destination. */
  function Store(f: Incoming, uuid: string): (s: StoredFile)
    ensures s.path == Destination(f.fieldname) + s.filename
    ensures s.filename == StoredName(uuid, f.originalname)
    ensures s.fieldname == f.fieldname && s.originalname == f.originalname
    ensures s.mimetype == f.mimetype && s.size == f.size
  {
    var dir := Destination(f.fieldname);
    var name := StoredName(uuid, f.originalname);
    StoredFile(f.fieldname, f.originalname, f.mimetype, f.size, dir, name, dir + name)
  }

  /** Why the parser aborts a request. */
  datatype UploadError =
    | TooManyFiles                    // more files than the per-request limit
    | UnexpectedFile(field: string)   // a field other than the route's, or past its count
    | Refused(message: string)        // the file filter's verdict
    | TooLarge                        // a file over the size limit

  datatype Admission = Admitted(files: seq<StoredFile>) | Aborted(error: UploadError)

  /** A file part of the request together with the file filter's verdict on it. */
  datatype Screened = Screened(file: Incoming, verdict: Verdict)

  /** The filter's verdict on every file part, in order. */
  function Screen(files: seq<Incoming>): (s: seq<Screened>)
    ensures |s| == |files|
    ensures forall i :: 0 <= i < |files| ==> s[i].file == files[i] && s[i].verdict == FileFilter(files[i])
  {
    seq(|files|, i requires 0 <= i < |files| => Screened(files[i], FileFilter(files[i])))
  }

  /** A part sent with a file name. The parser counts every file part against the
      per-request limit, but drains a part whose file name is empty without
      filtering or storing it: an empty file input of a form sends such a part. */
  predicate Named(s: Screened)
  {
    s.file.originalname != ""
  }

  /** The named parts, in order: the files the filter and storage see. */
  function Kept(s: seq<Screened>): (k: seq<Screened>)
    ensures |k| <= |s|
    ensures (forall i :: 0 <= i < |s| ==> Named(s[i])) ==> k == s
  {
    if |s| == 0 then []
    else if Named(s[0]) then [s[0]] + Kept(s[1..]) else Kept(s[1..])
  }

  /** The kept parts are exactly the named parts of the request. */
  lemma {:induction false} KeptMembers(s: seq<Screened>)
    ensures forall x :: x in Kept(s) <==> x in s && Named(x)
  {
    if |s| > 0 {
      KeptMembers(s[1..]);
      assert s == [s[0]] + s[1..];
    }
  }

  /** One named part is acceptable as file number `taken` (from 0) of route field
      `field`. */
  predicate Acceptable(field: string, maxCount: nat, s: Screened, taken: nat)
  {
    s.file.fieldname == field && taken < maxCount && s.verdict.Accept? && s.file.size <= MaxFileSize
  }

  /** Every kept part is acceptable at its position, counting from `taken`. */
  predicate AllAcceptable(field: string, maxCount: nat, kept: seq<Screened>, taken: nat)
  {
    forall i :: 0 <= i < |kept| ==> Acceptable(field, maxCount, kept[i], taken + i)
  }

  /** A named first part comes first among the kept parts, and the rest follow
      from the next position. */
  lemma KeptFirst(field: string, maxCount: nat, files: seq<Screened>, taken: nat)
    requires |files| > 0 && Named(files[0])
    ensures AllAcceptable(field, maxCount, Kept(files), taken) <==>
              Acceptable(field, maxCount, files[0], taken) && AllAcceptable(field, maxCount, Kept(files[1..]), taken + 1)
  {
    var rest := Kept(files[1..]);
    assert Kept(files) == [files[0]] + rest;
    assert forall i :: 0 < i < |Kept(files)| ==> Kept(files)[i] == rest[i - 1];
    if AllAcceptable(field, maxCount, Kept(files), taken) {
      forall i | 0 <= i < |rest| ensures Acceptable(field, maxCount, rest[i], taken + 1 + i) {
        assert Kept(files)[i + 1] == rest[i];
      }
    }
  }

  /** A request without named parts keeps nothing. */
  lemma {:induction false} KeptOfUnnamed(s: seq<Screened>)
    requires forall i :: 0 <= i < |s| ==> !Named(s[i])
    ensures Kept(s) == []
  {
    if |s| > 0 {
      assert !Named(s[0]);
      KeptOfUnnamed(s[1..]);
    }
  }

  /** Why named part number `taken` aborts the request: the checks in the parser's
      order. */
  function AbortCause(field: string, maxCount: nat, s: Screened, taken: nat): (e: UploadError)
    requires !Acceptable(field, maxCount, s, taken)
    ensures e.UnexpectedFile? <==> s.file.fieldname != field || taken >= maxCount
    ensures e.Refused? ==> s.verdict == Reject(e.message)
    ensures e == TooLarge ==> s.verdict.Accept? && s.file.size > MaxFileSize
    ensures e != TooManyFiles
  {
    if s.file.fieldname != field || taken >= maxCount then UnexpectedFile(s.file.fieldname)
    else if s.verdict.Reject? then Refused(s.verdict.message)
    else TooLarge
  }

  /** The parser takes the file parts of one request in order, having seen `parts`
      parts and kept `taken` files before them. Each part is first counted against
      the per-request limit; an unnamed part is then drained; a named one is
      checked against the route's field and count, then the filter, then the size
      limit. The first failure aborts the request. */
  function FirstAbort(field: string, maxCount: nat, files: seq<Screened>, parts: nat, taken: nat): (e: Option<UploadError>)
    requires parts <= MaxFiles
    ensures e.None? <==> parts + |files| <= MaxFiles && AllAcceptable(field, maxCount, Kept(files), taken)
    ensures e == Some(TooManyFiles) ==> parts + |files| > MaxFiles
    decreases |files|
  {
    if |files| == 0 then None
    else if parts >= MaxFiles then Some(TooManyFiles)
    else if !Named(files[0]) then FirstAbort(field, maxCount, files[1..], parts + 1, taken)
    else
      KeptFirst(field, maxCount, files, taken);
      if !Acceptable(field, maxCount, files[0], taken) then Some(AbortCause(field, maxCount, files[0], taken))
      else FirstAbort(field, maxCount, files[1..], parts + 1, taken + 1)
  }

  /** `array(field, maxCount)` on a fresh request: the request is admitted exactly
      when it has at most 5 file parts and every named part, in order, is
      acceptable at its position among the named parts; then each named part is
      stored, in order, under its own fresh UUID, and unnamed parts are dropped.
      What it admits is within both limits. */
  function Admit(field: string, maxCount: nat, files: seq<Incoming>, uuids: seq<string>): (a: Admission)
    requires |uuids| == |files|
    ensures a.Admitted? <==> |files| <= MaxFiles && AllAcceptable(field, maxCount, Kept(Screen(files)), 0)
    ensures a.Admitted? ==> |a.files| == |Kept(Screen(files))| && |a.files| <= MaxFiles && |a.files| <= maxCount
    ensures a.Admitted? ==> forall i :: 0 <= i < |a.files| ==> a.files[i] == Store(Kept(Screen(files))[i].file, uuids[i])
  {
    var kept := Kept(Screen(files));
    match FirstAbort(field, maxCount, Screen(files), 0, 0)
    case Some(e) => Aborted(e)
    case None =>
      assert |kept| > 0 ==> Acceptable(field, maxCount, kept[|kept| - 1], |kept| - 1);
      Admitted(seq(|kept|, i requires 0 <= i < |kept| => Store(kept[i].file, uuids[i])))
  }

  /** The file part a stored file was written from. */
  function Part(s: StoredFile): Incoming
  {
    Incoming(s.fieldname, s.originalname, s.mimetype, s.size)
  }

  /** Every admitted file was a named part of the request under the route's field,
      passed the filter, is within the size limit and was written into that field's
      directory. */
  lemma AdmittedFilesBelong(field: string, maxCount: nat, files: seq<Incoming>, uuids: seq<string>)
    requires |uuids| == |files|
    ensures var a := Admit(field, maxCount, files, uuids);
            a.Admitted? ==> forall i :: 0 <= i < |a.files| ==>
              Part(a.files[i]) in files && a.files[i].originalname != "" &&
              FileFilter(Part(a.files[i])).Accept? &&
              a.files[i].fieldname == field && a.files[i].size <= MaxFileSize &&
              a.files[i].path == Destination(field) + a.files[i].filename
  {
    var a := Admit(field, maxCount, files, uuids);
    var kept := Kept(Screen(files));
    KeptMembers(Screen(files));
    if a.Admitted? {
      forall i | 0 <= i < |a.files|
        ensures Part(a.files[i]) in files && a.files[i].originalname != "" &&
                FileFilter(Part(a.files[i])).Accept? &&
                a.files[i].fieldname == field && a.files[i].size <= MaxFileSize &&
                a.files[i].path == Destination(field) + a.files[i].filename
      {
        assert kept[i] in kept;
        var j :| 0 <= j < |files| && Screen(files)[j] == kept[i];
        assert Acceptable(field, maxCount, kept[i], 0 + i);
        assert a.files[i] == Store(files[j], uuids[i]);
      }
    }
  }

  /** A request whose file parts all come without a file name, at most 5 of them,
      is admitted with no files: the handler then proceeds without attachments. */
  lemma UnnamedPartsSkipped(field: string, maxCount: nat, files: seq<Incoming>, uuids: seq<string>)
    requires |uuids| == |files| <= MaxFiles
    requires forall i :: 0 <= i < |files| ==> files[i].originalname == ""
    ensures Admit(field, maxCount, files, uuids) == Admitted([])
  {
    KeptOfUnnamed(Screen(files));
  }

  /** The gallery route asks for up to 10 files, but the per-request limit of 5
      admits at most 5 parts. */
  lemma GalleryCappedByRequestLimit(files: seq<Incoming>, uuids: seq<string>)
    requires |uuids| == |files|
    ensures Admit("gallery", 10, files, uuids).Admitted? ==> |files| <= 5
  {
  }
}
