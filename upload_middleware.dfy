/** The résumé upload rules of Middlewares/uploadMiddleware.js: the name a
    file is stored under, the type filter and the size limit. The upload
    directory and the disk writes are not modelled. */
module UploadMiddleware {
  import opened Base

  /** The `filename` callback: `originalname.replace(/\s/g, "-")`. */
  function StoredName(name: string): (r: string)
    ensures |r| == |name| && NoSpace(r)
    ensures forall i :: 0 <= i < |name| && !IsSpace(name[i]) ==> r[i] == name[i]
    ensures forall i :: 0 <= i < |name| && IsSpace(name[i]) ==> r[i] == '-'
  {
    if name == [] then []
    else [if IsSpace(name[0]) then '-' else name[0]] + StoredName(name[1..])
  }

  /** A stored name is stored unchanged a second time. */
  lemma StoredNameIdempotent(name: string)
    ensures StoredName(StoredName(name)) == StoredName(name)
  {
    var r := StoredName(name);
    assert forall i :: 0 <= i < |r| ==> StoredName(r)[i] == r[i];
  }

  const AllowedExtensions: set<string> := {"pdf", "doc", "docx"}
  const AllowedMimeTypes: set<string> :=
    {"application/pdf", "application/msword",
     "application/vnd.openxmlformats-officedocument.wordprocessingml.document"}

  /** `originalname.split(".").pop().toLowerCase()`. */
  function Extension(name: string): string {
    ToLower(LastPiece(name, '.'))
  }

  /** The extension of `stem.ext` is `ext` in lower case, whatever `stem`
      holds, dots included. */
  lemma ExtensionAfterLastDot(stem: string, ext: string)
    requires forall i :: 0 <= i < |ext| ==> ext[i] != '.'
    ensures Extension(stem + "." + ext) == ToLower(ext)
  {
    LastPieceAfter(stem, ext, '.');
  }

  /** A name without a dot is its own extension. */
  lemma ExtensionWithoutDot(name: string)
    requires forall i :: 0 <= i < |name| ==> name[i] != '.'
    ensures Extension(name) == ToLower(name)
  {
  }

  datatype Verdict = Accepted | Rejected(message: string)

  const WrongType := "Only PDF, DOC, DOCX allowed"

  /** `fileFilter`: `cb(null, true)` or `cb(new Error(...), false)`. */
  function FileFilter(name: string, mimetype: string): (r: Verdict)
    ensures r.Accepted? <==> Extension(name) in AllowedExtensions && mimetype in AllowedMimeTypes
    ensures r.Rejected? ==> r.message == WrongType
  {
    if Extension(name) !in AllowedExtensions || mimetype !in AllowedMimeTypes then Rejected(WrongType)
    else Accepted
  }

  /** A file is judged by the text after its last dot alone, in lower
      case: `cv.tar.pdf` passes, `cv.pdf.exe` does not. */
  lemma FilterByLastExtension(stem: string, ext: string, mimetype: string)
    requires forall i :: 0 <= i < |ext| ==> ext[i] != '.'
    ensures FileFilter(stem + "." + ext, mimetype).Accepted? <==>
              ToLower(ext) in AllowedExtensions && mimetype in AllowedMimeTypes
  {
    ExtensionAfterLastDot(stem, ext);
  }

  /** The extension check ignores case. */
  lemma UpperCaseExtensionAccepted(stem: string)
    ensures FileFilter(stem + ".PDF", "application/pdf") == Accepted
  {
    assert stem + ".PDF" == stem + "." + "PDF";
    ExtensionAfterLastDot(stem, "PDF");
    var low := ToLower("PDF");
    assert low[0] == 'p' && low[1] == 'd' && low[2] == 'f';
    assert low == "pdf";
  }

  /** `limits: {fileSize: 5 * 1024 * 1024}`, in bytes. */
  const MaxFileSize: nat := 5 * 1024 * 1024

  /** A file is refused once it has more than `MaxFileSize` bytes. */
  predicate WithinSizeLimit(size: nat) {
    size <= MaxFileSize
  }
}
