/**
 * The document record: required paths, the `fileType` enum and the
 * `annotationCount` default, plus the choice of `fileType` made on upload.
 */
module DocumentModel {
  import opened Common

  /** The values of the `fileType` enum. */
  datatype FileType = Text | Pdf

  function FileTypeName(t: FileType): string
  {
    match t
    case Text => "text"
    case Pdf => "pdf"
  }

  /** The enum validator of `fileType`: only `'text'` and `'pdf'` are accepted. */
  function ParseFileType(s: string): (r: Option<FileType>)
    ensures r.Some? <==> s in {"text", "pdf"}
    ensures r.Some? ==> FileTypeName(r.value) == s
  {
    if s == "text" then Some(Text) else if s == "pdf" then Some(Pdf) else None
  }

  /** The object handed to `Document.create`; `None` is an absent path. */
  datatype DocumentFields = DocumentFields(
    filename: Option<string>, originalName: Option<string>, fileType: Option<string>,
    content: Option<string>, uploadedBy: Option<Id>)

  /** A stored document, with its `_id` and timestamps. */
  datatype Document = Document(
    id: Id, filename: string, originalName: string, fileType: FileType, content: string,
    uploadedBy: Id, annotationCount: int, createdAt: nat, updatedAt: nat)

  /** The paths that `f` leaves absent, empty or (for `fileType`) outside the enum. */
  function DocumentErrors(f: DocumentFields): set<string>
  {
    (if !Present(f.filename) then {"filename"} else {})
    + (if !Present(f.originalName) then {"originalName"} else {})
    + (if f.fileType.None? || ParseFileType(f.fileType.value).None? then {"fileType"} else {})
    + (if !Present(f.content) then {"content"} else {})
    + (if f.uploadedBy.None? then {"uploadedBy"} else {})
  }

  /**
   * Mongoose's construction and validation for `Document.create(f)`: it
   * succeeds exactly when the five required paths are present and the file
   * type is in the enum; a new document counts no annotations.
   */
  function BuildDocument(f: DocumentFields, id: Id, now: nat): (r: Result<Document>)
    ensures r.Ok? <==>
      && Present(f.filename) && Present(f.originalName) && Present(f.content)
      && f.uploadedBy.Some? && f.fileType.Some? && f.fileType.value in {"text", "pdf"}
    ensures r.Err? ==> r.error.ValidationFailed? && r.error.paths != {}
    ensures r.Ok? ==>
      && r.value.annotationCount == 0
      && FileTypeName(r.value.fileType) == f.fileType.value
      && r.value.filename == f.filename.value && r.value.originalName == f.originalName.value
      && r.value.content == f.content.value && r.value.uploadedBy == f.uploadedBy.value
      && r.value.id == id && r.value.createdAt == now && r.value.updatedAt == now
  {
    var errors := DocumentErrors(f);
    if errors != {} then Err(ValidationFailed(errors))
    else
      Ok(Document(id, f.filename.value, f.originalName.value, ParseFileType(f.fileType.value).value,
                  f.content.value, f.uploadedBy.value, 0, now, now))
  }

  /** The upload handler's choice: a PDF exactly when the MIME type says so, text otherwise. */
  function FileTypeFor(mimetype: string): (t: FileType)
    ensures t == Pdf <==> mimetype == "application/pdf"
  {
    if mimetype == "application/pdf" then Pdf else Text
  }

  /** Whatever the MIME type, the name the upload handler stores passes the enum validator. */
  lemma UploadFileTypeAccepted(mimetype: string)
    ensures ParseFileType(FileTypeName(FileTypeFor(mimetype))) == Some(FileTypeFor(mimetype))
  {
  }
}
