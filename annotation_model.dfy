/**
 * The annotation record: its paths, the required ones, the `userColor`
 * default and the unique compound index over `documentId`, `userId` and
 * `rangeHash`.
 */
module AnnotationModel {
  import opened Common

  /** Default of the `userColor` path. */
  const DefaultUserColor: string := "#FF5733"

  /** The paths a stored annotation must carry. */
  const RequiredPaths: set<string> :=
    {"documentId", "userId", "username", "selectedText", "comment", "startIndex", "endIndex", "rangeHash"}

  /**
   * The `rangeHash` path. The REST controller stores the MD5 digest of the
   * text `documentId-userId-startIndex-endIndex`; the digest is not
   * modelled, `Digest` keeps the four parts it is computed from (an absent
   * part is written `undefined` in that text, hence the options), so two
   * digests are equal exactly when their parts are. A socket client may
   * send any string (`Opaque`) or any digest value.
   */
  datatype RangeHash =
    | Digest(documentId: Option<Id>, userId: Option<Id>, startIndex: Option<int>, endIndex: Option<int>)
    | Opaque(text: string)

  /** The object handed to `Annotation.create`; `None` is an absent path. */
  datatype AnnotationFields = AnnotationFields(
    documentId: Option<Id>, userId: Option<Id>, username: Option<string>, userColor: Option<string>,
    selectedText: Option<string>, comment: Option<string>,
    startIndex: Option<int>, endIndex: Option<int>, rangeHash: Option<RangeHash>)

  /** A stored annotation, with the `_id` and the timestamps Mongoose adds. */
  datatype Annotation = Annotation(
    id: Id, documentId: Id, userId: Id, username: string, userColor: string,
    selectedText: string, comment: string, startIndex: int, endIndex: int,
    rangeHash: RangeHash, createdAt: nat, updatedAt: nat)

  /** An entry of the unique index `{documentId: 1, userId: 1, rangeHash: 1}`. */
  datatype IndexKey = IndexKey(documentId: Id, userId: Id, rangeHash: RangeHash)

  function Key(a: Annotation): IndexKey
  {
    IndexKey(a.documentId, a.userId, a.rangeHash)
  }

  /** `required` on the String path `rangeHash`: a digest is 32 hex digits, a client string must not be empty. */
  predicate PresentHash(v: Option<RangeHash>)
  {
    v.Some? && (v.value.Opaque? ==> v.value.text != "")
  }

  /** The required paths that `f` leaves absent or empty. */
  function MissingPaths(f: AnnotationFields): set<string>
  {
    (if f.documentId.None? then {"documentId"} else {})
    + (if f.userId.None? then {"userId"} else {})
    + (if !Present(f.username) then {"username"} else {})
    + (if !Present(f.selectedText) then {"selectedText"} else {})
    + (if !Present(f.comment) then {"comment"} else {})
    + (if f.startIndex.None? then {"startIndex"} else {})
    + (if f.endIndex.None? then {"endIndex"} else {})
    + (if !PresentHash(f.rangeHash) then {"rangeHash"} else {})
  }

  /** The paths a stored annotation holds, read back as the object that would create it. */
  function AsFields(a: Annotation): AnnotationFields
  {
    AnnotationFields(Some(a.documentId), Some(a.userId), Some(a.username), Some(a.userColor),
                     Some(a.selectedText), Some(a.comment), Some(a.startIndex), Some(a.endIndex),
                     Some(a.rangeHash))
  }

  /**
   * Mongoose's document construction and validation for `Annotation.create(f)`:
   * it fails exactly when a required path is absent or empty, naming those
   * paths; otherwise the record holds the given paths, `userColor` falls
   * back to its default, and both timestamps are `now`.
   */
  function BuildAnnotation(f: AnnotationFields, id: Id, now: nat): (r: Result<Annotation>)
    ensures r.Ok? <==>
      && f.documentId.Some? && f.userId.Some? && Present(f.username)
      && Present(f.selectedText) && Present(f.comment)
      && f.startIndex.Some? && f.endIndex.Some? && PresentHash(f.rangeHash)
    ensures r.Err? ==> r.error.ValidationFailed? && r.error.paths != {} && r.error.paths <= RequiredPaths
    ensures r.Ok? ==>
      && AsFields(r.value) == f.(userColor := Some(r.value.userColor))
      && r.value.userColor == (if f.userColor.Some? then f.userColor.value else DefaultUserColor)
      && r.value.id == id && r.value.createdAt == now && r.value.updatedAt == now
  {
    var missing := MissingPaths(f);
    if missing != {} then Err(ValidationFailed(missing))
    else
      Ok(Annotation(id, f.documentId.value, f.userId.value, f.username.value,
                    if f.userColor.Some? then f.userColor.value else DefaultUserColor,
                    f.selectedText.value, f.comment.value, f.startIndex.value, f.endIndex.value,
                    f.rangeHash.value, now, now))
  }

  /** A well-formed stored annotation is rebuilt unchanged from its own paths. */
  lemma BuildFromStored(a: Annotation)
    requires a.username != "" && a.selectedText != "" && a.comment != ""
    requires a.rangeHash.Opaque? ==> a.rangeHash.text != ""
    requires a.createdAt == a.updatedAt
    ensures BuildAnnotation(AsFields(a), a.id, a.createdAt) == Ok(a)
  {
  }
}
