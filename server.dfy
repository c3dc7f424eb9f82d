/**
 * The backend's shared state and its handlers: the REST controller
 * (users, upload, document and annotation endpoints) and the socket.io
 * events (`join-document`, `leave-document`, `new-annotation`,
 * `delete-annotation`, `disconnect`). Each asynchronous handler runs as one
 * atomic sequence of its steps.
 */
module Server {
  import opened Common
  import opened AnnotationModel
  import opened DocumentModel
  import opened UserModel
  import opened AnnotationStore
  import opened Pagination

  /** Events sent on sockets. */
  datatype Event =
    | AnnotationAdded(annotation: Annotation)
    | AnnotationDeleted(annotationId: Id)
    | AnnotationError(error: DbError)

  /** One `emit`: the connections it reaches and what it carries. */
  datatype Emission = Emission(recipients: set<Conn>, event: Event)

  /** JSON bodies of the REST responses. */
  datatype Body =
    | UserJson(user: User)
    | DocumentJson(document: Document)
    | AnnotationJson(annotation: Annotation)
    | AnnotationPage(annotations: seq<Annotation>, total: int, page: int, totalPages: int)
    | DocumentPage(document: Document, annotations: seq<Annotation>, totalAnnotations: int, page: int, totalPages: int)
    | Message(text: string)
    | ErrorMessage(error: DbError)

  datatype Response = Response(status: int, body: Body)

  /** The JSON body of `POST /annotation`. */
  datatype CreateRequest = CreateRequest(
    documentId: Option<Id>, userId: Option<Id>, selectedText: Option<string>, comment: Option<string>,
    startIndex: Option<int>, endIndex: Option<int>)

  /** What the upload middleware hands over for the uploaded file. */
  datatype UploadedFile = UploadedFile(filename: string, originalName: string, mimetype: string)

  const DuplicateAnnotationMessage: string := "Duplicate annotation detected"
  const AnnotationNotFoundMessage: string := "Annotation not found"
  const AnnotationDeletedMessage: string := "Annotation deleted successfully"
  const DocumentNotFoundMessage: string := "Document not found"
  const NoFileMessage: string := "No file uploaded"

  /**
   * The object `createAnnotation` hands to `Annotation.create`: the request's
   * paths, the user's `username` and `color` as a snapshot, and the range
   * hash derived from the four identifying parts; `None` when the user
   * lookup yields null and reading `user.username` throws.
   */
  function RestFields(req: CreateRequest, users: map<Id, User>): (r: Option<AnnotationFields>)
    ensures r.Some? <==> req.userId.Some? && req.userId.value in users
    ensures r.Some? ==>
      && r.value.username == Some(users[req.userId.value].username)
      && r.value.userColor == Some(users[req.userId.value].color)
      && r.value.rangeHash == Some(RestRangeHash(req.documentId, req.userId, req.startIndex, req.endIndex))
      && r.value.comment == req.comment && r.value.selectedText == req.selectedText
      && r.value.documentId == req.documentId && r.value.userId == req.userId
      && r.value.startIndex == req.startIndex && r.value.endIndex == req.endIndex
  {
    var hash := RestRangeHash(req.documentId, req.userId, req.startIndex, req.endIndex);
    if req.userId.None? || req.userId.value !in users then None
    else
      var user := users[req.userId.value];
      Some(AnnotationFields(req.documentId, req.userId, Some(user.username), Some(user.color),
                            req.selectedText, req.comment, req.startIndex, req.endIndex, Some(hash)))
  }

  /** The object `uploadDocument` hands to `Document.create`. */
  function UploadFields(userId: Option<Id>, file: UploadedFile, content: string): (r: DocumentFields)
    ensures r.fileType.Some? && ParseFileType(r.fileType.value) == Some(FileTypeFor(file.mimetype))
    ensures r.filename == Some(file.filename) && r.originalName == Some(file.originalName)
    ensures r.content == Some(content) && r.uploadedBy == userId
  {
    UploadFileTypeAccepted(file.mimetype);
    DocumentFields(Some(file.filename), Some(file.originalName),
                   Some(FileTypeName(FileTypeFor(file.mimetype))), Some(content), userId)
  }

  predicate EmailTaken(users: map<Id, User>, email: string)
  {
    exists id | id in users :: users[id].email == email
  }

  predicate UsernameTaken(users: map<Id, User>, username: string)
  {
    exists id | id in users :: users[id].username == username
  }

  /** Every user is stored under its own `_id`, and the two unique indexes of `users` hold. */
  ghost predicate UsersValid(users: map<Id, User>)
  {
    (forall k | k in users :: users[k].id == k) && UsersUnique(users)
  }

  /** A user whose id, username and email are all free keeps the users collection valid. */
  lemma InsertUserKeepsValid(users: map<Id, User>, u: User)
    requires UsersValid(users) && u.id !in users
    requires !UsernameTaken(users, u.username) && !EmailTaken(users, u.email)
    ensures UsersValid(users[u.id := u])
  {
  }

  class Backend {
    /** The `annotations` collection, in insertion order. */
    var annotations: seq<Annotation>
    /** The `documents` collection by `_id`; `annotationCount` is the ledger. */
    var documents: map<Id, Document>
    /** The `users` collection by `_id`. */
    var users: map<Id, User>
    /** socket.io rooms: the connections joined under each document id. */
    var rooms: map<Id, set<Conn>>
    /** Every socket emission so far, oldest first. */
    var outbox: seq<Emission>

    /** The guarantees of the collections' indexes and of the id and clock sources. */
    ghost predicate Valid()
      reads this
    {
      && UniqueIds(annotations) && UniqueKeys(annotations) && Chronological(annotations)
      && (forall d | d in documents :: documents[d].id == d)
      && UsersValid(users)
    }

    /** Every document's `annotationCount` equals the number of its stored annotations. */
    ghost predicate LedgerConsistent()
      reads this
    {
      Consistent(annotations, documents)
    }

    /** An ObjectId the driver may hand out next: no record has it or refers to it. */
    ghost predicate IsFreshId(id: Id)
      reads this
    {
      && id !in documents && id !in users
      && (forall i | 0 <= i < |annotations| ::
            annotations[i].id != id && annotations[i].documentId != id && annotations[i].userId != id)
    }

    /** The clock reading `now` is not earlier than any stored creation time. */
    ghost predicate NotBefore(now: nat)
      reads this
    {
      forall i | 0 <= i < |annotations| :: annotations[i].createdAt <= now
    }

    /** The connections in the room of document `d`. */
    function Members(d: Id): set<Conn>
      reads this
    {
      if d in rooms then rooms[d] else {}
    }

    constructor ()
      ensures Valid() && LedgerConsistent()
      ensures annotations == [] && documents == map[] && users == map[] && rooms == map[] && outbox == []
    {
      annotations := [];
      documents := map[];
      users := map[];
      rooms := map[];
      outbox := [];
    }

    // ------------------------------------------------------- collection steps

    /** `findByIdAndDelete`, once the record was found at position `i`: it alone leaves the collection. */
    method RemoveRecord(i: nat)
      requires Valid() && i < |annotations|
      modifies this
      ensures Valid()
      ensures annotations == RemoveAt(old(annotations), i)
      ensures documents == old(documents) && users == old(users)
      ensures rooms == old(rooms) && outbox == old(outbox)
      ensures forall k | 0 <= k < |annotations| :: annotations[k].id != old(annotations)[i].id
    {
      RemoveKeepsIndexes(annotations, i);
      annotations := RemoveAt(annotations, i);
    }

    /** Saving a validated annotation whose index key is free: appended after every stored record. */
    method InsertRecord(a: Annotation)
      requires Valid() && !HasKey(annotations, Key(a))
      requires forall k | 0 <= k < |annotations| :: annotations[k].id != a.id && annotations[k].createdAt <= a.createdAt
      modifies this
      ensures Valid()
      ensures annotations == old(annotations) + [a]
      ensures documents == old(documents) && users == old(users)
      ensures rooms == old(rooms) && outbox == old(outbox)
    {
      annotations := annotations + [a];
    }

    /** `findByIdAndUpdate(d, {$inc: {annotationCount: delta}})`: a no-op for an unknown `d`. */
    method IncrementCount(d: Id, delta: int, now: nat)
      requires Valid()
      modifies this
      ensures Valid()
      ensures documents == Bump(old(documents), d, delta, now)
      ensures annotations == old(annotations) && users == old(users)
      ensures rooms == old(rooms) && outbox == old(outbox)
    {
      BumpKeepsIds(documents, d, delta, now);
      documents := Bump(documents, d, delta, now);
    }

    // ------------------------------------------------------------ REST: users

    /**
     * `createOrGetUser`: the user whose stored email equals the normalised
     * email is returned unchanged; otherwise one user is created, unless
     * validation or the unique `username` index refuses it.
     */
    method CreateOrGetUser(username: string, email: string, newId: Id, now: nat) returns (res: Response)
      requires Valid() && IsFreshId(newId)
      modifies this
      ensures Valid()
      ensures annotations == old(annotations) && documents == old(documents)
      ensures rooms == old(rooms) && outbox == old(outbox)
      ensures res.status == 200 ==>
        && res.body.UserJson? && res.body.user.email == NormalizeEmail(email)
        && res.body.user.id in users && users[res.body.user.id] == res.body.user
      ensures EmailTaken(old(users), NormalizeEmail(email)) ==>
        && users == old(users) && res.status == 200 && res.body.UserJson?
        && res.body.user.id in old(users) && old(users)[res.body.user.id] == res.body.user
        && res.body.user.email == NormalizeEmail(email)
      ensures !EmailTaken(old(users), NormalizeEmail(email)) ==>
        match BuildUser(username, email, newId, now)
        case Err(e) => users == old(users) && res == Response(500, ErrorMessage(e))
        case Ok(u) =>
          if UsernameTaken(old(users), u.username) then
            users == old(users) && res == Response(500, ErrorMessage(DuplicateKey))
          else
            users == old(users)[newId := u] && res == Response(200, UserJson(u))
    {
      var mail := NormalizeEmail(email);
      if id :| id in users && users[id].email == mail {
        res := Response(200, UserJson(users[id]));
        return;
      }
      var built := BuildUser(username, email, newId, now);
      if built.Err? {
        res := Response(500, ErrorMessage(built.error));
        return;
      }
      res := InsertUser(built.value);
    }

    /**
     * Saving a validated user under the unique `username` and `email`
     * indexes, once no user has the email: refused with the duplicate-key
     * error when the username is taken.
     */
    method InsertUser(u: User) returns (res: Response)
      requires Valid() && IsFreshId(u.id) && !EmailTaken(users, u.email)
      modifies this
      ensures Valid()
      ensures annotations == old(annotations) && documents == old(documents)
      ensures rooms == old(rooms) && outbox == old(outbox)
      ensures UsernameTaken(old(users), u.username) ==>
        users == old(users) && res == Response(500, ErrorMessage(DuplicateKey))
      ensures !UsernameTaken(old(users), u.username) ==>
        users == old(users)[u.id := u] && res == Response(200, UserJson(u))
    {
      if UsernameTaken(users, u.username) {
        res := Response(500, ErrorMessage(DuplicateKey));
        return;
      }
      InsertUserKeepsValid(users, u);
      users := users[u.id := u];
      res := Response(200, UserJson(u));
    }

    // ----------------------------------------------------------- REST: upload

    /**
     * `uploadDocument`, without the file reading and PDF text extraction:
     * `content` is the text they produced, `None` when they failed. The file
     * type is `pdf` exactly for the PDF MIME type and the new document counts
     * no annotations.
     */
    method UploadDocument(userId: Option<Id>, file: Option<UploadedFile>, content: Option<string>, newId: Id, now: nat)
      returns (res: Response)
      requires Valid() && IsFreshId(newId)
      modifies this
      ensures Valid()
      ensures old(LedgerConsistent()) ==> LedgerConsistent()
      ensures annotations == old(annotations) && users == old(users)
      ensures rooms == old(rooms) && outbox == old(outbox)
      ensures file.None? ==> documents == old(documents) && res == Response(400, Message(NoFileMessage))
      ensures file.Some? && content.None? ==>
        documents == old(documents) && res == Response(500, ErrorMessage(ContentUnreadable))
      ensures file.Some? && content.Some? ==>
        match BuildDocument(UploadFields(userId, file.value, content.value), newId, now)
        case Err(e) => documents == old(documents) && res == Response(500, ErrorMessage(e))
        case Ok(doc) =>
          && documents == old(documents)[newId := doc] && res == Response(201, DocumentJson(doc))
          && doc.annotationCount == 0 && doc.fileType == FileTypeFor(file.value.mimetype)
    {
      if file.None? {
        res := Response(400, Message(NoFileMessage));
        return;
      }
      if content.None? {
        res := Response(500, ErrorMessage(ContentUnreadable));
        return;
      }
      UploadFileTypeAccepted(file.value.mimetype);
      var built := BuildDocument(UploadFields(userId, file.value, content.value), newId, now);
      if built.Err? {
        res := Response(500, ErrorMessage(built.error));
        return;
      }
      var doc := built.value;
      if Consistent(annotations, documents) {
        NewDocumentKeepsConsistent(annotations, documents, doc);
      }
      documents := documents[newId := doc];
      res := Response(201, DocumentJson(doc));
    }

    // ------------------------------------------------------------ REST: reads

    /**
     * `getDocument`: 404 for an unknown id; otherwise one page of the
     * document's annotations, newest first, with `totalPages` computed from
     * the cached `annotationCount`, which agrees with the store count while
     * the ledger is consistent.
     */
    method GetDocument(id: Id, pageQuery: Option<string>) returns (res: Response)
      requires Valid()
      ensures id !in documents ==> res == Response(404, Message(DocumentNotFoundMessage))
      ensures id in documents && ParsePage(pageQuery) < 1 ==> res == Response(500, ErrorMessage(NegativeSkip))
      ensures id in documents && ParsePage(pageQuery) >= 1 ==> res.status == 200
      ensures res.status == 200 ==>
        && id in documents && res.body.DocumentPage? && res.body.document == documents[id]
        && res.body.page == ParsePage(pageQuery) >= 1
        && res.body.totalAnnotations == documents[id].annotationCount
        && res.body.totalPages == TotalPages(documents[id].annotationCount)
        && res.body.annotations == PageOf(NewestFirst(annotations, id), Skip(res.body.page))
      ensures res.status == 200 ==>
        && |res.body.annotations| <= PageSize
        && (forall a | a in res.body.annotations :: a in annotations && a.documentId == id)
      ensures res.status == 200 && LedgerConsistent() ==> res.body.totalPages == TotalPages(CountFor(annotations, id))
      ensures res.status in {200, 404, 500}
    {
      if id !in documents {
        res := Response(404, Message(DocumentNotFoundMessage));
        return;
      }
      var document := documents[id];
      var page := ParsePage(pageQuery);
      var skip := Skip(page);
      if skip < 0 {
        res := Response(500, ErrorMessage(NegativeSkip));
        return;
      }
      var items := PageOf(NewestFirst(annotations, id), skip);
      NewestFirstListing(annotations, id);
      res := Response(200, DocumentPage(document, items, document.annotationCount, page,
                                        TotalPages(document.annotationCount)));
    }

    /**
     * `getAnnotations`: one page of the document's annotations, newest first,
     * with `total` and `totalPages` from the authoritative store count; the
     * document itself need not exist.
     */
    method GetAnnotations(documentId: Id, pageQuery: Option<string>) returns (res: Response)
      requires Valid()
      ensures ParsePage(pageQuery) < 1 ==> res == Response(500, ErrorMessage(NegativeSkip))
      ensures ParsePage(pageQuery) >= 1 ==>
        && res.status == 200 && res.body.AnnotationPage? && res.body.page == ParsePage(pageQuery)
        && res.body.total == CountFor(annotations, documentId)
        && res.body.totalPages == TotalPages(res.body.total)
        && res.body.annotations == PageOf(NewestFirst(annotations, documentId), Skip(res.body.page))
      ensures res.status == 200 ==>
        && |res.body.annotations| <= PageSize
        && (forall a | a in res.body.annotations :: a in annotations && a.documentId == documentId)
        && (res.body.page > res.body.totalPages ==> res.body.annotations == [])
    {
      var page := ParsePage(pageQuery);
      var skip := Skip(page);
      if skip < 0 {
        res := Response(500, ErrorMessage(NegativeSkip));
        return;
      }
      NewestFirstListing(annotations, documentId);
      var items := PageOf(NewestFirst(annotations, documentId), skip);
      var total := CountFor(annotations, documentId);
      if page > TotalPages(total) {
        PastLastPageIsEmpty(NewestFirst(annotations, documentId), page);
      }
      res := Response(200, AnnotationPage(items, total, page, TotalPages(total)));
    }

    // ---------------------------------------------------- REST: annotations

    /**
     * `createAnnotation`: a missing user fails before any write; a schema
     * violation fails with 500; a taken `(documentId, userId, rangeHash)` key
     * gives the distinct 400; otherwise exactly one record is appended and
     * its own document's counter goes up by one. No socket event is sent.
     */
    method CreateAnnotation(req: CreateRequest, newId: Id, now: nat) returns (res: Response)
      requires Valid() && IsFreshId(newId) && NotBefore(now)
      modifies this
      ensures Valid()
      ensures old(LedgerConsistent()) ==> LedgerConsistent()
      ensures users == old(users) && rooms == old(rooms) && outbox == old(outbox)
      ensures res.status != 201 ==> annotations == old(annotations) && documents == old(documents)
      ensures res.status == 201 ==>
        && res.body.AnnotationJson? && res.body.annotation.id == newId
        && req.documentId == Some(res.body.annotation.documentId)
        && annotations == old(annotations) + [res.body.annotation]
      ensures RestFields(req, old(users)).None? ==> res == Response(500, ErrorMessage(NullUser))
      ensures RestFields(req, old(users)).Some? ==>
        match BuildAnnotation(RestFields(req, old(users)).value, newId, now)
        case Err(e) => res == Response(500, ErrorMessage(e))
        case Ok(a) =>
          if HasKey(old(annotations), Key(a)) then
            res == Response(400, Message(DuplicateAnnotationMessage))
          else
            && res == Response(201, AnnotationJson(a))
            && annotations == old(annotations) + [a]
            && documents == Bump(old(documents), a.documentId, 1, now)
    {
      var fields := RestFields(req, users);
      if fields.None? {
        res := Response(500, ErrorMessage(NullUser));
        return;
      }
      var built := BuildAnnotation(fields.value, newId, now);
      if built.Err? {
        res := Response(500, ErrorMessage(built.error));
        return;
      }
      var a := built.value;
      var inserted := Insert(annotations, a);
      if inserted.Err? {
        res := Response(400, Message(DuplicateAnnotationMessage));
        return;
      }
      if Consistent(annotations, documents) {
        InsertKeepsConsistent(annotations, documents, a, now);
      }
      InsertRecord(a);
      IncrementCount(a.documentId, 1, now);
      res := Response(201, AnnotationJson(a));
    }

    /**
     * `deleteAnnotation`: an unknown id gives 404 and changes nothing;
     * otherwise exactly that record is removed and the counter of the
     * record's own document goes down by one.
     */
    method DeleteAnnotation(id: Id, now: nat) returns (res: Response)
      requires Valid()
      modifies this
      ensures Valid()
      ensures old(LedgerConsistent()) ==> LedgerConsistent()
      ensures users == old(users) && rooms == old(rooms) && outbox == old(outbox)
      ensures IndexOfId(old(annotations), id).None? ==>
        && annotations == old(annotations) && documents == old(documents)
        && res == Response(404, Message(AnnotationNotFoundMessage))
      ensures IndexOfId(old(annotations), id).Some? ==>
        var i := IndexOfId(old(annotations), id).value;
        && annotations == RemoveAt(old(annotations), i)
        && documents == Bump(old(documents), old(annotations)[i].documentId, -1, now)
        && res == Response(200, Message(AnnotationDeletedMessage))
      ensures forall k | 0 <= k < |annotations| :: annotations[k].id != id
    {
      var found := IndexOfId(annotations, id);
      if found.None? {
        res := Response(404, Message(AnnotationNotFoundMessage));
        return;
      }
      var i := found.value;
      var removed := annotations[i];
      if Consistent(annotations, documents) {
        RemoveKeepsConsistent(annotations, documents, i, now);
      }
      RemoveRecord(i);
      IncrementCount(removed.documentId, -1, now);
      res := Response(200, Message(AnnotationDeletedMessage));
    }

    // ------------------------------------------------------- socket events

    /** `join-document`: the connection enters the document's room; nothing else changes. */
    method JoinDocument(conn: Conn, documentId: Id)
      requires Valid()
      modifies this
      ensures Valid()
      ensures Members(documentId) == old(Members(documentId)) + {conn}
      ensures forall d | d != documentId :: Members(d) == old(Members(d))
      ensures annotations == old(annotations) && documents == old(documents)
      ensures users == old(users) && outbox == old(outbox)
    {
      rooms := rooms[documentId := Members(documentId) + {conn}];
    }

    /** `leave-document`: the connection leaves the document's room; nothing else changes. */
    method LeaveDocument(conn: Conn, documentId: Id)
      requires Valid()
      modifies this
      ensures Valid()
      ensures Members(documentId) == old(Members(documentId)) - {conn}
      ensures forall d | d != documentId :: Members(d) == old(Members(d))
      ensures annotations == old(annotations) && documents == old(documents)
      ensures users == old(users) && outbox == old(outbox)
    {
      rooms := rooms[documentId := Members(documentId) - {conn}];
    }

    /**
     * `new-annotation`: the payload is inserted as sent (its `rangeHash`
     * included); on success the counter of the payload's document goes up
     * and `annotation-added` reaches that document's room, after both
     * writes; on failure nothing is written and one `annotation-error`
     * reaches the sender only.
     */
    method NewAnnotation(conn: Conn, payload: AnnotationFields, newId: Id, now: nat)
      requires Valid() && IsFreshId(newId) && NotBefore(now)
      modifies this
      ensures Valid()
      ensures old(LedgerConsistent()) ==> LedgerConsistent()
      ensures users == old(users) && rooms == old(rooms)
      ensures match BuildAnnotation(payload, newId, now)
        case Err(e) =>
          && annotations == old(annotations) && documents == old(documents)
          && outbox == old(outbox) + [Emission({conn}, AnnotationError(e))]
        case Ok(a) =>
          if HasKey(old(annotations), Key(a)) then
            && annotations == old(annotations) && documents == old(documents)
            && outbox == old(outbox) + [Emission({conn}, AnnotationError(DuplicateKey))]
          else
            && annotations == old(annotations) + [a]
            && documents == Bump(old(documents), payload.documentId.value, 1, now)
            && outbox == old(outbox) + [Emission(old(Members(payload.documentId.value)), AnnotationAdded(a))]
    {
      var built := BuildAnnotation(payload, newId, now);
      if built.Err? {
        outbox := outbox + [Emission({conn}, AnnotationError(built.error))];
        return;
      }
      var a := built.value;
      var inserted := Insert(annotations, a);
      if inserted.Err? {
        outbox := outbox + [Emission({conn}, AnnotationError(inserted.error))];
        return;
      }
      if Consistent(annotations, documents) {
        InsertKeepsConsistent(annotations, documents, a, now);
      }
      var room := Members(payload.documentId.value);
      InsertRecord(a);
      IncrementCount(payload.documentId.value, 1, now);
      outbox := outbox + [Emission(room, AnnotationAdded(a))];
    }

    /**
     * `delete-annotation`: an unknown id changes nothing and emits nothing;
     * otherwise the record is removed, the counter of the PAYLOAD's document
     * goes down by one, and `annotation-deleted` reaches that document's
     * room. The ledger stays consistent when the payload names the record's
     * own document.
     */
    method SocketDeleteAnnotation(conn: Conn, annotationId: Id, documentId: Id, now: nat)
      requires Valid()
      modifies this
      ensures Valid()
      ensures users == old(users) && rooms == old(rooms)
      ensures IndexOfId(old(annotations), annotationId).None? ==>
        annotations == old(annotations) && documents == old(documents) && outbox == old(outbox)
      ensures IndexOfId(old(annotations), annotationId).Some? ==>
        var i := IndexOfId(old(annotations), annotationId).value;
        && annotations == RemoveAt(old(annotations), i)
        && documents == Bump(old(documents), documentId, -1, now)
        && outbox == old(outbox) + [Emission(old(Members(documentId)), AnnotationDeleted(annotationId))]
      ensures old(LedgerConsistent()) ==>
        (LedgerConsistent() <==>
          || IndexOfId(old(annotations), annotationId).None?
          || old(annotations)[IndexOfId(old(annotations), annotationId).value].documentId == documentId
          || (documentId !in old(documents)
              && old(annotations)[IndexOfId(old(annotations), annotationId).value].documentId !in old(documents)))
    {
      var found := IndexOfId(annotations, annotationId);
      if found.None? {
        return;
      }
      var i := found.value;
      if Consistent(annotations, documents) {
        DecrementKeepsConsistentIff(annotations, documents, i, documentId, now);
      }
      var room := Members(documentId);
      RemoveRecord(i);
      IncrementCount(documentId, -1, now);
      outbox := outbox + [Emission(room, AnnotationDeleted(annotationId))];
    }

    /** `disconnect`: the handler only logs; no store, counter, room or emission changes. */
    method Disconnect(conn: Conn)
      ensures annotations == old(annotations) && documents == old(documents) && users == old(users)
      ensures rooms == old(rooms) && outbox == old(outbox)
    {
    }
  }
}
