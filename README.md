# Collaborative annotation backend: a Dafny model

This project models the core of a small Express/Mongoose/socket.io backend
in which several users annotate a shared text or PDF-derived document and
see each other's annotations live. The core is:

- the **annotation store**: records keyed by `_id`, with the unique compound
  index `(documentId, userId, rangeHash)` as the only duplicate rule;
- the **per-document counter** `annotationCount`, moved by `$inc` after
  each insert or delete;
- the **range key** `rangeHash`, which the REST controller derives from
  `documentId`, `userId`, `startIndex` and `endIndex` only;
- the **two write paths**: the REST controller (`createAnnotation`,
  `deleteAnnotation`) and the socket events (`new-annotation`,
  `delete-annotation`), plus room membership (`join-document`,
  `leave-document`) and the broadcasts after each write;
- the **paginated reads** (`getAnnotations`, `getDocument`): 100 per page,
  newest first, `totalPages = Math.ceil(total / 100)`;
- **get-or-create user** by normalised email, and the schemas' required
  paths, defaults, enum and normalisation setters.

Layout, one module per file:

| file | module | what it holds |
|---|---|---|
| common.dfy | `Common` | ids, `Option`, the errors a handler can catch, Mongoose's `required` on strings |
| js_text.dfy | `JsText` | `trim`, ASCII `toLowerCase`, `parseInt` as ECMAScript defines them |
| annotation_model.dfy | `AnnotationModel` | the annotation schema: fields, required paths, `userColor` default, index key |
| document_model.dfy | `DocumentModel` | the document schema and the upload handler's `fileType` choice |
| user_model.dfy | `UserModel` | the user schema: trim/lowercase setters, required paths, colour default, unique indexes |
| annotation_store.dfy | `AnnotationStore` | the collection operations (unique insert, delete by id, filter, count, `$inc`) and the counter invariant |
| pagination.dfy | `Pagination` | page parsing, skip, total pages, page slices and their coverage |
| server.dfy | `Server` | class `Backend`: the shared state and every handler as a method |
| scenarios.dfy | `Scenarios` | client code chaining handlers: duplicate on repeat, delete twice, idempotent user, counter drift |

State. `Server.Backend` holds `annotations` (the collection, in insertion
order), `documents` and `users` (maps by `_id`), `rooms` (the connections
joined under each document id) and `outbox` (every socket emission, with
its recipients). Each async handler is one method that runs its steps in
source order as one atomic sequence. `Valid()` states what the indexes and
the id and clock sources guarantee. `LedgerConsistent()` states the counter
invariant: every document's `annotationCount` equals the number of its
stored annotations. It is kept apart from `Valid()` because one handler
can break it. The REST create and delete keep it. So do the socket create
and the upload. The socket delete keeps it exactly when its id is unknown, when its payload
names the record's own document, or when neither document exists
(`DecrementKeepsConsistentIff` proves both directions).

Abstractions. MD5 is not computed: a `Digest` value keeps the four parts
it is taken over, so two digests are equal exactly when their parts are.
ObjectIds are `nat`s passed in by the caller, with a freshness
precondition standing for the driver's unique ids. The clock is a `now`
parameter that never reads earlier than a stored creation time. A document
id that names no document makes `$inc` a no-op (`Bump`).

Where the code and the intended design of the system differ, the model
follows the code:

- The socket create stores the payload as sent. It derives no `rangeHash`,
  so the client's hash decides duplicates on that path
  (`ClientHashAdmitsSameSpanTwice`).
- The socket delete decrements the document named in the payload, not the
  stored record's. This can leave the counter wrong for good
  (`MisdirectedDecrement`, `Scenarios.MisdirectedSocketDeleteDrifts`).
- The REST create and delete broadcast nothing. Only the socket handlers
  emit events.
- The REST create performs no `startIndex < endIndex` check and no
  non-empty check beyond Mongoose's `required`.
- No path repairs the counter: there is no recount operation in the code.
- `getDocument` computes `totalPages` from the cached counter.
  `getAnnotations` computes it from the store count. The two agree while
  the ledger is consistent (`Backend.GetDocument`).
- Mongoose runs the `trim` and `lowercase` setters on query values too.
  So the `createOrGetUser` lookup compares normalised emails.
- A negative `page` (`parseInt("-2")` is `-2`, and `|| 1` keeps it) gives a
  negative skip. MongoDB refuses that, and the handler answers 500.

## Model

| member | source | states |
|---|---|---|
| `JsText.Trim` | server/models/User.js:5-16 | the `trim` setter drops only whitespace, from both ends, and leaves none at either end |
| `JsText.ToLower` | server/models/User.js:15 | the `lowercase` setter keeps the length and leaves no capital letter |
| `JsText.TrimToLowerCommute` | server/models/User.js:14-15 | trimming and lower-casing commute, so the setter order on `email` does not matter |
| `JsText.ParseInt` | controllers/documentController.js:194 | the global `parseInt`: a blank string is NaN, and a negative result needs a leading `-` after the skipped whitespace |
| `JsText.ParseIntOfDecimal` | controllers/documentController.js:194 | `parseInt` of a decimal numeral, followed by anything that does not continue it, gives its value |
| `JsText.ParseIntOfNegativeDecimal` | controllers/documentController.js:194 | `parseInt` of `-` and a numeral gives the negated value |
| `AnnotationModel.BuildAnnotation` | server/models/Annotation.js:3-47 | `Annotation.create` validation succeeds iff all eight required paths are present and non-empty; the record keeps the given paths, `userColor` defaults to `#FF5733`, both timestamps are the creation time |
| `AnnotationModel.BuildFromStored` | server/models/Annotation.js:3-47 | a stored record rebuilt from its own paths is itself (round trip) |
| `DocumentModel.ParseFileType` | models/Document.js:12-16 | the enum accepts exactly `text` and `pdf`, and names them back |
| `DocumentModel.BuildDocument` | models/Document.js:3-32 | `Document.create` succeeds iff filename, originalName, content, uploadedBy are present and fileType is in the enum; a new document has `annotationCount` 0 and equal timestamps |
| `DocumentModel.FileTypeFor` | controllers/documentController.js:52 | the upload picks `pdf` exactly for `application/pdf`, `text` otherwise |
| `DocumentModel.UploadFileTypeAccepted` | controllers/documentController.js:52 | whatever the MIME type, the chosen file type passes the enum validator |
| `UserModel.NormalizeEmail` | server/models/User.js:10-16 | a stored email has no surrounding whitespace and no capitals |
| `UserModel.NormalizeEmailIdempotent` | server/models/User.js:14-15 | normalising a normalised email changes nothing |
| `UserModel.BuildUser` | server/models/User.js:3-23 | `User.create` succeeds iff username and email are non-blank after trimming; stores the trimmed username, normalised email, colour `#FF5733` |
| `AnnotationStore.Insert` | server/models/Annotation.js:50 | an insert is refused with the duplicate-key error iff its `(documentId, userId, rangeHash)` key is taken, appends otherwise, and keeps the index unique |
| `AnnotationStore.IndexOfId` | controllers/documentController.js:221 | `findByIdAndDelete` finds the record with that `_id`, or reports that none has it |
| `AnnotationStore.ForDocument` | controllers/documentController.js:198 | the `{documentId}` filter keeps exactly the document's records |
| `AnnotationStore.CountFor` | controllers/documentController.js:203 | `countDocuments({documentId})` is at most the collection size, and 0 exactly when no record names the document |
| `AnnotationStore.CountAfterAppend` | controllers/documentController.js:164-179 | an insert adds one to its own document's store count and nothing to the others |
| `AnnotationStore.CountAfterRemove` | controllers/documentController.js:221-230 | a delete subtracts one from its own document's store count and nothing from the others |
| `AnnotationStore.RemoveKeepsIndexes` | controllers/documentController.js:221 | a delete keeps ids and index keys unique and the creation order; the deleted id is gone |
| `AnnotationStore.Bump` | controllers/documentController.js:177-179 | `$inc` moves one document's counter by the given amount, stamps `updatedAt`, and is a no-op for an unknown id |
| `AnnotationStore.InsertKeepsConsistent` | controllers/documentController.js:164-179 | insert then increment of the record's own document keeps every counter equal to the store count |
| `AnnotationStore.RemoveKeepsConsistent` | controllers/documentController.js:221-230 | delete then decrement of the record's own document keeps every counter equal to the store count |
| `AnnotationStore.MisdirectedDecrement` | index.js:58-62 | decrementing another document than the deleted record's keeps the counters right iff neither document exists |
| `AnnotationStore.DecrementKeepsConsistentIff` | index.js:58-62 | deleting a record and decrementing a named document keeps the counters right iff it is the record's own document or neither document exists |
| `AnnotationStore.NewDocumentKeepsConsistent` | models/Document.js:26-29 | a new document starting at 0 under an unreferenced id keeps the counters right |
| `AnnotationStore.NewestFirst` | controllers/documentController.js:198-199 | the sorted `{documentId}` query holds exactly the document's records, as many as `countDocuments` reports |
| `AnnotationStore.NewestFirstListing` | controllers/documentController.js:198-201 | a document's listing holds exactly its records, each once, ordered by creation time descending |
| `AnnotationStore.RestRangeHashIdentifies` | controllers/documentController.js:158-160 | the REST range key of two requests agrees exactly when document, user, start and end all agree |
| `AnnotationStore.RestSpanIsDuplicate` | controllers/documentController.js:158-160 | once a REST-created record is stored, another REST record by the same user on the same span and document is a duplicate, whatever its comment or text |
| `AnnotationStore.DistinctKeysBothInsert` | server/models/Annotation.js:50 | two records with distinct free keys are both accepted in turn |
| `AnnotationStore.OtherUserSameHashAccepted` | server/models/Annotation.js:50 | a second user may store the same range hash on the same document |
| `AnnotationStore.ClientHashAdmitsSameSpanTwice` | index.js:46 | on the socket path one user's same span is stored twice when the client hashes differ |
| `Pagination.ParsePage` | controllers/documentController.js:194 | `parseInt(page) \|\| 1` is never 0: absent, NaN or zero give page 1, any other parsed value is kept |
| `Pagination.ParsePageOfDecimal` | controllers/documentController.js:194 | a decimal page number is served as that page; `"0"` serves page 1 |
| `Pagination.Skip` | controllers/documentController.js:196 | skip is non-negative iff the page is at least 1, and page `p` ends at `p * 100` |
| `Pagination.TotalPages` | controllers/documentController.js:209 | `Math.ceil(total / 100)` is the least page count whose pages hold `total` records |
| `Pagination.PageOf` | controllers/documentController.js:198-201 | `.skip(s).limit(100)` returns at most 100 records, those at positions `s` onwards |
| `Pagination.PagesCoverAll` | controllers/documentController.js:194-209 | pages 1 to `totalPages` of an unchanging listing together are the listing, each record once and in order |
| `Pagination.PastLastPageIsEmpty` | controllers/documentController.js:196-201 | a page after the last one is empty |
| `Pagination.PageHolding` | controllers/documentController.js:194-201 | record `k` is on page `k / 100 + 1` at position `k % 100` |
| `Server.RestFields` | controllers/documentController.js:155-174 | the REST create passes the request's paths, the user's username and colour snapshot and the range key of the four parts, and fails when the user is missing |
| `Server.UploadFields` | controllers/documentController.js:91-97 | the object given to `Document.create` carries the file's names, the read content, the uploader, and a file type the enum accepts |
| `Server.InsertUserKeepsValid` | server/models/User.js:7-13 | a user whose id, username and email are all free keeps every user under its own id and both unique indexes intact |
| `Server.Backend.InsertRecord` | server/models/Annotation.js:50 | saving an annotation whose index key and id are free, created no earlier than any stored one, appends it alone and keeps the index guarantees |
| `Server.Backend.RemoveRecord` | controllers/documentController.js:221 | `findByIdAndDelete` of a found record removes it alone, keeps the index guarantees, and no record keeps its id |
| `Server.Backend.IncrementCount` | controllers/documentController.js:228-230 | `$inc` on `annotationCount` changes only that document's counter and `updatedAt`, and nothing else in the state |
| `Server.Backend.CreateOrGetUser` | controllers/documentController.js:23-36 | an existing user with the normalised email is returned unchanged; otherwise exactly one user is created, or 500 with nothing created |
| `Server.Backend.InsertUser` | server/models/User.js:7-13 | saving a validated user whose email is free: refused with the duplicate-key error, nothing stored, iff the username is taken; else stored under its id with status 200 |
| `Server.Backend.UploadDocument` | controllers/documentController.js:41-103 | no file gives 400; otherwise one document with the chosen file type and counter 0 is created, or 500 with nothing created |
| `Server.Backend.GetDocument` | controllers/documentController.js:119-150 | 404 for an unknown id; else a page of at most 100 of its records, newest first, `totalPages` from the cached counter, equal to the store-based figure while the ledger is consistent |
| `Server.Backend.GetAnnotations` | controllers/documentController.js:191-214 | a page of at most 100 of the document's records, newest first, with `total` the store count and `totalPages` its ceiling over 100 |
| `Server.Backend.CreateAnnotation` | controllers/documentController.js:153-188 | missing user or invalid fields: 500, no change; taken key: 400 "Duplicate annotation detected", no change; else one record appended, its document's counter +1, 201; no broadcast |
| `Server.Backend.DeleteAnnotation` | controllers/documentController.js:217-236 | unknown id: 404, no change; else exactly that record removed and its own document's counter -1; the id is gone afterwards |
| `Server.Backend.JoinDocument` | index.js:34-37 | the connection joins that document's room only; store, counters and emissions untouched |
| `Server.Backend.LeaveDocument` | index.js:39-42 | the connection leaves that document's room only; store, counters and emissions untouched |
| `Server.Backend.NewAnnotation` | index.js:44-54 | payload inserted as sent; on success counter +1 and one `annotation-added` to the payload document's room after both writes; on failure no write and one `annotation-error` to the sender only |
| `Server.Backend.SocketDeleteAnnotation` | index.js:56-68 | unknown id: nothing changes, nothing is emitted; else record removed, the payload document's counter -1, `annotation-deleted` to that room; ledger kept iff the payload names the record's document or neither exists |
| `Server.Backend.Disconnect` | index.js:70-72 | the handler changes no store, counter, room or emission |
| `Scenarios.RepeatedCreateIsDuplicate` | controllers/documentController.js:153-188 | a repeated REST create with another comment is the 400 duplicate, and only the first insert and its increment remain |
| `Scenarios.DeleteTwice` | controllers/documentController.js:217-236 | the second delete of an id is 404; the first succeeds iff the id was stored |
| `Scenarios.CreateOrGetUserIdempotent` | controllers/documentController.js:27-30 | a second call with the same email returns the same user and creates no user |
| `Scenarios.MisdirectedSocketDeleteDrifts` | index.js:60 | after a socket delete naming another document, `getDocument` reports one page while `getAnnotations` reports none |

## Left out

- The MD5 digest itself: a `Digest` keeps its four parts, so a client string that happens to equal a server digest is not modelled as equal to it.
- ObjectId casting: ids are typed `nat`s, so malformed ids and the CastErrors they raise (500 on REST, `annotation-error` on the socket delete) are not modelled.
- File reading, PDF text extraction with pdfjs and the unlink in `uploadDocument`: their outcome is the `content` parameter (`None` when they fail).
- `getDocuments`, `populate`, the upload middleware (size and type filter, file naming), the uploads directory, the database connection, CORS and server start-up.
- Transport failures of MongoDB and the resulting 500 responses, other than the validation, duplicate-key, null-user and negative-skip errors.
- Concurrency and interleaving between handlers: each handler is atomic, and the unique index is assumed atomic.
- socket.io delivery and its automatic removal of a disconnected socket from its rooms, which happens inside the library.
- Payload shapes the typed model cannot express: absent `username` or `email` in `createOrGetUser` (the lookup then depends on how the driver treats an undefined filter value), a missing or non-object `delete-annotation` payload, a `page` query given as an array, and client-supplied `_id`, timestamps or extra paths in a `new-annotation` payload.
- JavaScript numbers: indices are integers; fractional indices and the precision limits of `parseInt` on very long numerals are not modelled.
- Ordering among annotations created in the same millisecond: the model breaks such ties by insertion order, which MongoDB leaves unspecified.
- JsText.ToLower: folds only the ASCII capitals `A`-`Z`; the full Unicode case mapping of `toLowerCase` is not modelled.
- Logging (`console.log`, `console.error`).
