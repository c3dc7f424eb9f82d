/**
 * Client code driving the backend through several handlers in a row, to
 * show what the handlers' contracts imply together: the duplicate rule
 * across repeated requests, a second delete being not-found, the
 * idempotence of `createOrGetUser`, and the counter drift the socket delete
 * can cause.
 */
module Scenarios {
  import opened Common
  import opened AnnotationModel
  import opened DocumentModel
  import opened UserModel
  import opened AnnotationStore
  import opened Pagination
  import opened Server

  /**
   * The same REST request sent twice, the second time with another comment:
   * when the first is created, the second is the distinct duplicate error and
   * the store and counters keep exactly the first insert.
   */
  method RepeatedCreateIsDuplicate(b: Backend, req: CreateRequest, otherComment: string, id1: Id, id2: Id, now: nat)
    returns (first: Response, second: Response)
    requires b.Valid() && b.IsFreshId(id1) && b.IsFreshId(id2) && id1 != id2 && b.NotBefore(now)
    requires req.documentId != Some(id2) && otherComment != ""
    modifies b
    ensures first.status == 201 ==>
      && first.body.AnnotationJson? && req.documentId.Some?
      && second == Response(400, Message(DuplicateAnnotationMessage))
      && b.annotations == old(b.annotations) + [first.body.annotation]
      && b.documents == Bump(old(b.documents), req.documentId.value, 1, now)
  {
    first := b.CreateAnnotation(req, id1, now);
    ghost var stored := b.annotations;
    second := b.CreateAnnotation(req.(comment := Some(otherComment)), id2, now);
    if first.status == 201 {
      var a := first.body.annotation;
      assert stored[|stored| - 1] == a;
      var f := RestFields(req.(comment := Some(otherComment)), old(b.users)).value;
      var a2 := BuildAnnotation(f, id2, now).value;
      assert Key(a2) == Key(stored[|stored| - 1]);
    }
  }

  /** Deleting the same id twice: the second request is not-found and changes nothing. */
  method DeleteTwice(b: Backend, id: Id, now: nat) returns (first: Response, second: Response)
    requires b.Valid()
    modifies b
    ensures second == Response(404, Message(AnnotationNotFoundMessage))
    ensures first.status == 200 <==> exists k | 0 <= k < |old(b.annotations)| :: old(b.annotations)[k].id == id
    ensures old(b.LedgerConsistent()) ==> b.LedgerConsistent()
  {
    first := b.DeleteAnnotation(id, now);
    second := b.DeleteAnnotation(id, now);
  }

  /** `createOrGetUser` called twice with one email: the second call returns the same user and creates nothing. */
  method CreateOrGetUserIdempotent(b: Backend, username: string, email: string, id1: Id, id2: Id, now: nat)
    returns (first: Response, second: Response)
    requires b.Valid() && b.IsFreshId(id1) && b.IsFreshId(id2) && id1 != id2
    modifies b
    ensures first.status == 200 ==> second == first && first.body.UserJson? && first.body.user.email == NormalizeEmail(email)
    ensures first.status == 200 ==>
      b.users == if EmailTaken(old(b.users), NormalizeEmail(email)) then old(b.users)
                 else old(b.users)[id1 := first.body.user]
  {
    first := b.CreateOrGetUser(username, email, id1, now);
    ghost var users1 := b.users;
    second := b.CreateOrGetUser(username, email, id2, now);
    if first.status == 200 {
      var u := first.body.user;
      assert u.id in users1 && users1[u.id] == u;
      assert EmailTaken(users1, NormalizeEmail(email));
      var v := second.body.user;
      assert v.id in users1 && users1[v.id] == v && v.email == u.email;
      assert v == u;
    }
  }

  /**
   * Two uploads (documents 1 and 2), a socket create on document 1, then
   * its socket delete naming document 2: the record is gone but document
   * 1 still counts it.
   */
  method MisdirectedDeleteRun() returns (b: Backend)
    ensures fresh(b) && b.Valid()
    ensures b.annotations == [] && 1 in b.documents && b.documents[1].annotationCount == 1
  {
    b := new Backend();
    var file := UploadedFile("1-notes.txt", "notes.txt", "text/plain");
    var r1 := b.UploadDocument(Some(9), Some(file), Some("hello"), 1, 0);
    var r2 := b.UploadDocument(Some(9), Some(file), Some("hello"), 2, 0);
    assert b.documents.Keys == {1, 2};
    var payload := AnnotationFields(Some(1), Some(7), Some("ann"), None, Some("hello"), Some("nice"),
                                    Some(0), Some(5), Some(Opaque("h")));
    b.NewAnnotation(40, payload, 3, 1);
    assert b.documents[1].annotationCount == 1;
    b.SocketDeleteAnnotation(40, 3, 2, 2);
  }

  /**
   * After that run, `getDocument` still reports one page from its cached
   * counter while `getAnnotations` counts no annotation and no page.
   */
  method MisdirectedSocketDeleteDrifts() returns (cached: Response, counted: Response)
    ensures cached.status == 200 && cached.body.DocumentPage? && cached.body.totalAnnotations == 1 && cached.body.totalPages == 1
    ensures counted.status == 200 && counted.body.AnnotationPage? && counted.body.total == 0 && counted.body.totalPages == 0
  {
    var b := MisdirectedDeleteRun();
    cached := b.GetDocument(1, None);
    counted := b.GetAnnotations(1, None);
  }
}
