/**
 * The annotation collection and the per-document `annotationCount`
 * ledger, as the MongoDB operations the handlers issue: an insert that
 * honours the unique index, `findByIdAndDelete`, the `{documentId}` filter
 * and count, and `findByIdAndUpdate` with `$inc`.
 *
 * The collection is a sequence in insertion order.
 */
module AnnotationStore {
  import opened Common
  import opened AnnotationModel
  import opened DocumentModel

  /** No two stored annotations share an `_id`. */
  ghost predicate UniqueIds(s: seq<Annotation>)
  {
    forall i, j | 0 <= i < j < |s| :: s[i].id != s[j].id
  }

  /** The unique compound index holds: no two stored annotations share a key. */
  ghost predicate UniqueKeys(s: seq<Annotation>)
  {
    forall i, j | 0 <= i < j < |s| :: Key(s[i]) != Key(s[j])
  }

  /** Creation times never decrease along insertion order. */
  ghost predicate Chronological(s: seq<Annotation>)
  {
    forall i, j | 0 <= i < j < |s| :: s[i].createdAt <= s[j].createdAt
  }

  predicate HasKey(s: seq<Annotation>, k: IndexKey)
  {
    exists i | 0 <= i < |s| :: Key(s[i]) == k
  }

  /**
   * Inserting one record: refused with the duplicate-key error when its
   * index key is taken, appended otherwise; either way the index stays unique.
   */
  function Insert(s: seq<Annotation>, a: Annotation): (r: Result<seq<Annotation>>)
    ensures r.Err? <==> exists i | 0 <= i < |s| :: Key(s[i]) == Key(a)
    ensures r.Err? ==> r.error == DuplicateKey
    ensures r.Ok? ==> r.value == s + [a]
    ensures r.Ok? && UniqueKeys(s) ==> UniqueKeys(r.value)
  {
    if HasKey(s, Key(a)) then Err(DuplicateKey) else Ok(s + [a])
  }

  /** The position of the record with `_id` `id`, if there is one. */
  function IndexOfId(s: seq<Annotation>, id: Id): (r: Option<nat>)
    ensures r.Some? ==> r.value < |s| && s[r.value].id == id
    ensures r.None? <==> forall i | 0 <= i < |s| :: s[i].id != id
  {
    if s == [] then None
    else if s[0].id == id then Some(0)
    else match IndexOfId(s[1..], id)
      case None => None
      case Some(i) => Some(i + 1)
  }

  /** `s` without its element at position `i`. */
  function RemoveAt(s: seq<Annotation>, i: nat): (r: seq<Annotation>)
    requires i < |s|
    ensures |r| == |s| - 1
    ensures forall k | 0 <= k < i :: r[k] == s[k]
    ensures forall k | i <= k < |r| :: r[k] == s[k + 1]
  {
    s[..i] + s[i + 1..]
  }

  /** Removing a record keeps the two unique indexes and the creation order, and its `_id` is gone. */
  lemma RemoveKeepsIndexes(s: seq<Annotation>, i: nat)
    requires i < |s| && UniqueIds(s) && UniqueKeys(s) && Chronological(s)
    ensures var r := RemoveAt(s, i);
      UniqueIds(r) && UniqueKeys(r) && Chronological(r) && forall k | 0 <= k < |r| :: r[k].id != s[i].id
  {
  }

  /** The records of document `d`, in insertion order (the `{documentId}` filter). */
  function ForDocument(s: seq<Annotation>, d: Id): (r: seq<Annotation>)
    ensures |r| <= |s|
    ensures forall a :: a in r <==> a in s && a.documentId == d
  {
    if s == [] then []
    else ForDocument(s[..|s| - 1], d) + (if s[|s| - 1].documentId == d then [s[|s| - 1]] else [])
  }

  /** `countDocuments({documentId: d})`: the authoritative count. */
  function CountFor(s: seq<Annotation>, d: Id): (r: nat)
    ensures r <= |s|
    ensures r == 0 <==> forall i | 0 <= i < |s| :: s[i].documentId != d
  {
    var f := ForDocument(s, d);
    assert f != [] ==> f[0] in s;
    assert forall i | 0 <= i < |s| && s[i].documentId == d :: s[i] in f;
    |f|
  }

  lemma {:induction false} ForDocumentConcat(x: seq<Annotation>, y: seq<Annotation>, d: Id)
    ensures ForDocument(x + y, d) == ForDocument(x, d) + ForDocument(y, d)
    decreases |y|
  {
    if y == [] {
      assert x + y == x;
    } else {
      var y' := y[..|y| - 1];
      assert (x + y)[..|x + y| - 1] == x + y';
      ForDocumentConcat(x, y', d);
    }
  }

  /** Appending one record adds one to its own document's count and leaves every other count alone. */
  lemma CountAfterAppend(s: seq<Annotation>, a: Annotation, d: Id)
    ensures CountFor(s + [a], d) == CountFor(s, d) + (if a.documentId == d then 1 else 0)
  {
    assert (s + [a])[..|s|] == s;
  }

  /** Removing one record subtracts one from its own document's count and leaves every other count alone. */
  lemma {:induction false} CountAfterRemove(s: seq<Annotation>, i: nat, d: Id)
    requires i < |s|
    ensures CountFor(RemoveAt(s, i), d) == CountFor(s, d) - (if s[i].documentId == d then 1 else 0)
  {
    assert s == s[..i] + [s[i]] + s[i + 1..];
    ForDocumentConcat(s[..i] + [s[i]], s[i + 1..], d);
    ForDocumentConcat(s[..i], [s[i]], d);
    ForDocumentConcat(s[..i], s[i + 1..], d);
    assert ForDocument([s[i]], d) == if s[i].documentId == d then [s[i]] else [] by {
      assert [s[i]][..0] == [];
    }
  }

  /**
   * `findByIdAndUpdate(d, {$inc: {annotationCount: delta}})`: adds `delta`
   * to the counter of `d` and stamps `updatedAt`; with no such document it
   * matches nothing and changes nothing.
   */
  function Bump(docs: map<Id, Document>, d: Id, delta: int, now: nat): (r: map<Id, Document>)
    ensures r.Keys == docs.Keys
    ensures d in docs ==> r[d].annotationCount == docs[d].annotationCount + delta
    ensures d in docs ==> r[d] == docs[d].(annotationCount := r[d].annotationCount, updatedAt := now)
    ensures forall e | e in docs && e != d :: r[e] == docs[e]
  {
    if d in docs then docs[d := docs[d].(annotationCount := docs[d].annotationCount + delta, updatedAt := now)]
    else docs
  }

  /** `$inc` leaves every document stored under its own `_id`. */
  lemma BumpKeepsIds(docs: map<Id, Document>, d: Id, delta: int, now: nat)
    requires forall e | e in docs :: docs[e].id == e
    ensures var r := Bump(docs, d, delta, now); forall e | e in r :: r[e].id == e
  {
  }

  /** The ledger invariant: every document's counter equals the number of its stored annotations. */
  ghost predicate Consistent(s: seq<Annotation>, docs: map<Id, Document>)
  {
    forall d | d in docs :: docs[d].annotationCount == CountFor(s, d)
  }

  /** Inserting a record and incrementing its own document keeps the ledger consistent. */
  lemma {:induction false} InsertKeepsConsistent(s: seq<Annotation>, docs: map<Id, Document>, a: Annotation, now: nat)
    requires Consistent(s, docs)
    ensures Consistent(s + [a], Bump(docs, a.documentId, 1, now))
  {
    var docs' := Bump(docs, a.documentId, 1, now);
    forall d | d in docs'
      ensures docs'[d].annotationCount == CountFor(s + [a], d)
    {
      CountAfterAppend(s, a, d);
    }
  }

  /** Removing a record and decrementing its own document keeps the ledger consistent. */
  lemma {:induction false} RemoveKeepsConsistent(s: seq<Annotation>, docs: map<Id, Document>, i: nat, now: nat)
    requires i < |s| && Consistent(s, docs)
    ensures Consistent(RemoveAt(s, i), Bump(docs, s[i].documentId, -1, now))
  {
    var docs' := Bump(docs, s[i].documentId, -1, now);
    forall d | d in docs'
      ensures docs'[d].annotationCount == CountFor(RemoveAt(s, i), d)
    {
      CountAfterRemove(s, i, d);
    }
  }

  /**
   * Removing a record but decrementing some other document `p` keeps the
   * ledger consistent only when neither document exists.
   */
  lemma {:induction false} MisdirectedDecrement(s: seq<Annotation>, docs: map<Id, Document>, i: nat, p: Id, now: nat)
    requires i < |s| && Consistent(s, docs) && p != s[i].documentId
    ensures Consistent(RemoveAt(s, i), Bump(docs, p, -1, now)) <==> (p !in docs && s[i].documentId !in docs)
  {
    var d := s[i].documentId;
    var docs' := Bump(docs, p, -1, now);
    CountAfterRemove(s, i, d);
    CountAfterRemove(s, i, p);
    if p !in docs && d !in docs {
      forall e | e in docs'
        ensures docs'[e].annotationCount == CountFor(RemoveAt(s, i), e)
      {
        CountAfterRemove(s, i, e);
      }
    } else if d in docs {
      assert docs'[d].annotationCount != CountFor(RemoveAt(s, i), d);
    } else {
      assert docs'[p].annotationCount != CountFor(RemoveAt(s, i), p);
    }
  }

  /**
   * Removing record `i` and decrementing document `p` keeps the ledger
   * consistent exactly when `p` is the record's own document or neither
   * document exists.
   */
  lemma DecrementKeepsConsistentIff(s: seq<Annotation>, docs: map<Id, Document>, i: nat, p: Id, now: nat)
    requires i < |s| && Consistent(s, docs)
    ensures Consistent(RemoveAt(s, i), Bump(docs, p, -1, now)) <==>
      (s[i].documentId == p || (p !in docs && s[i].documentId !in docs))
  {
    if s[i].documentId == p {
      RemoveKeepsConsistent(s, docs, i, now);
    } else {
      MisdirectedDecrement(s, docs, i, p, now);
    }
  }

  /** A new document under an id no annotation refers to starts consistent at zero. */
  lemma {:induction false} NewDocumentKeepsConsistent(s: seq<Annotation>, docs: map<Id, Document>, doc: Document)
    requires Consistent(s, docs) && doc.annotationCount == 0
    requires forall i | 0 <= i < |s| :: s[i].documentId != doc.id
    ensures Consistent(s, docs[doc.id := doc])
  {
    NoneForDocument(s, doc.id);
  }

  lemma {:induction false} NoneForDocument(s: seq<Annotation>, d: Id)
    requires forall i | 0 <= i < |s| :: s[i].documentId != d
    ensures ForDocument(s, d) == []
  {
    if s != [] {
      NoneForDocument(s[..|s| - 1], d);
    }
  }

  // ------------------------------------------------------------ listing order

  /** `s` reversed. */
  function Reverse<T>(s: seq<T>): (r: seq<T>)
    ensures |r| == |s|
    ensures forall k | 0 <= k < |s| :: r[k] == s[|s| - 1 - k]
  {
    if s == [] then [] else [s[|s| - 1]] + Reverse(s[..|s| - 1])
  }

  /** `find({documentId: d}).sort({createdAt: -1})`: the document's records, newest first. */
  function NewestFirst(s: seq<Annotation>, d: Id): (r: seq<Annotation>)
    ensures |r| == CountFor(s, d)
    ensures forall a :: a in r <==> a in s && a.documentId == d
  {
    var f := ForDocument(s, d);
    var r := Reverse(f);
    assert forall a | a in r :: a in f by {
      forall a | a in r ensures a in f {
        var k :| 0 <= k < |r| && r[k] == a;
        assert f[|f| - 1 - k] == a;
      }
    }
    assert forall a | a in f :: a in r by {
      forall a | a in f ensures a in r {
        var k :| 0 <= k < |f| && f[k] == a;
        assert r[|f| - 1 - k] == a;
      }
    }
    r
  }

  lemma {:induction false} ForDocumentChronological(s: seq<Annotation>, d: Id)
    requires Chronological(s)
    ensures Chronological(ForDocument(s, d))
  {
    if s != [] {
      var p := s[..|s| - 1];
      var last := s[|s| - 1];
      ForDocumentChronological(p, d);
      var f := ForDocument(p, d);
      forall k | 0 <= k < |f|
        ensures f[k].createdAt <= last.createdAt
      {
        assert f[k] in p;
      }
    }
  }

  lemma {:induction false} ForDocumentUniqueIds(s: seq<Annotation>, d: Id)
    requires UniqueIds(s)
    ensures UniqueIds(ForDocument(s, d))
  {
    if s != [] {
      var p := s[..|s| - 1];
      var last := s[|s| - 1];
      ForDocumentUniqueIds(p, d);
      var f := ForDocument(p, d);
      forall k | 0 <= k < |f|
        ensures f[k].id != last.id
      {
        assert f[k] in p;
      }
    }
  }

  /**
   * The listing of a document holds exactly its records, each once, with
   * creation times never increasing.
   */
  lemma NewestFirstListing(s: seq<Annotation>, d: Id)
    requires Chronological(s) && UniqueIds(s)
    ensures forall a :: a in NewestFirst(s, d) <==> a in s && a.documentId == d
    ensures |NewestFirst(s, d)| == CountFor(s, d)
    ensures UniqueIds(NewestFirst(s, d))
    ensures forall i, j | 0 <= i < j < |NewestFirst(s, d)| ::
      NewestFirst(s, d)[i].createdAt >= NewestFirst(s, d)[j].createdAt
  {
    ForDocumentChronological(s, d);
    ForDocumentUniqueIds(s, d);
    var f := ForDocument(s, d);
    var r := NewestFirst(s, d);
    forall a ensures a in r <==> a in f {
      if a in r {
        var k :| 0 <= k < |r| && r[k] == a;
        assert f[|f| - 1 - k] == a;
      }
      if a in f {
        var k :| 0 <= k < |f| && f[k] == a;
        assert r[|f| - 1 - k] == a;
      }
    }
  }

  // ------------------------------------------------------- the range identity

  /** The `rangeHash` the REST controller derives from a request. */
  function RestRangeHash(documentId: Option<Id>, userId: Option<Id>, startIndex: Option<int>, endIndex: Option<int>): RangeHash
  {
    Digest(documentId, userId, startIndex, endIndex)
  }

  /**
   * The REST range key identifies a span: two keys agree exactly when the
   * document, user, start and end all agree, whatever else the requests carry.
   */
  lemma RestRangeHashIdentifies(d1: Option<Id>, u1: Option<Id>, s1: Option<int>, e1: Option<int>,
                                d2: Option<Id>, u2: Option<Id>, s2: Option<int>, e2: Option<int>)
    ensures RestRangeHash(d1, u1, s1, e1) == RestRangeHash(d2, u2, s2, e2) <==>
      d1 == d2 && u1 == u2 && s1 == s2 && e1 == e2
  {
  }

  /**
   * Once a REST-created record is stored, a second one by the same user on
   * the same span of the same document is refused, whatever its comment or
   * selected text.
   */
  lemma RestSpanIsDuplicate(s: seq<Annotation>, a: Annotation, b: Annotation)
    requires a in s
    requires a.rangeHash == RestRangeHash(Some(a.documentId), Some(a.userId), Some(a.startIndex), Some(a.endIndex))
    requires b.rangeHash == RestRangeHash(Some(b.documentId), Some(b.userId), Some(b.startIndex), Some(b.endIndex))
    requires b.documentId == a.documentId && b.userId == a.userId
    requires b.startIndex == a.startIndex && b.endIndex == a.endIndex
    ensures Insert(s, b) == Err(DuplicateKey)
  {
    var i :| 0 <= i < |s| && s[i] == a;
    assert Key(s[i]) == Key(b);
  }

  /** Two records with distinct keys, neither taken yet, are both accepted one after the other. */
  lemma DistinctKeysBothInsert(s: seq<Annotation>, a: Annotation, b: Annotation)
    requires !HasKey(s, Key(a)) && !HasKey(s, Key(b)) && Key(a) != Key(b)
    ensures Insert(s, a) == Ok(s + [a]) && Insert(s + [a], b) == Ok(s + [a, b])
  {
    assert !HasKey(s + [a], Key(b)) by {
      forall i | 0 <= i < |s + [a]| ensures Key((s + [a])[i]) != Key(b) {
        if i < |s| { assert (s + [a])[i] == s[i]; }
      }
    }
    assert s + [a] + [b] == s + [a, b];
  }

  /** Two users may hold annotations with the same range hash on the same document. */
  lemma OtherUserSameHashAccepted(s: seq<Annotation>, a: Annotation, b: Annotation)
    requires !HasKey(s, Key(a)) && !HasKey(s, Key(b))
    requires b.documentId == a.documentId && b.rangeHash == a.rangeHash && b.userId != a.userId
    ensures Insert(s, a) == Ok(s + [a]) && Insert(s + [a], b) == Ok(s + [a, b])
  {
    DistinctKeysBothInsert(s, a, b);
  }

  /**
   * On the socket path the hash comes from the client: two records by the
   * same user on the same span are both accepted when the hashes differ.
   */
  lemma ClientHashAdmitsSameSpanTwice(s: seq<Annotation>, a: Annotation, b: Annotation)
    requires !HasKey(s, Key(a)) && !HasKey(s, Key(b))
    requires b.documentId == a.documentId && b.userId == a.userId
    requires b.startIndex == a.startIndex && b.endIndex == a.endIndex
    requires a.rangeHash != b.rangeHash
    ensures Insert(s, a) == Ok(s + [a]) && Insert(s + [a], b) == Ok(s + [a, b])
  {
    DistinctKeysBothInsert(s, a, b);
  }
}
