/**
 * The page arithmetic shared by the two listing handlers: the page number
 * read from the query string, `skip = (page - 1) * limit` with a limit of
 * 100, and `totalPages = Math.ceil(total / limit)`.
 */
module Pagination {
  import opened Common
  import opened JsText

  /** The `limit` of both listing handlers. */
  const PageSize: nat := 100

  function Min(a: int, b: int): int
  {
    if a <= b then a else b
  }

  /**
   * `parseInt(req.query.page) || 1`: NaN and zero (either sign) fall back to
   * page 1; a negative number is kept.
   */
  function ParsePage(query: Option<string>): (page: int)
    ensures page != 0
    ensures query.None? ==> page == 1
    ensures query.Some? && ParseInt(query.value).None? ==> page == 1
    ensures query.Some? && ParseInt(query.value).Some? && ParseInt(query.value).value != 0 ==>
      page == ParseInt(query.value).value
    ensures query.Some? && ParseInt(query.value) == Some(0) ==> page == 1
  {
    if query.None? then 1  // parseInt(undefined) is NaN
    else match ParseInt(query.value)
      case None => 1
      case Some(n) => if n == 0 then 1 else n
  }

  /** A page number written in decimal is the page served; `"0"` serves page 1. */
  lemma ParsePageOfDecimal(n: nat)
    ensures ParsePage(Some(Decimal(n))) == if n == 0 then 1 else n
  {
    ParseIntOfDecimal(n, "");
    assert Decimal(n) + "" == Decimal(n);
  }

  /** The number of records skipped before page `page`. */
  function Skip(page: int): (r: int)
    ensures r >= 0 <==> page >= 1
    ensures page >= 1 ==> r + PageSize == page * PageSize
  {
    (page - 1) * PageSize
  }

  /** `Math.ceil(total / 100)`: the least number of full-size pages that hold `total` records. */
  function TotalPages(total: int): (r: int)
    ensures (r - 1) * PageSize < total <= r * PageSize
    ensures total >= 0 ==> r >= 0
  {
    (total + PageSize - 1) / PageSize
  }

  /** `.skip(skip).limit(100)` applied to an ordered listing. */
  function PageOf<T>(list: seq<T>, skip: nat): (r: seq<T>)
    ensures |r| <= PageSize
    ensures |r| == if skip >= |list| then 0 else Min(PageSize, |list| - skip)
    ensures forall k | 0 <= k < |r| :: r[k] == list[skip + k]
  {
    if skip >= |list| then [] else list[skip..Min(skip + PageSize, |list|)]
  }

  /** Pages 1 to `n`, concatenated. */
  function Pages<T>(list: seq<T>, n: nat): seq<T>
  {
    if n == 0 then [] else Pages(list, n - 1) + PageOf(list, Skip(n))
  }

  lemma {:induction false} PagesArePrefix<T>(list: seq<T>, n: nat)
    ensures Pages(list, n) == list[..Min(n * PageSize, |list|)]
  {
    if n > 0 {
      PagesArePrefix(list, n - 1);
      var skip := Skip(n);
      if skip < |list| {
        assert list[..Min(n * PageSize, |list|)] == list[..skip] + list[skip..Min(skip + PageSize, |list|)];
      }
    }
  }

  /**
   * Fetching pages 1 to `totalPages` of an unchanging listing yields every
   * record once, in order.
   */
  lemma PagesCoverAll<T>(list: seq<T>)
    ensures Pages(list, TotalPages(|list|)) == list
  {
    PagesArePrefix(list, TotalPages(|list|));
  }

  /** Pages after the last one are empty. */
  lemma PastLastPageIsEmpty<T>(list: seq<T>, page: int)
    requires page > TotalPages(|list|)
    ensures PageOf(list, Skip(page)) == []
  {
  }

  /** Record `k` of the listing is served on page `k / 100 + 1`, at position `k % 100`. */
  lemma PageHolding<T>(list: seq<T>, k: nat)
    requires k < |list|
    ensures var page := k / PageSize + 1;
      1 <= page <= TotalPages(|list|) && k % PageSize < |PageOf(list, Skip(page))|
      && PageOf(list, Skip(page))[k % PageSize] == list[k]
  {
  }
}
