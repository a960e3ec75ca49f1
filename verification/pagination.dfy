/** The list handler's page arithmetic: effective page and limit, skip,
    page count and the next/previous flags. */
module Pagination {
  import opened Common
  import opened Constants

  /** The `pagination` object of a list response. */
  datatype PageInfo = PageInfo(page: int, limit: int, total: nat, totalPages: int, hasNext: bool, hasPrev: bool)

  /** `parseInt(raw) || fallback`, where `raw` is the parsed query value
      (None when `parseInt` gives NaN). NaN and 0 are falsy and fall back;
      every other value, negative ones included, is kept. */
  function ParsedOr(raw: Option<int>, fallback: int): (r: int)
    ensures raw.None? || raw == Some(0) ==> r == fallback
    ensures raw.Some? && raw.value != 0 ==> r == raw.value
    ensures fallback != 0 ==> r != 0
  {
    match raw
    case Some(v) => if v != 0 then v else fallback
    case None => fallback
  }

  /** The effective page: never 0, the parsed value when it is not 0, 1 otherwise. */
  function EffectivePage(raw: Option<int>): (page: int)
    ensures page != 0
    ensures raw.Some? && raw.value != 0 ==> page == raw.value
    ensures raw.None? || raw == Some(0) ==> page == DEFAULT_PAGE
  {
    ParsedOr(raw, DEFAULT_PAGE)
  }

  /** The effective limit: never 0, the parsed value when it is not 0, 10 otherwise. */
  function EffectiveLimit(raw: Option<int>): (limit: int)
    ensures limit != 0
    ensures raw.Some? && raw.value != 0 ==> limit == raw.value
    ensures raw.None? || raw == Some(0) ==> limit == DEFAULT_LIMIT
  {
    ParsedOr(raw, DEFAULT_LIMIT)
  }

  /** The number of documents before the page: `(page - 1) * limit`. It is
      not clamped, so a page below 1 with a positive limit gives a negative skip. */
  function Skip(page: int, limit: int): (skip: int)
    ensures page >= 1 && limit > 0 ==> skip >= 0
    ensures page < 1 && limit > 0 ==> skip < 0
  {
    (page - 1) * limit
  }

  /** `Math.ceil(total / limit)`. For a positive limit it is the least
      number of pages of `limit` documents that hold `total` documents (0 for
      no documents); for a negative limit it is `-floor(total / -limit)`. */
  function CeilDiv(total: nat, limit: int): (pages: int)
    requires limit != 0
    ensures limit > 0 ==> pages >= 0 && total <= pages * limit && (pages == 0 || (pages - 1) * limit < total)
    ensures limit > 0 ==> (pages == 0 <==> total == 0)
    ensures limit < 0 ==> pages <= 0 && pages * limit <= total < (pages - 1) * limit
  {
    if limit > 0 then
      var q, m := total / limit, total % limit;
      assert total == q * limit + m;
      if m == 0 then q
      else
        assert (q + 1) * limit == q * limit + limit;
        q + 1
    else
      var q, m := total / -limit, total % -limit;
      assert total == q * -limit + m;
      assert (-q) * limit == q * -limit;
      assert (-q - 1) * limit == q * -limit - limit;
      -q
  }

  /** The pagination object for a query with `total` matching documents:
      the page count is the ceiling of `total / limit`, there is a next page
      exactly when the page is below the page count (for a positive limit:
      exactly when documents remain after this page), and a previous one
      exactly when the page is above 1. */
  function Paginate(rawPage: Option<int>, rawLimit: Option<int>, total: nat): (info: PageInfo)
    ensures info.page == EffectivePage(rawPage) && info.limit == EffectiveLimit(rawLimit)
    ensures info.total == total
    ensures info.totalPages == CeilDiv(total, info.limit)
    ensures info.limit > 0 ==> info.totalPages >= 0 && (info.totalPages == 0 <==> total == 0)
    ensures info.hasNext <==> info.page < info.totalPages
    ensures info.limit > 0 ==> (info.hasNext <==> info.page * info.limit < total)
    ensures info.hasPrev <==> info.page > 1
  {
    var page := EffectivePage(rawPage);
    var limit := EffectiveLimit(rawLimit);
    var totalPages := CeilDiv(total, limit);
    var info := PageInfo(page, limit, total, totalPages, page < totalPages, page > 1);
    if limit > 0 then HasNextIffMoreRemain(page, limit, total); info else info
  }

  /** For a positive limit, there is a next page exactly when documents
      remain after this one: `page * limit < total`. */
  lemma HasNextIffMoreRemain(page: int, limit: int, total: nat)
    requires limit > 0
    ensures page < CeilDiv(total, limit) <==> page * limit < total
  {
    var pages := CeilDiv(total, limit);
    if page < pages {
      MultiplyMonotone(page, pages - 1, limit);
    } else {
      MultiplyMonotone(pages, page, limit);
    }
  }

  /** Multiplying by a positive number keeps order. */
  lemma MultiplyMonotone(a: int, b: int, c: int)
    requires a <= b && c > 0
    ensures a * c <= b * c
  {
    assert b * c - a * c == (b - a) * c;
  }

  /** 25 documents with limit 10 make 3 pages; page 3 is the last and page 1
      the first. */
  lemma PaginationExample()
    ensures Paginate(Some(3), Some(10), 25) == PageInfo(3, 10, 25, 3, false, true)
    ensures Paginate(Some(1), Some(10), 25) == PageInfo(1, 10, 25, 3, true, false)
    ensures Paginate(None, None, 0) == PageInfo(1, 10, 0, 0, false, false)
  {
  }

  /** The maximum limit is defined but never applied: a requested limit of
      500 is used as is, and 500 documents make a single page. */
  lemma LimitNotCapped()
    ensures EffectiveLimit(Some(500)) == 500 > MAX_LIMIT
    ensures Paginate(Some(1), Some(500), 500) == PageInfo(1, 500, 500, 1, false, false)
  {
  }

  /** A negative page is kept and gives a negative skip. The flags below
      are what the page arithmetic computes for it; the list handler never
      sends them, since the store refuses the negative skip and the request
      answers 500 instead. */
  lemma NegativePageNotClamped()
    ensures EffectivePage(Some(-2)) == -2
    ensures Skip(EffectivePage(Some(-2)), EffectiveLimit(None)) == -30
    ensures !Paginate(Some(-2), None, 25).hasPrev && Paginate(Some(-2), None, 25).hasNext
  {
  }
}
