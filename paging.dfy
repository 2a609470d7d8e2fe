/**
 * The pagination arithmetic shared by the list routes of both backends: the
 * `page` and `limit` query parameters read with `parseInt(...) || default`,
 * the number of records skipped, the number of pages and the next/previous
 * flags.
 */
module Paging {
  import opened Wrappers
  import Text

  const DefaultPage: int := 1
  const DefaultLimit: int := 10

  /** `parseInt(q) || d`: a missing parameter, one that is not a number and
      one that reads as zero all give the default; any other reading, a
      negative one included, is kept. */
  function Param(q: Option<string>, d: int): (v: int)
    ensures q.None? ==> v == d
    ensures q.Some? && Text.ParseInt(q.value).Some? && Text.ParseInt(q.value).value != 0 ==> v == Text.ParseInt(q.value).value
    ensures q.Some? && (Text.ParseInt(q.value).None? || Text.ParseInt(q.value) == Some(0)) ==> v == d
    ensures d != 0 ==> v != 0
  {
    match q
    case None => d
    case Some(s) =>
      match Text.ParseInt(s)
      case None => d
      case Some(n) => if n == 0 then d else n
  }

  /** The records skipped before the page. */
  function Skip(page: int, limit: int): int {
    (page - 1) * limit
  }

  /** `Math.ceil(a / b)` for a whole number of records. */
  function CeilDiv(a: nat, b: int): (r: int)
    requires b != 0
    ensures b > 0 ==> (r - 1) * b < a <= r * b
    ensures b < 0 ==> r * b <= a < (r - 1) * b
  {
    if b > 0 then
      var n: int := -(a as int);
      var q := n / b;
      assert n == b * q + n % b && 0 <= n % b < b;
      -q
    else
      var c: int := -b;
      var q := a / c;
      assert a == c * q + a % c && 0 <= a % c < c;
      -q
  }

  datatype Meta = Meta(currentPage: int, totalPages: int, total: nat, hasNextPage: bool, hasPrevPage: bool)

  /** The page description returned beside the records. */
  function MetaFor(page: int, limit: int, total: nat): (m: Meta)
    requires limit != 0
  {
    Meta(page, CeilDiv(total, limit), total, page * limit < total, page > 1)
  }

  /** `p * b` grows with `p` for a positive `b`. */
  lemma MulMono(p: int, q: int, b: int)
    requires p <= q && b > 0
    ensures p * b <= q * b
  {
    assert q * b - p * b == (q - p) * b;
  }

  /** With a positive limit there is a next page exactly when the page is
      not the last one, and the previous-page flag is set exactly from the
      second page on. */
  lemma NextPageIff(page: int, limit: int, total: nat)
    requires limit > 0
    ensures var m := MetaFor(page, limit, total);
            && (m.hasNextPage <==> page < m.totalPages)
            && (m.hasPrevPage <==> page >= 2)
  {
    var r := CeilDiv(total, limit);
    if page < r {
      MulMono(page, r - 1, limit);
    } else {
      MulMono(r, page, limit);
    }
  }

  /** With a positive limit the pages hold every record: there are no pages
      for no records, every page from the first to the last starts at a
      record, and a page past the last starts past the records. */
  lemma PagesCoverRecords(page: int, limit: int, total: nat)
    requires limit > 0
    ensures var pages := CeilDiv(total, limit);
            && (total == 0 <==> pages == 0)
            && pages >= 0
            && (1 <= page <= pages ==> 0 <= Skip(page, limit) < total)
            && (page > pages ==> Skip(page, limit) >= total)
  {
    var r := CeilDiv(total, limit);
    if r < 0 {
      MulMono(r, -1, limit);
    }
    if total > 0 && r <= 0 {
      MulMono(r, 0, limit);
    }
    if total == 0 && r > 0 {
      MulMono(1, r - 1 + 1, limit);
      MulMono(0, r - 1, limit);
    }
    if 1 <= page <= r {
      MulMono(0, page - 1, limit);
      MulMono(page - 1, r - 1, limit);
    }
    if page > r {
      MulMono(r, page - 1, limit);
    }
  }
}
