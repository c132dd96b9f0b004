/** The page arithmetic shared by the three "get all" handlers: defaults, `skip`,
    `limit` and the page count, and what `.skip(skip).limit(limit)` returns. */
module Pagination {
  import opened Common

  const DefaultPage: nat := 1
  const DefaultLimit: nat := 10

  function Min(a: nat, b: nat): nat {
    if a <= b then a else b
  }

  /** `parseInt(q) || d` for a query value that parsed to a non-negative integer
      (`None`: absent or not a number, which parses to `NaN`). */
  function OrDefault(q: Option<nat>, d: nat): nat {
    if q.None? || q.value == 0 then d else q.value
  }

  /** `Math.ceil(total / limit)`: the fewest pages of `limit` items that hold `total` items. */
  function CeilDiv(total: nat, limit: nat): (r: nat)
    requires limit > 0
    ensures r * limit >= total
    ensures r > 0 ==> (r - 1) * limit < total
    ensures total == 0 <==> r == 0
  {
    if total == 0 then 0
    else
      var q := (total - 1) / limit;
      assert q * limit <= total - 1 < q * limit + limit;
      q + 1
  }

  /** The numbers a "get all" reply carries, plus the `skip` and `limit` of its query. */
  datatype Page = Page(currentPage: nat, limit: nat, skip: nat, total: nat, totalPages: nat)

  function Paginate(total: nat, page: Option<nat>, limit: Option<nat>): (p: Page)
    ensures p.currentPage >= 1 && p.limit >= 1 && p.total == total
    ensures p.currentPage == (if page.Some? && page.value > 0 then page.value else DefaultPage)
    ensures p.limit == (if limit.Some? && limit.value > 0 then limit.value else DefaultLimit)
    ensures p.skip == (p.currentPage - 1) * p.limit
    ensures p.totalPages * p.limit >= total
    ensures p.totalPages > 0 ==> (p.totalPages - 1) * p.limit < total
  {
    var pg := OrDefault(page, DefaultPage);
    var lim := OrDefault(limit, DefaultLimit);
    Page(pg, lim, (pg - 1) * lim, total, CeilDiv(total, lim))
  }

  /** Item number `k` (from 0) sits on page `k / limit + 1`, which never exceeds the page count. */
  lemma ItemOnCountedPage(total: nat, limit: nat, k: nat)
    requires limit > 0 && k < total
    ensures k / limit + 1 <= CeilDiv(total, limit)
  {
    var n := CeilDiv(total, limit);
    var q := k / limit;
    assert q * limit <= k < n * limit;
    MulCancel(q, n, limit);
  }

  lemma MulCancel(a: nat, b: nat, c: nat)
    requires a * c < b * c
    ensures a < b
  {
  }

  /** `.skip(skip).limit(limit)` on a result in natural order. */
  function Window<T>(s: seq<T>, skip: nat, limit: nat): (r: seq<T>)
    ensures |r| == (if skip >= |s| then 0 else Min(limit, |s| - skip))
    ensures forall j :: 0 <= j < |r| ==> skip + j < |s| && r[j] == s[skip + j]
  {
    if skip >= |s| then [] else s[skip..Min(skip + limit, |s|)]
  }

  /** Pages 1 to `n` of `s`, one after the other. */
  function Pages<T>(s: seq<T>, limit: nat, n: nat): seq<T> {
    if n == 0 then [] else Pages(s, limit, n - 1) + Window(s, (n - 1) * limit, limit)
  }

  /** The first `n` pages are exactly the first `n * limit` items: no item is skipped or repeated. */
  lemma {:induction false} PagesArePrefix<T>(s: seq<T>, limit: nat, n: nat)
    requires limit > 0
    ensures Pages(s, limit, n) == s[..Min(n * limit, |s|)]
  {
    if n > 0 {
      PagesArePrefix(s, limit, n - 1);
      MulSucc(n - 1, limit);
      PrefixThenWindow(s, (n - 1) * limit, limit);
    }
  }

  /** The items before `skip`, then one window, are the items before `skip + limit`. */
  lemma PrefixThenWindow<T>(s: seq<T>, skip: nat, limit: nat)
    ensures s[..Min(skip, |s|)] + Window(s, skip, limit) == s[..Min(skip + limit, |s|)]
  {
    if skip < |s| {
      assert s[..Min(skip + limit, |s|)] == s[..skip] + s[skip..Min(skip + limit, |s|)];
    }
  }

  lemma MulSucc(m: nat, limit: nat)
    ensures (m + 1) * limit == m * limit + limit
  {
  }

  /** Reading every page the reply announces returns the whole collection, in order. */
  lemma AllPagesCoverCollection<T>(s: seq<T>, limit: nat)
    requires limit > 0
    ensures Pages(s, limit, CeilDiv(|s|, limit)) == s
  {
    PagesArePrefix(s, limit, CeilDiv(|s|, limit));
  }
}
