/** Page arithmetic over a dataset of rows: `index_range`
    (pagination/0-simple_helper_function.py and its copy in
    pagination/2-hypermedia_pagination.py) and `Server.get_page` and
    `Server.get_hyper`, with the dataset passed in. */
module Pagination {
  import opened Wrappers

  /** `index_range(page, page_size)`: the half-open range of rows of a page. */
  function IndexRange(page: int, pageSize: int): (r: (int, int))
    ensures r.0 == (page - 1) * pageSize
    ensures r.1 - r.0 == pageSize
  {
    var start := (page - 1) * pageSize;
    (start, start + pageSize)
  }

  /** Page 1 starts at row 0, and each page ends where the next one starts. */
  lemma IndexRangeAdjacent(page: int, pageSize: int)
    ensures IndexRange(1, pageSize) == (0, pageSize)
    ensures IndexRange(page, pageSize).1 == IndexRange(page + 1, pageSize).0
  {
  }

  /** Python's slice `rows[start:end]` for `0 <= start`: the end is cut down
      to the length. */
  function Slice<T>(rows: seq<T>, start: nat, end: int): seq<T>
    requires start <= |rows|
  {
    if end <= start then [] else if end >= |rows| then rows[start..] else rows[start..end]
  }

  /** `get_page(page, page_size)`: an AssertionError unless both are
      positive, an empty page past the end of the data, the rows of the
      range otherwise. */
  function GetPage<T>(dataset: seq<T>, page: int := 1, pageSize: int := 10): (r: Outcome<seq<T>>)
    ensures r.Throw? <==> page <= 0 || pageSize <= 0
    ensures r.Throw? ==> r.message == "AssertionError"
  {
    if page <= 0 || pageSize <= 0 then Throw("AssertionError")
    else
      var range := IndexRange(page, pageSize);
      if range.0 >= |dataset| then Return([])
      else Return(Slice(dataset, range.0, range.1))
  }

  /** A page is the contiguous run of at most `page_size` rows that starts
      at row `(page - 1) * page_size`; it is empty exactly when that row is
      past the end, and full whenever the data reaches the end of the range. */
  lemma GetPageContents<T>(dataset: seq<T>, page: int, pageSize: int)
    requires page >= 1 && pageSize >= 1
    ensures var start := (page - 1) * pageSize;
      var rows := GetPage(dataset, page, pageSize).value;
      && |rows| <= pageSize
      && (start >= |dataset| <==> |rows| == 0)
      && (start < |dataset| ==> rows == dataset[start..start + |rows|])
      && (start < |dataset| ==> |rows| == if start + pageSize <= |dataset| then pageSize else |dataset| - start)
  {
    var start := (page - 1) * pageSize;
    assert start >= 0 by {
      assert page - 1 >= 0;
    }
    var rows := GetPage(dataset, page, pageSize).value;
    if start >= |dataset| {
      assert rows == [];
    } else {
      assert rows == Slice(dataset, start, start + pageSize);
    }
  }

  /** The rows of pages 1 to k, one after the other. */
  function Pages<T>(dataset: seq<T>, k: nat, pageSize: int): seq<T>
    requires pageSize >= 1
  {
    if k == 0 then [] else Pages(dataset, k - 1, pageSize) + GetPage(dataset, k, pageSize).value
  }

  /** Pages 1 to k together are the first `k * page_size` rows (or all of
      them): the pages neither overlap nor leave gaps. */
  lemma {:induction false} PagesArePrefix<T>(dataset: seq<T>, k: nat, pageSize: int)
    requires pageSize >= 1
    ensures var n := if k * pageSize <= |dataset| then k * pageSize else |dataset|;
      Pages(dataset, k, pageSize) == dataset[..n]
  {
    if k > 0 {
      PagesArePrefix(dataset, k - 1, pageSize);
      GetPageContents(dataset, k, pageSize);
      var start := (k - 1) * pageSize;
      NextPageStart(k, pageSize);
      if start < |dataset| {
        var rows := GetPage(dataset, k, pageSize).value;
        PrefixJoin(dataset, start, start + |rows|);
      }
    }
  }

  /** Page k + 1 starts `page_size` rows after page k. */
  lemma NextPageStart(k: nat, pageSize: int)
    requires k >= 1 && pageSize >= 1
    ensures (k - 1) * pageSize >= 0 && k * pageSize == (k - 1) * pageSize + pageSize
  {
  }

  lemma PrefixJoin<T>(s: seq<T>, a: nat, b: nat)
    requires a <= b <= |s|
    ensures s[..a] + s[a..b] == s[..b]
  {
  }

  /** The dict `get_hyper` returns. */
  datatype Hyper<T> = Hyper(
    pageSize: nat, page: int, data: seq<T>,
    nextPage: Option<int>, prevPage: Option<int>, totalPages: int)

  /** `math.ceil(len(dataset) / page_size)` for a positive page size, in
      integers. */
  function CeilDiv(n: nat, d: int): (r: int)
    requires d >= 1
    ensures (r - 1) * d < n <= r * d
  {
    (n + d - 1) / d
  }

  /** `get_hyper(page, page_size)`: the page and its navigation data; the
      assertions of `get_page` propagate. */
  function GetHyper<T>(dataset: seq<T>, page: int := 1, pageSize: int := 10): (r: Outcome<Hyper<T>>)
    ensures r.Throw? <==> GetPage(dataset, page, pageSize).Throw?
  {
    match GetPage(dataset, page, pageSize)
    case Throw(m) => Throw(m)
    case Return(data) =>
      var totalPages := CeilDiv(|dataset|, pageSize);
      Return(Hyper(
        |data|, page, data,
        if page < totalPages then Some(page + 1) else None,
        if page > 1 then Some(page - 1) else None,
        totalPages))
  }

  /** The navigation data: `total_pages` is the smallest number of pages
      that holds every row, there is a next page exactly before the last
      page and a previous page exactly after the first, and the reported
      `page_size` is the number of rows returned, which is the requested size
      for every page but the last. */
  lemma GetHyperNavigation<T>(dataset: seq<T>, page: int, pageSize: int)
    requires page >= 1 && pageSize >= 1
    ensures var h := GetHyper(dataset, page, pageSize).value;
      && h.data == GetPage(dataset, page, pageSize).value
      && (h.totalPages - 1) * pageSize < |dataset| <= h.totalPages * pageSize
      && (h.nextPage.Some? <==> page < h.totalPages) && (h.nextPage.Some? ==> h.nextPage.value == page + 1)
      && (h.prevPage.Some? <==> page > 1) && (h.prevPage.Some? ==> h.prevPage.value == page - 1)
      && h.pageSize == |h.data|
      && (page < h.totalPages ==> h.pageSize == pageSize)
  {
    GetPageContents(dataset, page, pageSize);
    var h := GetHyper(dataset, page, pageSize).value;
    if page < h.totalPages {
      MulMonotone(page, h.totalPages - 1, pageSize);
    }
  }

  lemma MulMonotone(a: int, b: int, c: nat)
    requires a <= b
    ensures a * c <= b * c
  {
    assert b * c - a * c == (b - a) * c;
  }
}
