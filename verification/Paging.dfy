/** The paginated listings of internal/pangolin/client.go: one loop that asks
    for page after page until the reported total is reached. */
module Paging {
  import opened Text

  datatype Page<T> = Page(items: seq<T>, total: int, page: int)

  /** What one request came back with; a refused or undecodable one is Failed. */
  datatype Reply<T> = Answer(page: Page<T>) | Failed

  ghost predicate ConstantTotal<T>(fetch: int -> Reply<T>, total: int) {
    forall p :: p >= 1 && fetch(p).Answer? ==> fetch(p).page.total == total
  }

  /** The walk from a given page on. A strict walk refuses rows without a total;
      the hand-written loops for resources and sites do not. */
  ghost function Walk<T>(fetch: int -> Reply<T>, page: int, all: seq<T>, total: int, strict: bool): Option<seq<T>>
    requires page >= 1 && ConstantTotal(fetch, total)
    decreases total - |all|
  {
    if fetch(page).Failed? then None
    else
      var got := fetch(page).page;
      if got.page != 0 && got.page != page then None
      else if strict && |got.items| > 0 && total == 0 then None
      else if |got.items| == 0 || |all + got.items| >= total then Some(all + got.items)
      else Walk(fetch, page + 1, all + got.items, total, strict)
  }

  /** listPages, and with strict false the three hand-written loops. The total is
      ghost: the code compares with the one in each reply. */
  method ListPages<T>(fetch: int -> Reply<T>, strict: bool, ghost total: int) returns (r: Option<seq<T>>)
    requires ConstantTotal(fetch, total)
    ensures r == Walk(fetch, 1, [], total, strict)
  {
    var all: seq<T> := [];
    var page := 1;
    while true
      invariant page >= 1
      invariant Walk(fetch, 1, [], total, strict) == Walk(fetch, page, all, total, strict)
      decreases total - |all|
    {
      var reply := fetch(page);
      if reply.Failed? { return None; }
      var got := reply.page;
      if got.page != 0 && got.page != page { return None; }
      if strict && |got.items| > 0 && got.total == 0 { return None; }
      all := all + got.items;
      if |got.items| == 0 || |all| >= got.total { return Some(all); }
      page := page + 1;
    }
  }

  function Min(a: int, b: int): int { if a < b then a else b }

  /** A server holding a fixed row list that slices it by page and reports the
      given total. */
  function Slice<T>(rows: seq<T>, size: int, p: int): seq<T>
    requires size >= 1
  {
    if p < 1 then []
    else
      var start := Min((p - 1) * size, |rows|);
      var end := Min(start + size, |rows|);
      if 0 <= start then rows[start..end] else []
  }

  function Serve<T>(rows: seq<T>, size: int, total: int): int -> Reply<T>
    requires size >= 1
  {
    p => if p < 1 then Answer(Page(Slice(rows, size, 1), total, 1)) else Answer(Page(Slice(rows, size, p), total, p))
  }

  /** How many pages a walk reads before it believes the reported total. */
  function PagesFor(total: int, size: int): (n: int)
    requires size >= 1
    ensures n >= 1
    ensures (n - 1) * size < total || n == 1
    ensures total <= n * size
  {
    if total <= 0 then 1 else (total - 1) / size + 1
  }

  lemma Monotone(a: int, b: int, size: int)
    requires a <= b && size >= 1
    ensures a * size <= b * size
  {}

  lemma SliceExtends<T>(rows: seq<T>, size: int, p: int)
    requires size >= 1 && p >= 1 && (p - 1) * size <= |rows|
    ensures (p - 1) * size >= 0 && p * size == (p - 1) * size + size
    ensures |Slice(rows, size, p)| == Min(p * size, |rows|) - (p - 1) * size
    ensures rows[..(p - 1) * size] + Slice(rows, size, p) == rows[..Min(p * size, |rows|)]
  {
    Monotone(0, p - 1, size);
  }

  /** The walk from page p on, with every earlier page collected. */
  lemma {:induction false} WalkFrom<T>(rows: seq<T>, size: int, total: int, strict: bool, p: int)
    requires size >= 1 && p >= 1
    requires !(strict && total == 0 && rows != [])
    requires 0 <= (p - 1) * size <= |rows| && p <= PagesFor(total, size)
    ensures Walk(Serve(rows, size, total), p, rows[..(p - 1) * size], total, strict)
         == Some(rows[..Min(|rows|, size * PagesFor(total, size))])
    decreases PagesFor(total, size) - p
  {
    var n := PagesFor(total, size);
    SliceExtends(rows, size, p);
    Monotone(p, n, size);
    var end := Min(p * size, |rows|);
    if end == |rows| {
      assert rows[..end] == rows;
      assert Min(|rows|, size * n) == |rows|;
      NextPageIsEmpty(rows, size, total, strict, p);
    } else if p == n {
      assert end == Min(|rows|, size * n);
    } else {
      Monotone(p, n - 1, size);
      WalkFrom(rows, size, total, strict, p + 1);
    }
  }

  lemma NextPageIsEmpty<T>(rows: seq<T>, size: int, total: int, strict: bool, p: int)
    requires size >= 1 && p >= 1 && p * size >= |rows|
    ensures Walk(Serve(rows, size, total), p + 1, rows, total, strict) == Some(rows)
  {
    assert Slice(rows, size, p + 1) == [];
    assert rows + Slice(rows, size, p + 1) == rows;
  }

  /** Whatever total a server reports for its rows, the walk returns the pages
      that total accounts for, at least the first; only a strict walk notices
      rows without a total. */
  lemma WalkReturnsReportedPages<T>(rows: seq<T>, size: int, total: int, strict: bool)
    requires size >= 1
    ensures Walk(Serve(rows, size, total), 1, [], total, strict)
         == if strict && total == 0 && rows != [] then None
            else Some(rows[..Min(|rows|, size * PagesFor(total, size))])
  {
    if strict && total == 0 && rows != [] {
      assert |Slice(rows, size, 1)| > 0;
    } else {
      assert 0 * size == 0 && rows[..0] == [];
      WalkFrom(rows, size, total, strict, 1);
    }
  }

  /** With a truthful total every listing is complete and in order. */
  lemma TruthfulListingIsComplete<T>(rows: seq<T>, size: int, strict: bool)
    requires size >= 1
    ensures Walk(Serve(rows, size, |rows|), 1, [], |rows|, strict) == Some(rows)
  {
    WalkReturnsReportedPages(rows, size, |rows|, strict);
    assert rows[..|rows|] == rows;
  }

  /** The hand-written loops return everything exactly when the rows fit the pages
      the reported total accounts for: an absent total truncates a listing longer
      than one page without an error. */
  lemma LenientListingCompleteIff<T>(rows: seq<T>, size: int, total: int)
    requires size >= 1
    ensures Walk(Serve(rows, size, total), 1, [], total, false) == Some(rows)
            <==> |rows| <= size * PagesFor(total, size)
  {
    WalkReturnsReportedPages(rows, size, total, false);
    assert rows[..|rows|] == rows;
  }

  /** An instance that ignores the page parameter makes the walk fail unless its
      first page already completes the listing. */
  lemma StalledServerFails<T>(first: Page<T>, strict: bool)
    requires first.page == 1 && first.items != [] && |first.items| < first.total
    ensures var fetch := (p: int) => Answer(first);
            ConstantTotal(fetch, first.total) && Walk(fetch, 1, [], first.total, strict) == None
  {
    var fetch := (p: int) => Answer(first);
    assert [] + first.items == first.items;
    assert Walk(fetch, 2, first.items, first.total, strict) == None;
  }
}
