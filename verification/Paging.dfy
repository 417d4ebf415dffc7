/** Pages of a list. */
module Paging {

  const DEFAULT_PAGE_SIZE := 50

  function PageSize(pageSize: int): (n: nat)
    ensures n > 0
    ensures pageSize > 0 ==> n == pageSize
    ensures pageSize <= 0 ==> n == 50
  {
    if pageSize <= 0 then DEFAULT_PAGE_SIZE else pageSize
  }

  function Paginate<T>(items: seq<T>, page: int, pageSize: int): seq<T> {
    var size := PageSize(pageSize);
    var start := (if page < 1 then 0 else page - 1) * size;
    if start >= |items| then []
    else items[start..if start + size > |items| then |items| else start + size]
  }

  /** The first `n` pages, one after the other. */
  function Pages<T>(items: seq<T>, n: nat, pageSize: int): seq<T> {
    if n == 0 then [] else Pages(items, n - 1, pageSize) + Paginate(items, n, pageSize)
  }

  /** Where the first `n` pages of `size` end, if the list is long enough. */
  function Offset(n: nat, size: nat): nat {
    if n == 0 then 0 else Offset(n - 1, size) + size
  }

  lemma {:induction false} OffsetIsProduct(n: nat, size: nat)
    ensures Offset(n, size) == n * size
  {
    if n > 0 {
      OffsetIsProduct(n - 1, size);
    }
  }

  lemma {:induction false} OffsetsGrow(n: nat, m: nat, size: nat)
    requires n <= m
    ensures Offset(n, size) <= Offset(m, size)
    decreases m
  {
    if n < m {
      OffsetsGrow(n, m - 1, size);
    }
  }

  function UpTo<T>(items: seq<T>, end: nat): nat {
    if end > |items| then |items| else end
  }

  lemma PageIsSlice<T>(items: seq<T>, n: nat, pageSize: int)
    requires n >= 1
    ensures var size := PageSize(pageSize);
            var start, end := UpTo(items, Offset(n - 1, size)), UpTo(items, Offset(n, size));
            start <= end && Paginate(items, n, pageSize) == items[start..end]
  {
    OffsetIsProduct(n - 1, PageSize(pageSize));
  }

  lemma {:induction false} PagesArePrefix<T>(items: seq<T>, n: nat, pageSize: int)
    ensures Pages(items, n, pageSize) == items[..UpTo(items, Offset(n, PageSize(pageSize)))]
  {
    if n > 0 {
      PagesArePrefix(items, n - 1, pageSize);
      PageIsSlice(items, n, pageSize);
    }
  }

  lemma EnoughPages<T>(items: seq<T>, n: nat, pageSize: int)
    requires Offset(n, PageSize(pageSize)) >= |items|
    ensures Pages(items, n, pageSize) == items
  {
    PagesArePrefix(items, n, pageSize);
    assert items[..|items|] == items;
  }

  lemma NothingAfter<T>(items: seq<T>, n: nat, m: nat, pageSize: int)
    requires Offset(n, PageSize(pageSize)) >= |items| && m > n
    ensures Paginate(items, m, pageSize) == []
  {
    OffsetsGrow(n, m - 1, PageSize(pageSize));
    PageIsSlice(items, m, pageSize);
  }

  lemma FullPage<T>(items: seq<T>, m: nat, pageSize: int)
    requires Offset(m, PageSize(pageSize)) <= |items| && m >= 1
    ensures |Paginate(items, m, pageSize)| == PageSize(pageSize)
  {
    PageIsSlice(items, m, pageSize);
  }

  /** A page number that is not positive asks for the first page. */
  lemma FirstPageByDefault<T>(items: seq<T>, page: int, pageSize: int)
    requires page < 1
    ensures Paginate(items, page, pageSize) == Paginate(items, 1, pageSize)
  {
  }

  /** The pages partition the list: enough of them give every item once and in order, each page but the
      last is full, and there is nothing after the last. */
  lemma PagesPartition<T>(items: seq<T>, n: nat, m: nat, pageSize: int)
    requires n * PageSize(pageSize) >= |items| && m >= 1
    ensures Pages(items, n, pageSize) == items
    ensures m > n ==> Paginate(items, m, pageSize) == []
    ensures m * PageSize(pageSize) <= |items| ==> |Paginate(items, m, pageSize)| == PageSize(pageSize)
  {
    var size := PageSize(pageSize);
    OffsetIsProduct(n, size);
    OffsetIsProduct(m, size);
    EnoughPages(items, n, pageSize);
    if m > n {
      NothingAfter(items, n, m, pageSize);
    }
    if m * size <= |items| {
      FullPage(items, m, pageSize);
    }
  }
}
