/** The pagination step of the listing endpoint: the page slice and the
    page count. */
module Paging {
  import opened Base

  datatype Pagination = Pagination(page: int, pageSize: int, totalItems: int, totalPages: int)

  /** Python's `s[start:end]` for `0 <= start <= end`: an end past the
      sequence is clamped, a start past it yields nothing. */
  function Slice<T>(s: seq<T>, start: nat, end: nat): (r: seq<T>)
    requires start <= end
    ensures |r| == (if start < |s| then Min(end, |s|) - start else 0)
    ensures forall i :: 0 <= i < |r| ==> start + i < |s| && r[i] == s[start + i]
  {
    if start < |s| then s[start..Min(end, |s|)] else []
  }

  /** Index of the first item of page `page` (1-based). */
  function Start(page: nat, pageSize: nat): nat
    requires page >= 1
  {
    (page - 1) * pageSize
  }

  /** Page `page` (1-based) of `pageSize` items. */
  function PageItems<T>(s: seq<T>, page: nat, pageSize: nat): (r: seq<T>)
    requires page >= 1 && pageSize >= 1
    ensures |r| <= pageSize
    ensures |r| == (if Start(page, pageSize) < |s| then Min(pageSize, |s| - Start(page, pageSize)) else 0)
    ensures forall i :: 0 <= i < |r| ==> Start(page, pageSize) + i < |s|
                                         && r[i] == s[Start(page, pageSize) + i]
  {
    var start := Start(page, pageSize);
    Slice(s, start, start + pageSize)
  }

  /** `(n + pageSize - 1) // pageSize`: the least number of pages that
      holds `n` items. */
  function TotalPages(n: nat, pageSize: nat): (t: nat)
    requires pageSize >= 1
    ensures n <= t * pageSize
    ensures (t - 1) * pageSize < n
  {
    var t := (n + pageSize - 1) / pageSize;
    var r := (n + pageSize - 1) % pageSize;
    assert n + pageSize - 1 == t * pageSize + r;
    assert (t - 1) * pageSize == t * pageSize - pageSize;
    t
  }

  /** A page past the last one is empty, not an error. */
  lemma PageBeyondLastIsEmpty<T>(s: seq<T>, page: nat, pageSize: nat)
    requires page >= 1 && pageSize >= 1
    requires page > TotalPages(|s|, pageSize)
    ensures PageItems(s, page, pageSize) == []
  {
    var t := TotalPages(|s|, pageSize);
    assert (page - 1) * pageSize >= t * pageSize by {
      MultiplyMonotone(t, page - 1, pageSize);
    }
  }

  /** Every page up to the last one holds something. */
  lemma PageUpToLastIsNonEmpty<T>(s: seq<T>, page: nat, pageSize: nat)
    requires pageSize >= 1
    requires 1 <= page <= TotalPages(|s|, pageSize)
    ensures |PageItems(s, page, pageSize)| > 0
  {
    var t := TotalPages(|s|, pageSize);
    assert (page - 1) * pageSize <= (t - 1) * pageSize by {
      MultiplyMonotone(page - 1, t - 1, pageSize);
    }
  }

  /** Item `i` is found on page `i / pageSize + 1` at offset `i % pageSize`:
      the pages together list every item once, in order. */
  lemma PagesCoverItems<T>(s: seq<T>, pageSize: nat, i: nat)
    requires pageSize >= 1 && i < |s|
    ensures var page := PageItems(s, i / pageSize + 1, pageSize);
            i % pageSize < |page| && page[i % pageSize] == s[i]
  {
    var start := (i / pageSize) * pageSize;
    assert start + i % pageSize == i;
    assert start < |s|;
  }

  lemma MultiplyMonotone(a: int, b: int, c: nat)
    requires a <= b
    ensures a * c <= b * c
  {
  }
}
