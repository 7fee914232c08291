/** Pagination of a fully materialised result: a fixed page size, the page count,
    and the page window cut with JavaScript's `Array.prototype.slice`. */
module Pagination {
  import opened Wrappers

  /** `dataPerPage`. */
  const PageSize: nat := 12

  function Min(a: int, b: int): int { if a <= b then a else b }
  function Max(a: int, b: int): int { if a <= b then b else a }

  /** `Math.ceil(n / 12)`: the fewest pages of `PageSize` that hold `n` records. */
  function TotalPages(n: nat): (r: nat)
    ensures r * PageSize >= n
    ensures r == 0 || (r - 1) * PageSize < n
    ensures r == 0 <==> n == 0
  {
    (n + PageSize - 1) / PageSize
  }

  /** How `slice` reads one of its index arguments: a negative index counts back
      from the end, and the result is clamped to `[0, len]`. */
  function SliceIndex(k: int, len: nat): (r: nat)
    ensures r <= len
  {
    if k < 0 then Max(len + k, 0) else Min(k, len)
  }

  /** `s.slice(start, end)`. */
  function JsSlice<T>(s: seq<T>, start: int, end: int): seq<T>
  {
    var from, to := SliceIndex(start, |s|), SliceIndex(end, |s|);
    if from < to then s[from..to] else []
  }

  /** The page of `data` the request asks for; an absent `page` means page 1. */
  function PageOf<T>(data: seq<T>, page: Option<int>): (r: seq<T>)
    ensures |r| <= PageSize
  {
    var p := page.GetOr(1);
    JsSlice(data, (p - 1) * PageSize, (p - 1) * PageSize + PageSize)
  }

  /** For `page >= 1` the page is the contiguous window starting at `(page-1)*12`,
      cut short at the end of the data, and empty past the last page. */
  lemma PageWindow<T>(data: seq<T>, page: int)
    requires page >= 1
    ensures var start := (page - 1) * PageSize;
      PageOf(data, Some(page)) == data[Min(start, |data|)..Min(start + PageSize, |data|)]
    ensures page > TotalPages(|data|) <==> PageOf(data, Some(page)) == []
    ensures forall i :: 0 <= i < |PageOf(data, Some(page))| ==>
      PageOf(data, Some(page))[i] == data[(page - 1) * PageSize + i]
  {
  }

  /** A page number of 0 or below does not give an empty page: `slice` reads the
      negative window bounds from the end, so page 0 is empty and page -k is the
      (k+1)-th block of twelve counted back from the end. */
  lemma NonPositivePage<T>(data: seq<T>, page: int)
    requires page <= 0
    ensures page == 0 ==> PageOf(data, Some(page)) == []
    ensures page < 0 ==>
      PageOf(data, Some(page)) == data[Max(|data| + (page - 1) * PageSize, 0)..Max(|data| + page * PageSize, 0)]
  {
  }

  /** Pages 1 to k, one after the other. */
  function PagesUpTo<T>(data: seq<T>, k: nat): seq<T>
  {
    if k == 0 then [] else PagesUpTo(data, k - 1) + PageOf(data, Some(k))
  }

  lemma {:induction false} PagesUpToPrefix<T>(data: seq<T>, k: nat)
    ensures PagesUpTo(data, k) == data[..Min(k * PageSize, |data|)]
  {
    if k > 0 {
      PagesUpToPrefix(data, k - 1);
      PageWindow(data, k);
    }
  }

  /** Reading every page from 1 to `totalPages` returns every record once, in order. */
  lemma PagesCoverData<T>(data: seq<T>)
    ensures PagesUpTo(data, TotalPages(|data|)) == data
  {
    PagesUpToPrefix(data, TotalPages(|data|));
  }
}
