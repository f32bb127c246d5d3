/** `PageRequest.of(page, size)` and the content of one page of a query result. */
module Paging {
  import opened Wrappers
  import opened Errors

  datatype PageRequest = PageRequest(pageNumber: nat, pageSize: nat)

  /** `PageRequest.of` rejects a negative page index and a page size below one. */
  function PageRequestOf(page: int, size: int): (r: Result<PageRequest, Error>)
    ensures r.Success? <==> page >= 0 && size >= 1
    ensures r.Success? ==> r.value.pageNumber == page && r.value.pageSize == size
    ensures page < 0 ==> r == Failure(IllegalArgument("Page index must not be less than zero"))
    ensures page >= 0 && size < 1 ==> r == Failure(IllegalArgument("Page size must not be less than one"))
  {
    if page < 0 then Failure(IllegalArgument("Page index must not be less than zero"))
    else if size < 1 then Failure(IllegalArgument("Page size must not be less than one"))
    else Success(PageRequest(page, size))
  }

  /** `Page.getContent()`: the rows from offset `pageNumber * pageSize`, at most `pageSize` of them. */
  function PageContent<T>(xs: seq<T>, p: PageRequest): (r: seq<T>)
    ensures |r| <= p.pageSize
    ensures |r| == if p.pageNumber * p.pageSize >= |xs| then 0
                   else if |xs| - p.pageNumber * p.pageSize < p.pageSize then |xs| - p.pageNumber * p.pageSize
                   else p.pageSize
    ensures forall i :: 0 <= i < |r| ==> r[i] == xs[p.pageNumber * p.pageSize + i]
  {
    var offset := p.pageNumber * p.pageSize;
    if offset >= |xs| then []
    else if |xs| - offset < p.pageSize then xs[offset..]
    else xs[offset..offset + p.pageSize]
  }

  /** A page is one contiguous slice of the result. */
  lemma PageSlice<T>(xs: seq<T>, p: PageRequest) returns (lo: nat, hi: nat)
    ensures lo <= hi <= |xs| && PageContent(xs, p) == xs[lo..hi]
  {
    var offset := p.pageNumber * p.pageSize;
    if offset >= |xs| {
      lo, hi := |xs|, |xs|;
    } else if |xs| - offset < p.pageSize {
      lo, hi := offset, |xs|;
    } else {
      lo, hi := offset, offset + p.pageSize;
    }
  }

  /** A page holds rows of the result only. */
  lemma PageContentSubset<T>(xs: seq<T>, p: PageRequest)
    ensures forall x :: x in PageContent(xs, p) ==> x in xs
  {
    var r := PageContent(xs, p);
    forall x | x in r
      ensures x in xs
    {
      var i :| 0 <= i < |r| && r[i] == x;
      assert xs[p.pageNumber * p.pageSize + i] == x;
    }
  }

  /** The pages of a result cover it: row `k` is row `k % size` of page `k / size`. */
  lemma PagesCover<T>(xs: seq<T>, size: nat, k: nat)
    requires size >= 1 && k < |xs|
    ensures var p := PageRequest(k / size, size);
            k % size < |PageContent(xs, p)| && PageContent(xs, p)[k % size] == xs[k]
  {
    var q, rem := k / size, k % size;
    assert q * size + rem == k;
    assert q * size <= k;
  }

  /** Every row of a result is on some page. */
  lemma OnSomePage<T>(xs: seq<T>, size: nat, k: nat)
    requires size >= 1 && k < |xs|
    ensures exists page: nat :: xs[k] in PageContent(xs, PageRequest(page, size))
  {
    var q: nat, rem := k / size, k % size;
    PagesCover(xs, size, k);
    var r := PageContent(xs, PageRequest(q, size));
    assert rem < |r| && r[rem] == xs[k];
    assert xs[k] in r;
  }
}
