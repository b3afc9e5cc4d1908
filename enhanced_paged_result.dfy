/** `EnhancedPagedResult<T>`: one page of a listing, with the page arithmetic and the
    envelope flags of `ApiResponse`. */
module EnhancedPaging {
  import opened Wrappers
  import opened ApiResponses

  datatype EnhancedPagedResult<T> = EnhancedPagedResult(
    items: seq<T>, pageNumber: int, pageSize: int, totalCount: int, totalPages: int,
    hasPreviousPage: bool, hasNextPage: bool,
    isSuccess: bool, hasWarnings: bool, errors: seq<string>, warnings: seq<string>)

  /** `PagedResult<T>` as `FromPagedResult` reads it. */
  datatype PagedResult<T> = PagedResult(
    items: seq<T>, pageNumber: int, pageSize: int, totalCount: int, totalPages: int,
    hasPreviousPage: bool, hasNextPage: bool)

  /** `(int)Math.Ceiling(totalCount / (double)pageSize)`: the fewest pages of `pageSize`
      items that hold `totalCount` items. */
  function PageCount(totalCount: int, pageSize: int): (n: int)
    requires pageSize > 0
    ensures (n - 1) * pageSize < totalCount <= n * pageSize
  {
    var q := (-totalCount) / pageSize;
    var m := (-totalCount) % pageSize;
    assert -totalCount == q * pageSize + m;
    assert (-q - 1) * pageSize == -q * pageSize - pageSize;
    -q
  }

  /** No items need no pages, a non-negative count needs a non-negative number of them,
      and at most one page's worth needs one page. */
  lemma PageCountBounds(totalCount: int, pageSize: int)
    requires pageSize > 0
    ensures totalCount == 0 ==> PageCount(totalCount, pageSize) == 0
    ensures totalCount >= 0 ==> PageCount(totalCount, pageSize) >= 0
    ensures 0 < totalCount <= pageSize ==> PageCount(totalCount, pageSize) == 1
  {
  }

  /** The page arithmetic of the constructor. */
  predicate PagingConsistent<T>(r: EnhancedPagedResult<T>) {
    && r.pageSize > 0
    && r.totalPages == PageCount(r.totalCount, r.pageSize)
    && (r.hasPreviousPage <==> r.pageNumber > 1)
    && (r.hasNextPage <==> r.pageNumber < r.totalPages)
  }

  /** The constructor, for a positive page size. */
  function NewEnhancedPagedResult<T>(items: seq<T>, pageNumber: int, pageSize: int, totalCount: int)
    : (r: EnhancedPagedResult<T>)
    requires pageSize > 0
    ensures r.items == items && r.pageNumber == pageNumber && r.pageSize == pageSize && r.totalCount == totalCount
    ensures PagingConsistent(r)
    ensures r.isSuccess && !r.hasWarnings && r.errors == [] && r.warnings == []
  {
    var totalPages := PageCount(totalCount, pageSize);
    EnhancedPagedResult(items, pageNumber, pageSize, totalCount, totalPages,
                        pageNumber > 1, pageNumber < totalPages, true, false, [], [])
  }

  /** There is a next page exactly when the items of the pages up to this one do not
      reach the total; a page numbered from 1 lies within the pages exactly when some
      item falls on it. */
  lemma NextPageMeansMoreItems<T>(r: EnhancedPagedResult<T>)
    requires PagingConsistent(r)
    ensures r.hasNextPage <==> r.pageNumber * r.pageSize < r.totalCount
    ensures r.pageNumber <= r.totalPages <==> (r.pageNumber - 1) * r.pageSize < r.totalCount
  {
    var n, p, s, c := r.totalPages, r.pageNumber, r.pageSize, r.totalCount;
    assert (n - 1) * s < c <= n * s;
    if p < n {
      assert p * s <= (n - 1) * s;
    } else {
      assert p * s >= n * s;
    }
    if p <= n {
      assert (p - 1) * s <= (n - 1) * s;
    } else {
      assert (p - 1) * s >= n * s;
    }
  }

  /** `FromPagedResult`: the page copied as it is, successful, with the given warnings. */
  function FromPagedResult<T>(page: PagedResult<T>, warnings: Option<seq<string>>): (r: EnhancedPagedResult<T>)
    ensures r.items == page.items && r.pageNumber == page.pageNumber && r.pageSize == page.pageSize
    ensures r.totalCount == page.totalCount && r.totalPages == page.totalPages
    ensures r.hasPreviousPage == page.hasPreviousPage && r.hasNextPage == page.hasNextPage
    ensures r.isSuccess && r.errors == []
    ensures r.hasWarnings <==> AnyWarnings(warnings)
    ensures r.warnings == WarningsOrEmpty(warnings)
    ensures r.hasWarnings <==> r.warnings != []
  {
    EnhancedPagedResult(page.items, page.pageNumber, page.pageSize, page.totalCount, page.totalPages,
                        page.hasPreviousPage, page.hasNextPage, true, AnyWarnings(warnings), [],
                        WarningsOrEmpty(warnings))
  }

  /** `Success`: the constructor's page, then the warnings set on it. */
  function Success<T>(items: seq<T>, pageNumber: int, pageSize: int, totalCount: int,
                      warnings: Option<seq<string>>): (r: EnhancedPagedResult<T>)
    requires pageSize > 0
    ensures r.items == items && r.pageNumber == pageNumber && r.pageSize == pageSize && r.totalCount == totalCount
    ensures PagingConsistent(r)
    ensures r.isSuccess && r.errors == []
    ensures r.hasWarnings <==> AnyWarnings(warnings)
    ensures r.warnings == WarningsOrEmpty(warnings)
    ensures r.hasWarnings <==> r.warnings != []
  {
    NewEnhancedPagedResult(items, pageNumber, pageSize, totalCount)
      .(hasWarnings := AnyWarnings(warnings), warnings := WarningsOrEmpty(warnings))
  }

  /** `Failure`: an empty page with every count 0. */
  function Failure<T>(errors: seq<string>): (r: EnhancedPagedResult<T>)
    ensures r.items == [] && r.pageNumber == 0 && r.pageSize == 0 && r.totalCount == 0 && r.totalPages == 0
    ensures !r.hasPreviousPage && !r.hasNextPage
    ensures !r.isSuccess && !r.hasWarnings && r.errors == errors && r.warnings == []
  {
    EnhancedPagedResult([], 0, 0, 0, 0, false, false, false, false, errors, [])
  }

  /** `ToApiResponseList`: the total count becomes the total and the page number the
      page index; items and flags are kept. */
  function ToApiResponseList<T>(r: EnhancedPagedResult<T>): (l: ApiResponseList<T>)
    ensures l.total == r.totalCount && l.pageIndex == r.pageNumber && l.items == r.items
    ensures l.isSuccess == r.isSuccess && l.hasWarnings == r.hasWarnings
    ensures l.errors == r.errors && l.warnings == r.warnings
  {
    ApiResponseList(r.totalCount, r.pageNumber, r.items, r.isSuccess, r.hasWarnings, r.errors, r.warnings)
  }

  /** Every envelope the factories build converts into a consistent list envelope. */
  lemma ConversionKeepsConsistency<T>(items: seq<T>, pageNumber: int, pageSize: int, totalCount: int,
                                      warnings: Option<seq<string>>, errors: seq<string>)
    requires pageSize > 0
    ensures ListConsistent(ToApiResponseList(Success(items, pageNumber, pageSize, totalCount, warnings)))
    ensures ListConsistent(ToApiResponseList(Failure<T>(errors)))
  {
  }

  /** A failed page converts into the list failure with no items. */
  lemma FailureConvertsToListFailure<T>(errors: seq<string>)
    ensures ToApiResponseList(Failure<T>(errors)) == ListFailure(errors, None)
  {
  }
}
