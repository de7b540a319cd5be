/**
 * The in-memory listing shared by `OwnerService`, `PropertyImageService` and
 * `PropertyTraceService`: load the whole collection, optionally filter and order it,
 * count it, then apply LINQ `Skip(request.Skip).Take(request.Take)` and map the page
 * to DTOs.
 */
module ServicePaging {

  import opened Entities
  import opened Pagination
  import opened Requests

  /**
   * One page of `listing`, mapped by `toDto`, with the total of the whole listing.
   * The page starts at the request's 32-bit `Skip`.
   */
  function PageInMemory<T, U>(listing: seq<T>, toDto: T -> U, pageNumber: Int32, pageSize: Int32): PaginatedResult<U>
    requires 0 < pageSize
  {
    Paged(MapAll(Window(listing, PageSkipInt32(pageNumber, pageSize), pageSize), toDto), |listing|, pageNumber, pageSize)
  }

  /**
   * A page of an accepted request whose skip fits in an `int` holds the `pageSize`
   * items that follow the earlier pages (fewer on the last page), counts the whole
   * listing, and sets its navigation flags from what lies before and after it.
   */
  lemma PageInMemoryContents<T, U>(listing: seq<T>, toDto: T -> U, pageNumber: Int32, pageSize: Int32)
    requires 1 <= pageNumber && 1 <= pageSize && PageSkip(pageNumber, pageSize) <= Int32Max
    ensures var page := PageInMemory(listing, toDto, pageNumber, pageSize);
      var skip := PageSkip(pageNumber, pageSize);
      && PageSkipInt32(pageNumber, pageSize) == skip
      && page.totalCount == |listing|
      && page.pageNumber == pageNumber && page.pageSize == pageSize
      && |page.items| == Min(pageSize, Max(0, |listing| - skip))
      && (forall i | 0 <= i < |page.items| :: page.items[i] == toDto(listing[skip + i]))
      && (page.hasNextPage <==> pageNumber * pageSize < |listing|)
      && (page.hasPreviousPage <==> pageNumber > 1)
  {
    var skip := PageSkip(pageNumber, pageSize);
    SkipIsWholePages(pageNumber, pageSize);
    SkipInt32AgreesWhenInRange(pageNumber, pageSize);
    WindowIsSlice(listing, skip, pageSize);
    HasNextIffItemsRemain(MapAll(Window(listing, skip, pageSize), toDto), |listing|, pageNumber, pageSize);
  }

  /** Item `i` of the listing, below `int.MaxValue`, is item `i % pageSize` of page `i / pageSize + 1`. */
  lemma EveryItemIsOnItsPage<T, U>(listing: seq<T>, toDto: T -> U, pageSize: Int32, i: int)
    requires 1 <= pageSize && 0 <= i < |listing| && i < Int32Max
    ensures var page := PageInMemory(listing, toDto, i / pageSize + 1, pageSize);
      i % pageSize < |page.items| && page.items[i % pageSize] == toDto(listing[i])
  {
    var q := i / pageSize;
    var pageNumber: Int32 := q + 1;
    assert q * pageSize <= i by { assert i == q * pageSize + i % pageSize; }
    assert PageSkip(pageNumber, pageSize) == q * pageSize;
    SkipInt32AgreesWhenInRange(pageNumber, pageSize);
    ItemOnItsPage(listing, i, pageSize);
    assert PageInMemory(listing, toDto, pageNumber, pageSize).items
        == MapAll(Window(listing, q * pageSize, pageSize), toDto);
  }

  /**
   * Whenever the 32-bit skip comes out zero or negative, LINQ `Skip` skips nothing,
   * so the request is served the items of page 1, whatever page it asked for.
   */
  lemma NonPositiveSkipServesFirstPage<T, U>(listing: seq<T>, toDto: T -> U, pageNumber: Int32, pageSize: Int32)
    requires 1 <= pageSize && PageSkipInt32(pageNumber, pageSize) <= 0
    ensures PageInMemory(listing, toDto, pageNumber, pageSize).items == PageInMemory(listing, toDto, 1, pageSize).items
  {
    assert PageSkipInt32(1, pageSize) == 0 by { assert WrapInt32(1 - 1) == 0; }
    assert Window(listing, PageSkipInt32(pageNumber, pageSize), pageSize) == Window(listing, 0, pageSize);
  }

  /**
   * Page 1073741825 is accepted by the validators, but its skip overflows: of size 4
   * it wraps to 0, of size 3 to a negative number, and either way the in-memory
   * listings serve page 1 where the intended page, past any listing an `int` can
   * count, is empty.
   */
  lemma OverflowingPagesServeFirstPage<T, U>(listing: seq<T>, toDto: T -> U)
    requires |listing| <= Int32Max
    ensures PageSkip(1073741825, 3) > Int32Max && PageSkip(1073741825, 4) > Int32Max
    ensures PageSkipInt32(1073741825, 3) < 0 && PageSkipInt32(1073741825, 4) == 0
    ensures PageInMemory(listing, toDto, 1073741825, 3).items == PageInMemory(listing, toDto, 1, 3).items
    ensures PageInMemory(listing, toDto, 1073741825, 4).items == PageInMemory(listing, toDto, 1, 4).items
    ensures Window(listing, PageSkip(1073741825, 3), 3) == [] && Window(listing, PageSkip(1073741825, 4), 4) == []
  {
    assert WrapInt32(1073741825 - 1) == 1073741824;
    assert WrapInt32(1073741824 * 3) == -1073741824;
    assert WrapInt32(1073741824 * 4) == 0;
    NonPositiveSkipServesFirstPage(listing, toDto, 1073741825, 3);
    NonPositiveSkipServesFirstPage(listing, toDto, 1073741825, 4);
  }
}
