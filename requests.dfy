/**
 * The request objects the services receive: paging requests with `Skip`/`Take`, and
 * the create requests the validators check.
 */
module Requests {

  import opened Wrappers
  import opened Clock
  import opened Entities
  import opened Pagination

  const Int32Min: int := -0x8000_0000
  const Int32Max: int := 0x7fff_ffff
  const Int32Range: int := 0x1_0000_0000

  /** A C# `int`. */
  type Int32 = x: int | Int32Min <= x <= Int32Max

  /** Unchecked C# `int` arithmetic: the result reduced into the 32-bit range. */
  function WrapInt32(x: int): (r: Int32)
    ensures (r - x) % Int32Range == 0
    ensures Int32Min <= x <= Int32Max ==> r == x
  {
    var m := x % Int32Range;
    if m > Int32Max then m - Int32Range else m
  }

  const DefaultPageSize: Int32 := 10
  const DefaultPageNumber: Int32 := 1

  /**
   * The number of items before page `pageNumber` of size `pageSize`, as a mathematical
   * integer: the skip the paging evidently intends.
   */
  function PageSkip(pageNumber: int, pageSize: int): int {
    (pageNumber - 1) * pageSize
  }

  /**
   * `Skip => (PageNumber - 1) * PageSize` exactly as the C# property computes it:
   * both the subtraction and the product wrap around in 32 bits. Every request's
   * `Skip()` is this value, and the services page with it.
   */
  function PageSkipInt32(pageNumber: Int32, pageSize: Int32): Int32 {
    WrapInt32(WrapInt32(pageNumber - 1) * pageSize)
  }

  /** `GetPropertiesRequest`: paging plus the optional filters. */
  datatype GetPropertiesRequest = GetPropertiesRequest(
    pageSize: Int32,
    pageNumber: Int32,
    name: Option<string>,
    address: Option<string>,
    minPrice: Option<Decimal>,
    maxPrice: Option<Decimal>)
  {
    function Skip(): Int32 { PageSkipInt32(pageNumber, pageSize) }
    function Take(): int { pageSize }
  }

  /** A request with every property left at its initializer. */
  const DefaultGetPropertiesRequest: GetPropertiesRequest :=
    GetPropertiesRequest(DefaultPageSize, DefaultPageNumber, None, None, None, None)

  datatype GetOwnersRequest = GetOwnersRequest(pageSize: Int32, pageNumber: Int32)
  {
    function Skip(): Int32 { PageSkipInt32(pageNumber, pageSize) }
    function Take(): int { pageSize }
  }

  const DefaultGetOwnersRequest: GetOwnersRequest :=
    GetOwnersRequest(DefaultPageSize, DefaultPageNumber)

  /** `GetPropertyImagesRequest`: paging plus an optional property id. */
  datatype GetPropertyImagesRequest = GetPropertyImagesRequest(
    pageSize: Int32,
    pageNumber: Int32,
    idProperty: Option<string>)
  {
    function Skip(): Int32 { PageSkipInt32(pageNumber, pageSize) }
    function Take(): int { pageSize }
  }

  /** `GetPropertyTracesRequest`: paging plus an optional property id. */
  datatype GetPropertyTracesRequest = GetPropertyTracesRequest(
    pageSize: Int32,
    pageNumber: Int32,
    idProperty: Option<string>)
  {
    function Skip(): Int32 { PageSkipInt32(pageNumber, pageSize) }
    function Take(): int { pageSize }
  }

  datatype CreatePropertyRequest = CreatePropertyRequest(
    name: string,
    address: string,
    price: Decimal,
    codeInternal: string,
    year: Int32,
    idOwner: string)

  datatype CreateOwnerRequest = CreateOwnerRequest(
    name: string,
    address: string,
    photo: string,
    birthday: DateTime)

  datatype CreatePropertyImageRequest = CreatePropertyImageRequest(
    idProperty: string,
    file: string,
    enabled: bool)

  /** A new image request: empty strings, and `Enabled` initialised to `true`. */
  const DefaultCreatePropertyImageRequest: CreatePropertyImageRequest :=
    CreatePropertyImageRequest("", "", true)

  datatype CreatePropertyTraceRequest = CreatePropertyTraceRequest(
    dateSale: DateTime,
    name: string,
    value: Decimal,
    tax: Decimal,
    idProperty: string)

  /** Page 1 starts at the first item, and each page starts right after the previous one. */
  lemma PagesAreContiguous(pageNumber: int, pageSize: int)
    ensures PageSkip(1, pageSize) == 0
    ensures PageSkip(pageNumber + 1, pageSize) == PageSkip(pageNumber, pageSize) + pageSize
  {
  }

  /** A later page starts no earlier than the end of an earlier one. */
  lemma PagesAreOrdered(earlier: int, later: int, pageSize: int)
    requires earlier < later && 0 <= pageSize
    ensures PageSkip(earlier, pageSize) + pageSize <= PageSkip(later, pageSize)
  {
    MulMonotone(earlier, later - 1, pageSize);
  }

  /** For a valid page, the skip is a non-negative multiple of the page size. */
  lemma SkipIsWholePages(pageNumber: int, pageSize: int)
    requires 1 <= pageNumber && 1 <= pageSize
    ensures 0 <= PageSkip(pageNumber, pageSize)
    ensures PageSkip(pageNumber, pageSize) % pageSize == 0
    ensures PageSkip(pageNumber, pageSize) / pageSize == pageNumber - 1
  {
    MulMonotone(0, pageNumber - 1, pageSize);
    DivModOfMultiple(pageNumber - 1, pageSize);
  }

  /** Euclidean division recovers the factor of a multiple. */
  lemma DivModOfMultiple(a: int, d: int)
    requires 0 < d
    ensures (a * d) / d == a && (a * d) % d == 0
  {
    var q, r := (a * d) / d, (a * d) % d;
    assert a * d == q * d + r;
    assert (a - q) * d == r;
    MulMonotone(1, a - q, d);
    MulMonotone(a - q, -1, d);
  }

  /** The default requests ask for the first ten items. */
  lemma DefaultRequestsStartAtZero()
    ensures DefaultGetPropertiesRequest.Skip() == 0 && DefaultGetPropertiesRequest.Take() == 10
    ensures DefaultGetOwnersRequest.Skip() == 0 && DefaultGetOwnersRequest.Take() == 10
  {
  }

  /** While the product fits in an `int`, the C# property computes the intended skip. */
  lemma SkipInt32AgreesWhenInRange(pageNumber: Int32, pageSize: Int32)
    requires Int32Min < pageNumber
    requires Int32Min <= PageSkip(pageNumber, pageSize) <= Int32Max
    ensures PageSkipInt32(pageNumber, pageSize) == PageSkip(pageNumber, pageSize)
  {
  }

  /**
   * Page 1073741825 of size 4 starts at item 4294967296, but the 32-bit product wraps
   * to 0, so the C# property sends the caller back to the first page: whatever the
   * items, the window it selects is page 1, while the intended window is empty.
   */
  lemma SkipInt32WrapsToFirstPage<T>(items: seq<T>)
    requires |items| <= Int32Max
    ensures PageSkipInt32(1073741825, 4) == 0 == PageSkip(1, 4)
    ensures PageSkip(1073741825, 4) == 4294967296
    ensures Window(items, PageSkipInt32(1073741825, 4), 4) == Window(items, PageSkip(1, 4), 4)
    ensures Window(items, PageSkip(1073741825, 4), 4) == []
  {
    assert WrapInt32(1073741825 - 1) == 1073741824;
    assert WrapInt32(1073741824 * 4) == 0;
  }
}
