/**
 * `PaginatedResult<T>` and the paging arithmetic that every listing service repeats:
 * `TotalPages = (int)Math.Ceiling((double)totalCount / PageSize)`,
 * `HasPreviousPage = PageNumber > 1`, `HasNextPage = PageNumber < TotalPages`,
 * together with LINQ's `Skip`/`Take` (MongoDB's `$skip`/`$limit` agree with them on
 * the arguments the services pass).
 */
module Pagination {

  import opened Sorting

  datatype PaginatedResult<T> = PaginatedResult(
    items: seq<T>,
    totalCount: int,
    pageNumber: int,
    pageSize: int,
    totalPages: int,
    hasPreviousPage: bool,
    hasNextPage: bool)

  /**
   * The ceiling of `n / d`. For the counts and page sizes the services see
   * (`int` counts, page sizes up to 100) this is exactly what rounding the `double`
   * quotient up gives.
   */
  function CeilDiv(n: nat, d: nat): (q: nat)
    requires 0 < d
    ensures n <= q * d < n + d
  {
    var q := (n + d - 1) / d;
    assert n + d - 1 == q * d + (n + d - 1) % d;
    q
  }

  /** Multiplying by a non-negative factor keeps the order. */
  lemma MulMonotone(a: int, b: int, d: int)
    requires 0 <= d
    ensures a <= b ==> a * d <= b * d
  {
    if a <= b {
      assert b * d - a * d == (b - a) * d;
    }
  }

  /** The ceiling is the least number of pages of `d` items that hold `n` items. */
  lemma CeilDivIsLeast(n: nat, d: nat, k: nat)
    requires 0 < d
    requires n <= k * d
    ensures CeilDiv(n, d) <= k
  {
    var q := CeilDiv(n, d);
    MulMonotone(k, q - 1, d);
    assert (q - 1) * d == q * d - d;
  }

  /** No items need no pages, and some items need at least one. */
  lemma CeilDivZero(n: nat, d: nat)
    requires 0 < d
    ensures CeilDiv(n, d) == 0 <==> n == 0
  {
    MulMonotone(1, CeilDiv(n, d), d);
  }

  /** The result every listing service builds from one page of items and the total count. */
  function Paged<T>(items: seq<T>, totalCount: nat, pageNumber: int, pageSize: int): (r: PaginatedResult<T>)
    requires 0 < pageSize
  {
    var totalPages := CeilDiv(totalCount, pageSize);
    PaginatedResult(items, totalCount, pageNumber, pageSize, totalPages, pageNumber > 1, pageNumber < totalPages)
  }

  /** The metadata invariant of a page: no pages exactly when there are no items, and then no next page. */
  lemma TotalPagesZeroIffEmpty<T>(items: seq<T>, totalCount: nat, pageNumber: int, pageSize: int)
    requires 0 < pageSize
    ensures Paged(items, totalCount, pageNumber, pageSize).totalPages == 0 <==> totalCount == 0
    ensures totalCount == 0 && 0 <= pageNumber ==> !Paged(items, totalCount, pageNumber, pageSize).hasNextPage
  {
    CeilDivZero(totalCount, pageSize);
  }

  /** `TotalPages` pages of `PageSize` hold every item, and one page fewer would not. */
  lemma TotalPagesCoverCount<T>(items: seq<T>, totalCount: nat, pageNumber: int, pageSize: int)
    requires 0 < pageSize
    ensures var r := Paged(items, totalCount, pageNumber, pageSize);
            (r.totalPages - 1) * pageSize < totalCount <= r.totalPages * pageSize
  {
  }

  /** There is a next page exactly when some item lies beyond the end of this one. */
  lemma HasNextIffItemsRemain<T>(items: seq<T>, totalCount: nat, pageNumber: int, pageSize: int)
    requires 0 < pageSize && 1 <= pageNumber
    ensures Paged(items, totalCount, pageNumber, pageSize).hasNextPage <==> pageNumber * pageSize < totalCount
  {
    var q := CeilDiv(totalCount, pageSize);
    if pageNumber < q {
      MulMonotone(pageNumber, q - 1, pageSize);
      assert (q - 1) * pageSize == q * pageSize - pageSize;
    } else {
      MulMonotone(q, pageNumber, pageSize);
    }
  }

  /** On or after the last page there is no next page, and before it there is one. */
  lemma NoNextPageFromLastPage<T>(items: seq<T>, totalCount: nat, pageNumber: int, pageSize: int)
    requires 0 < pageSize
    ensures var r := Paged(items, totalCount, pageNumber, pageSize);
            (pageNumber >= r.totalPages ==> !r.hasNextPage) && (pageNumber < r.totalPages ==> r.hasNextPage)
  {
  }

  // ---------------------------------------------------------------------------
  // LINQ Skip / Take

  /** `Enumerable.Skip(n)`: a count of zero or less skips nothing, a count past the end leaves nothing. */
  function LinqSkip<T>(s: seq<T>, n: int): (r: seq<T>)
    ensures |r| == if n <= 0 then |s| else if n >= |s| then 0 else |s| - n
    ensures forall i | 0 <= i < |r| :: r[i] == s[i + (if n <= 0 then 0 else n)]
  {
    if n <= 0 then s else if n >= |s| then [] else s[n..]
  }

  /** `Enumerable.Take(n)`: a count of zero or less takes nothing. */
  function LinqTake<T>(s: seq<T>, n: int): (r: seq<T>)
    ensures |r| == if n <= 0 then 0 else if n >= |s| then |s| else n
    ensures r <= s
  {
    if n <= 0 then [] else if n >= |s| then s else s[..n]
  }

  /** `s.Skip(skip).Take(take)`. */
  function Window<T>(s: seq<T>, skip: int, take: int): seq<T> {
    LinqTake(LinqSkip(s, skip), take)
  }

  function Min(a: int, b: int): int { if a <= b then a else b }
  function Max(a: int, b: int): int { if a <= b then b else a }

  /** A window is the slice `[skip, skip + take)`, cut off at the end of `s`. */
  lemma WindowIsSlice<T>(s: seq<T>, skip: int, take: int)
    requires 0 <= skip && 0 <= take
    ensures |Window(s, skip, take)| == Min(take, Max(0, |s| - skip))
    ensures forall i | 0 <= i < |Window(s, skip, take)| :: Window(s, skip, take)[i] == s[skip + i]
  {
  }

  /** A page after the last one is empty. */
  lemma PageBeyondLastIsEmpty<T>(s: seq<T>, pageNumber: int, pageSize: int)
    requires 0 < pageSize
    requires CeilDiv(|s|, pageSize) < pageNumber
    ensures Window(s, (pageNumber - 1) * pageSize, pageSize) == []
  {
    var q := CeilDiv(|s|, pageSize);
    assert q * pageSize <= (pageNumber - 1) * pageSize;
  }

  /** Every item lies on exactly one page: item `i` is entry `i % size` of page `i / size + 1`. */
  lemma ItemOnItsPage<T>(s: seq<T>, i: int, pageSize: int)
    requires 0 < pageSize && 0 <= i < |s|
    ensures var page := Window(s, (i / pageSize) * pageSize, pageSize);
            i % pageSize < |page| && page[i % pageSize] == s[i]
  {
    var k := i / pageSize;
    assert i == k * pageSize + i % pageSize;
    WindowIsSlice(s, k * pageSize, pageSize);
  }

  /** A window of a sequence sorted by a key is sorted by it. */
  lemma WindowKeepsDescending<T>(s: seq<T>, key: T -> int, skip: int, take: int)
    requires IsDescending(s, key) && 0 <= skip && 0 <= take
    ensures IsDescending(Window(s, skip, take), key)
    ensures forall x | x in Window(s, skip, take) :: x in s
  {
    WindowIsSlice(s, skip, take);
    var w := Window(s, skip, take);
    forall i, j | 0 <= i < j < |w| ensures key(w[i]) >= key(w[j]) {
      assert w[i] == s[skip + i] && w[j] == s[skip + j];
    }
    forall x | x in w ensures x in s {
      var i :| 0 <= i < |w| && w[i] == x;
      assert s[skip + i] == x;
    }
  }

  /** A row of the page is a row of what was paged. */
  lemma WindowMember<T>(s: seq<T>, skip: int, take: int, x: T)
    requires 0 <= skip && 0 <= take && x in Window(s, skip, take)
    ensures x in s
  {
    WindowIsSlice(s, skip, take);
    var i :| 0 <= i < |Window(s, skip, take)| && Window(s, skip, take)[i] == x;
    assert s[skip + i] == x;
  }

  /** Of a sequence sorted by a key, a window holds no smaller key than a window that starts after it ends. */
  lemma WindowsAreOrdered<T>(s: seq<T>, key: T -> int, skip1: int, take1: int, skip2: int, take2: int)
    requires IsDescending(s, key) && 0 <= skip1 && 0 <= take1 && skip1 + take1 <= skip2 && 0 <= take2
    ensures forall i, j | 0 <= i < |Window(s, skip1, take1)| && 0 <= j < |Window(s, skip2, take2)| ::
      key(Window(s, skip1, take1)[i]) >= key(Window(s, skip2, take2)[j])
  {
    WindowIsSlice(s, skip1, take1);
    WindowIsSlice(s, skip2, take2);
  }
}
