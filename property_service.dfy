/**
 * `PropertyService`: cache-aside reads of the property listing and of single
 * properties, creation with cache invalidation, and the image and trace listings of
 * one property. `DateTime.UtcNow` is the parameter `now`; whether the cache's
 * deserializer (`getFails`) or serializer (`setFails`) throws is a parameter too.
 */
module PropertyService {

  import opened Wrappers
  import opened Clock
  import opened Text
  import opened Entities
  import opened DocumentStore
  import opened Linq
  import opened Sorting
  import opened Pagination
  import opened DomainExceptions
  import opened Requests
  import opened CacheService
  import opened PropertyFilters
  import opened PropertyRepository

  /** What the service stores in the cache: a listing page or a single property. */
  datatype CachedValue =
    | CachedPage(page: PaginatedResult<PropertyDto>)
    | CachedProperty(property: PropertyDto)

  const ListLifetimeMinutes: int := 5
  const PropertyLifetimeMinutes: int := 10

  // ---- Cache keys ----

  /** A nullable `decimal` in an interpolated string: empty when null. */
  function FormatPrice(d: Option<Decimal>): (s: string)
    ensures ':' !in s
    ensures s == [] <==> d.None?
  {
    if d.Some? then IntToString(d.value) else ""
  }

  function ListKeyParts(r: GetPropertiesRequest): seq<string> {
    [OrEmpty(r.name), OrEmpty(r.address), FormatPrice(r.minPrice), FormatPrice(r.maxPrice),
     IntToString(r.pageNumber), IntToString(r.pageSize)]
  }

  const ListKeyPrefix: string := "properties:"
  const PropertyKeyPrefix: string := "property:"

  /** `$"properties:{Name}:{Address}:{MinPrice}:{MaxPrice}:{PageNumber}:{PageSize}"`. */
  function ListKey(r: GetPropertiesRequest): string {
    ListKeyPrefix + Join(ListKeyParts(r), ':')
  }

  /** `$"property:{id}"`. */
  function PropertyKey(id: string): string {
    PropertyKeyPrefix + id
  }

  /** The filter criteria of a listing request. */
  function CriteriaOf(r: GetPropertiesRequest): Criteria {
    Criteria(r.name, r.address, r.minPrice, r.maxPrice)
  }

  // ---- The operations, as functions of the cache and the database ----

  /** The listing as the database gives it on a cache miss. */
  function FetchPage(db: Collections, r: GetPropertiesRequest): Result<PaginatedResult<PropertyDto>, Exception> {
    match GetPropertiesWithFilters(db, CriteriaOf(r), r.Skip(), r.Take())
    case Err(e) => Err(e)
    case Ok(items) =>
      Ok(Paged(MapAll(items, PropertyToDto), GetPropertiesCount(db, CriteriaOf(r)), r.pageNumber, r.pageSize))
  }

  /** `GetPropertiesAsync`: the result and the cache afterwards. */
  function PropertiesPage(cache: Entries<CachedValue>, db: Collections, r: GetPropertiesRequest,
                          now: DateTime, getFails: bool, setFails: bool)
    : (Result<PaginatedResult<PropertyDto>, Exception>, Entries<CachedValue>)
  {
    var key := ListKey(r);
    var (hit, cache1) := Lookup(cache, key, now, getFails);
    if hit.Some? && hit.value.CachedPage? then (Ok(hit.value.page), cache1)
    else
      match FetchPage(db, r)
      case Err(e) => (Err(e), cache1)
      case Ok(page) =>
        (Ok(page), Store(cache1, key, CachedPage(page), Some(FromMinutes(ListLifetimeMinutes)), now, setFails))
  }

  /** `GetPropertyByIdAsync`: the result and the cache afterwards. */
  function PropertyById(cache: Entries<CachedValue>, db: Collections, id: string,
                        now: DateTime, getFails: bool, setFails: bool)
    : (Result<PropertyDto, Exception>, Entries<CachedValue>)
  {
    var key := PropertyKey(id);
    var (hit, cache1) := Lookup(cache, key, now, getFails);
    if hit.Some? && hit.value.CachedProperty? then (Ok(hit.value.property), cache1)
    else
      match GetPropertyWithOwner(db, id)
      case None => (Err(NotFound("Property", id)), cache1)
      case Some(p) =>
        var dto := PropertyToDto(p);
        (Ok(dto), Store(cache1, key, CachedProperty(dto), Some(FromMinutes(PropertyLifetimeMinutes)), now, setFails))
  }

  /** The entity `CreatePropertyAsync` inserts; `id` is the `_id` the driver generates. */
  function NewProperty(r: CreatePropertyRequest, id: string, now: DateTime): Property {
    Property(id, r.name, r.address, r.price, r.codeInternal, r.year, r.idOwner, now, now, None, None)
  }

  /** `CreatePropertyAsync`: the result, the cache and the database afterwards. */
  function CreatedProperty(cache: Entries<CachedValue>, db: Collections, r: CreatePropertyRequest,
                           now: DateTime, newId: string)
    : (Result<PropertyDto, Exception>, Entries<CachedValue>, Collections)
  {
    if !HasId(db.owners, OwnerId, r.idOwner) then (Err(NotFound("Owner", r.idOwner)), cache, db)
    else
      var p := NewProperty(r, newId, now);
      (Ok(PropertyToDto(p)), cache - {PropertyKey(newId)}, db.(properties := db.properties + [p]))
  }

  /** `GetPropertyImagesAsync`: the property's enabled images, in natural order. */
  function PropertyImages(db: Collections, propertyId: string): Result<seq<PropertyImageDto>, Exception> {
    if !HasId(db.properties, PropertyId, propertyId) then Err(NotFound("Property", propertyId))
    else Ok(MapAll(Where(db.images, (i: PropertyImage) => i.idProperty == propertyId && i.enabled), ImageToDto))
  }

  /** `GetPropertyTracesAsync`: the property's traces, latest sale first. */
  function PropertyTraces(db: Collections, propertyId: string): Result<seq<PropertyTraceDto>, Exception> {
    if !HasId(db.properties, PropertyId, propertyId) then Err(NotFound("Property", propertyId))
    else Ok(MapAll(SortDescending(Where(db.traces, (t: PropertyTrace) => t.idProperty == propertyId), DateSale), TraceToDto))
  }

  // ---- The service object ----

  class PropertyService {
    const db: Database
    const cache: MemoryCache<CachedValue>

    constructor (db: Database, cache: MemoryCache<CachedValue>)
      ensures this.db == db && this.cache == cache
    {
      this.db := db;
      this.cache := cache;
    }

    method GetProperties(r: GetPropertiesRequest, now: DateTime, getFails: bool, setFails: bool)
      returns (result: Result<PaginatedResult<PropertyDto>, Exception>)
      modifies cache
      ensures (result, cache.entries) == PropertiesPage(old(cache.entries), db.Contents(), r, now, getFails, setFails)
    {
      var key := ListKey(r);
      var cached := cache.Get(key, now, getFails);
      if cached.Some? && cached.value.CachedPage? {
        return Ok(cached.value.page);
      }
      var properties := GetPropertiesWithFilters(db.Contents(), CriteriaOf(r), r.Skip(), r.Take());
      if properties.Err? {
        return Err(properties.error);
      }
      var totalCount := GetPropertiesCount(db.Contents(), CriteriaOf(r));
      var page := Paged(MapAll(properties.value, PropertyToDto), totalCount, r.pageNumber, r.pageSize);
      cache.Set(key, CachedPage(page), Some(FromMinutes(ListLifetimeMinutes)), now, setFails);
      return Ok(page);
    }

    method GetPropertyById(id: string, now: DateTime, getFails: bool, setFails: bool)
      returns (result: Result<PropertyDto, Exception>)
      modifies cache
      ensures (result, cache.entries) == PropertyById(old(cache.entries), db.Contents(), id, now, getFails, setFails)
    {
      var key := PropertyKey(id);
      var cached := cache.Get(key, now, getFails);
      if cached.Some? && cached.value.CachedProperty? {
        return Ok(cached.value.property);
      }
      var property := GetPropertyWithOwner(db.Contents(), id);
      if property.None? {
        return Err(NotFound("Property", id));
      }
      var dto := PropertyToDto(property.value);
      cache.Set(key, CachedProperty(dto), Some(FromMinutes(PropertyLifetimeMinutes)), now, setFails);
      return Ok(dto);
    }

    method CreateProperty(r: CreatePropertyRequest, now: DateTime, newId: string)
      returns (result: Result<PropertyDto, Exception>)
      requires db.Valid() && !HasId(db.properties, PropertyId, newId)
      modifies db, cache
      ensures db.Valid()
      ensures (result, cache.entries, db.Contents())
              == CreatedProperty(old(cache.entries), old(db.Contents()), r, now, newId)
    {
      if !HasId(db.owners, OwnerId, r.idOwner) {
        return Err(NotFound("Owner", r.idOwner));
      }
      var property := NewProperty(r, newId, now);
      db.AddProperty(property);
      var dto := PropertyToDto(property);
      cache.RemoveByPattern(ListKeyPrefix + "*");
      cache.Remove(PropertyKey(dto.id));
      return Ok(dto);
    }

    method GetPropertyImages(propertyId: string) returns (result: Result<seq<PropertyImageDto>, Exception>)
      ensures result == PropertyImages(db.Contents(), propertyId)
    {
      if !HasId(db.properties, PropertyId, propertyId) {
        return Err(NotFound("Property", propertyId));
      }
      var images := Where(db.images, (i: PropertyImage) => i.idProperty == propertyId && i.enabled);
      return Ok(MapAll(images, ImageToDto));
    }

    method GetPropertyTraces(propertyId: string) returns (result: Result<seq<PropertyTraceDto>, Exception>)
      ensures result == PropertyTraces(db.Contents(), propertyId)
    {
      if !HasId(db.properties, PropertyId, propertyId) {
        return Err(NotFound("Property", propertyId));
      }
      var traces := Where(db.traces, (t: PropertyTrace) => t.idProperty == propertyId);
      return Ok(MapAll(SortDescending(traces, DateSale), TraceToDto));
    }
  }

  // ---- Cache keys ----

  /** The two key families never meet, so a listing and a property never share an entry. */
  lemma ListKeyIsNeverPropertyKey(r: GetPropertiesRequest, id: string)
    ensures ListKey(r) != PropertyKey(id)
  {
    assert ListKey(r)[7] == 'i';
    assert PropertyKey(id)[7] == 'y';
  }

  lemma FormatPriceInjective(a: Option<Decimal>, b: Option<Decimal>)
    requires FormatPrice(a) == FormatPrice(b)
    ensures a == b
  {
    if a.Some? && b.Some? {
      IntToStringInjective(a.value, b.value);
    }
  }

  /**
   * When neither name nor address contains ':', two requests share a listing key
   * exactly when they agree on every parameter (a null text and an empty one count
   * as the same).
   */
  lemma ListKeyIdentifiesRequest(r1: GetPropertiesRequest, r2: GetPropertiesRequest)
    requires ':' !in OrEmpty(r1.name) && ':' !in OrEmpty(r1.address)
    requires ':' !in OrEmpty(r2.name) && ':' !in OrEmpty(r2.address)
    ensures ListKey(r1) == ListKey(r2) <==>
      && OrEmpty(r1.name) == OrEmpty(r2.name) && OrEmpty(r1.address) == OrEmpty(r2.address)
      && r1.minPrice == r2.minPrice && r1.maxPrice == r2.maxPrice
      && r1.pageNumber == r2.pageNumber && r1.pageSize == r2.pageSize
  {
    if ListKey(r1) == ListKey(r2) {
      var a, b := ListKeyParts(r1), ListKeyParts(r2);
      assert ListKey(r1)[|ListKeyPrefix|..] == Join(a, ':');
      assert ListKey(r2)[|ListKeyPrefix|..] == Join(b, ':');
      JoinInjective(a, b, ':');
      assert a[2] == b[2] && a[3] == b[3] && a[4] == b[4] && a[5] == b[5];
      FormatPriceInjective(r1.minPrice, r2.minPrice);
      FormatPriceInjective(r1.maxPrice, r2.maxPrice);
      IntToStringInjective(r1.pageNumber, r2.pageNumber);
      IntToStringInjective(r1.pageSize, r2.pageSize);
    }
  }

  /** A null name and an empty one share a key, and they filter the same way. */
  lemma NullAndEmptyNameAgree(r: GetPropertiesRequest, p: Property)
    ensures ListKey(r.(name := None)) == ListKey(r.(name := Some("")))
    ensures PropertyMatches(CriteriaOf(r.(name := None)), p) <==> PropertyMatches(CriteriaOf(r.(name := Some(""))), p)
  {
  }

  /** Two requests whose texts differ only in where a ':' sits. */
  const ColonInName: GetPropertiesRequest := DefaultGetPropertiesRequest.(name := Some("a:b"), address := Some("c"))
  const ColonInAddress: GetPropertiesRequest := DefaultGetPropertiesRequest.(name := Some("a"), address := Some("b:c"))

  /** A ':' inside the name or address moves the field boundary of the key. */
  lemma ColonRequestsShareKey()
    ensures ListKey(ColonInName) == ListKey(ColonInAddress)
  {
    var xs, ys := ListKeyParts(ColonInName), ListKeyParts(ColonInAddress);
    assert xs[0] == "a" + ":" + "b" && xs[1] == "c";
    assert ys[0] == "a" && ys[1] == "b" + ":" + "c";
    assert xs[2..] == ys[2..];
    assert xs == [xs[0], xs[1]] + xs[2..];
    assert ys == [ys[0], ys[1]] + ys[2..];
    JoinMovesSeparator("a", "b", "c", xs[2..], ':');
  }

  /**
   * The two requests that share one cache key select different properties, so the
   * page cached for one is served for the other.
   */
  lemma CollidingRequestsSelectDifferently(p: Property)
    requires p.name == "a:b" && p.address == "c"
    ensures PropertyMatches(CriteriaOf(ColonInName), p) && !PropertyMatches(CriteriaOf(ColonInAddress), p)
  {
    assert CriteriaOf(ColonInName) == Criteria(Some("a:b"), Some("c"), None, None);
    assert CriteriaOf(ColonInAddress) == Criteria(Some("a"), Some("b:c"), None, None);
    assert !IsWhiteSpace("a:b"[0]) && !IsWhiteSpace("c"[0]) && !IsWhiteSpace("a"[0]) && !IsWhiteSpace("b:c"[0]);
    TextCriteriaMeaning("a:b", "c", p);
    TextCriteriaMeaning("a", "b:c", p);
    PrefixIsContained(p.name, "a:b");
    PrefixIsContained(p.address, "c");
    ContainsIgnoreCaseFacts(p.address, "b:c");
  }

  // ---- The listing ----

  /** A live listing entry is returned as it is, whatever the database now holds. */
  lemma CachedPageIsServed(cache: Entries<CachedValue>, db: Collections, r: GetPropertiesRequest, now: DateTime, setFails: bool)
    requires Live(cache, ListKey(r), now) && cache[ListKey(r)].value.CachedPage?
    ensures PropertiesPage(cache, db, r, now, false, setFails) == (Ok(cache[ListKey(r)].value.page), cache)
  {
  }

  /**
   * After a miss is answered from the database, every request with the same key is
   * answered with that page for the next five minutes, whatever the database holds.
   */
  lemma {:induction false} ListingCachedForFiveMinutes(cache: Entries<CachedValue>, db: Collections, db2: Collections,
                                    r: GetPropertiesRequest, r2: GetPropertiesRequest, now: DateTime, later: DateTime)
    requires ListKey(r2) == ListKey(r)
    requires !Live(cache, ListKey(r), now) && FetchPage(db, r).Ok?
    requires now <= later < now + FromMinutes(ListLifetimeMinutes) <= MaxTicks
    ensures var (result, cache1) := PropertiesPage(cache, db, r, now, false, false);
      && result == FetchPage(db, r)
      && PropertiesPage(cache1, db2, r2, later, false, false) == (result, cache1)
  {
    var key := ListKey(r);
    var cache0 := Lookup(cache, key, now, false).1;
    var cache1 := Store(cache0, key, CachedPage(FetchPage(db, r).value), Some(FromMinutes(ListLifetimeMinutes)), now, false);
    assert cache1[key] == Entry(CachedPage(FetchPage(db, r).value), now + FromMinutes(ListLifetimeMinutes));
  }

  /** A failing cache read falls back to the database. */
  lemma UnreadableCacheFallsBack(cache: Entries<CachedValue>, db: Collections, r: GetPropertiesRequest, now: DateTime, setFails: bool)
    ensures PropertiesPage(cache, db, r, now, true, setFails).0 == FetchPage(db, r)
  {
  }

  /** A failing cache write still answers from the database and stores nothing. */
  lemma UnwritableCacheStoresNothing(cache: Entries<CachedValue>, db: Collections, r: GetPropertiesRequest, now: DateTime)
    requires !Live(cache, ListKey(r), now)
    ensures var (result, cache1) := PropertiesPage(cache, db, r, now, false, true);
      result == FetchPage(db, r) && !Live(cache1, ListKey(r), now)
  {
  }

  /**
   * For a request the validator accepts whose skip fits in an `int`, the 32-bit skip
   * is the intended one, and the page fetched on a miss has the total of the count
   * query, correct navigation flags, and as items the DTOs of the sorted, enriched
   * matches (`FilteredRowsAreEnrichedMatches`) that follow the earlier pages.
   */
  lemma FetchedPageDescribesListing(db: Collections, r: GetPropertiesRequest)
    requires ValidCollections(db)
    requires 1 <= r.pageNumber && 1 <= r.pageSize && PageSkip(r.pageNumber, r.pageSize) <= Int32Max
    ensures FetchPage(db, r).Ok?
    ensures var page := FetchPage(db, r).value;
      var n := GetPropertiesCount(db, CriteriaOf(r));
      var rows := FilteredRows(db, CriteriaOf(r));
      && r.Skip() == PageSkip(r.pageNumber, r.pageSize)
      && page.totalCount == n
      && page.pageNumber == r.pageNumber && page.pageSize == r.pageSize
      && |page.items| == Min(r.pageSize, Max(0, n - r.Skip()))
      && (forall i | 0 <= i < |page.items| :: page.items[i] == PropertyToDto(rows[r.Skip() + i]))
      && (page.hasNextPage <==> r.pageNumber * r.pageSize < n)
      && (page.hasPreviousPage <==> r.pageNumber > 1)
  {
    var c := CriteriaOf(r);
    SkipIsWholePages(r.pageNumber, r.pageSize);
    SkipInt32AgreesWhenInRange(r.pageNumber, r.pageSize);
    FilteredPageContents(db, c, r.Skip(), r.Take());
    var items := GetPropertiesWithFilters(db, c, r.Skip(), r.Take()).value;
    var n := GetPropertiesCount(db, c);
    var page := Paged(MapAll(items, PropertyToDto), n, r.pageNumber, r.pageSize);
    assert FetchPage(db, r) == Ok(page);
    HasNextIffItemsRemain(MapAll(items, PropertyToDto), n, r.pageNumber, r.pageSize);
    assert page.items == MapAll(items, PropertyToDto);
  }

  /**
   * Past the Int32 range the fetch does not describe the listing: the validator
   * accepts page 1073741825, whose skip is negative for page size 3, so the pipeline
   * fails, and wraps to 0 for page size 4, so page 1 is served again.
   */
  lemma OverflowingPropertyPages(db: Collections, r: GetPropertiesRequest)
    requires r.pageNumber == 1073741825
    ensures r.pageSize == 3 ==> r.Skip() < 0 && FetchPage(db, r).Err?
    ensures r.pageSize == 4 ==>
      && r.Skip() == 0
      && FetchPage(db, r).Ok? && FetchPage(db, r.(pageNumber := 1)).Ok?
      && FetchPage(db, r).value.items == FetchPage(db, r.(pageNumber := 1)).value.items
  {
    assert WrapInt32(1073741825 - 1) == 1073741824;
    if r.pageSize == 3 {
      assert WrapInt32(1073741824 * 3) == -1073741824;
    } else if r.pageSize == 4 {
      assert WrapInt32(1073741824 * 4) == 0;
      assert r.(pageNumber := 1).Skip() == 0 by {
        assert WrapInt32(1 - 1) == 0;
        assert WrapInt32(0 * 4) == 0;
      }
    }
  }

  /** When every match fits on the first page, there is one page and no navigation. */
  lemma SinglePageListing(db: Collections, r: GetPropertiesRequest)
    requires ValidCollections(db)
    requires r.pageNumber == 1 && 1 <= r.pageSize
    requires 0 < GetPropertiesCount(db, CriteriaOf(r)) <= r.pageSize
    ensures FetchPage(db, r).Ok?
    ensures var page := FetchPage(db, r).value;
      page.totalPages == 1 && !page.hasNextPage && !page.hasPreviousPage
      && |page.items| == GetPropertiesCount(db, CriteriaOf(r))
  {
    FetchedPageDescribesListing(db, r);
    var n := GetPropertiesCount(db, CriteriaOf(r));
    CeilDivIsLeast(n, r.pageSize, 1);
    CeilDivZero(n, r.pageSize);
  }

  /**
   * The listing cache is not invalidated by a create (`RemoveByPatternAsync` removes
   * nothing): a live page is served unchanged afterwards, although the new property
   * may match and raise the true count by one.
   */
  lemma CreateLeavesListingStale(cache: Entries<CachedValue>, db: Collections, r: GetPropertiesRequest,
                                 req: CreatePropertyRequest, now: DateTime, newId: string, later: DateTime, setFails: bool)
    requires HasId(db.owners, OwnerId, req.idOwner)
    requires Live(cache, ListKey(r), later) && cache[ListKey(r)].value.CachedPage?
    ensures var (result, cache2, db2) := CreatedProperty(cache, db, req, now, newId);
      && result.Ok?
      && ListKey(r) in cache2 && cache2[ListKey(r)] == cache[ListKey(r)]
      && PropertiesPage(cache2, db2, r, later, false, setFails).0 == Ok(cache[ListKey(r)].value.page)
      && (PropertyMatches(CriteriaOf(r), NewProperty(req, newId, now)) ==>
            GetPropertiesCount(db2, CriteriaOf(r)) == GetPropertiesCount(db, CriteriaOf(r)) + 1)
  {
    ListKeyIsNeverPropertyKey(r, newId);
    CountAfterAppend(db.properties, (p: Property) => PropertyMatches(CriteriaOf(r), p), NewProperty(req, newId, now));
  }

  // ---- A single property ----

  /** A property found in the database is served from the cache for the next ten minutes. */
  lemma {:induction false} PropertyCachedForTenMinutes(cache: Entries<CachedValue>, db: Collections, db2: Collections,
                                      id: string, now: DateTime, later: DateTime)
    requires !Live(cache, PropertyKey(id), now) && HasId(db.properties, PropertyId, id)
    requires now <= later < now + FromMinutes(PropertyLifetimeMinutes) <= MaxTicks
    ensures var (result, cache1) := PropertyById(cache, db, id, now, false, false);
      && result.Ok? && result.value.id == id
      && (result.value.owner.Some? <==> HasId(db.owners, OwnerId, result.value.idOwner))
      && PropertyById(cache1, db2, id, later, false, false) == (result, cache1)
  {
    var key := PropertyKey(id);
    var dto := PropertyToDto(GetPropertyWithOwner(db, id).value);
    var cache0 := Lookup(cache, key, now, false).1;
    var cache1 := Store(cache0, key, CachedProperty(dto), Some(FromMinutes(PropertyLifetimeMinutes)), now, false);
    assert cache1[key] == Entry(CachedProperty(dto), now + FromMinutes(PropertyLifetimeMinutes));
  }

  /** A missing property (and no cached copy) is `NotFoundException("Property", id)`; nothing is cached. */
  lemma MissingPropertyIsNotFound(cache: Entries<CachedValue>, db: Collections, id: string, now: DateTime, getFails: bool, setFails: bool)
    requires !HasId(db.properties, PropertyId, id)
    requires !Live(cache, PropertyKey(id), now) || getFails
    ensures var (result, cache1) := PropertyById(cache, db, id, now, getFails, setFails);
      && result == Err(NotFound("Property", id))
      && result.error.message == NotFoundMessage("Property", id)
      && cache1 == Lookup(cache, PropertyKey(id), now, getFails).1
  {
  }

  // ---- Creation ----

  /** Without its owner, a create fails with `NotFoundException("Owner", ...)` and changes nothing. */
  lemma CreateWithoutOwnerChangesNothing(cache: Entries<CachedValue>, db: Collections, req: CreatePropertyRequest, now: DateTime, newId: string)
    requires !HasId(db.owners, OwnerId, req.idOwner)
    ensures CreatedProperty(cache, db, req, now, newId) == (Err(NotFound("Owner", req.idOwner)), cache, db)
  {
  }

  /**
   * A successful create stores one new property built from the request, returns it
   * without owner or image, clears its single-property key, and a later read by id
   * finds it in the database together with its owner.
   */
  lemma CreatedPropertyIsFetchable(cache: Entries<CachedValue>, db: Collections, req: CreatePropertyRequest,
                                   now: DateTime, newId: string, later: DateTime, setFails: bool)
    requires ValidCollections(db) && !HasId(db.properties, PropertyId, newId)
    requires HasId(db.owners, OwnerId, req.idOwner)
    ensures var (result, cache2, db2) := CreatedProperty(cache, db, req, now, newId);
      && result.Ok? && result.value.id == newId
      && result.value.name == req.name && result.value.address == req.address
      && result.value.price == req.price && result.value.codeInternal == req.codeInternal
      && result.value.year == req.year && result.value.idOwner == req.idOwner
      && result.value.createdAt == now && result.value.updatedAt == now
      && result.value.owner.None? && result.value.mainImage.None?
      && ValidCollections(db2) && db2.properties == db.properties + [NewProperty(req, newId, now)]
      && db2.owners == db.owners && db2.images == db.images && db2.traces == db.traces
      && PropertyKey(newId) !in cache2
      && var fetched := PropertyById(cache2, db2, newId, later, false, setFails).0;
         fetched.Ok? && fetched.value.id == newId && fetched.value.owner.Some?
         && fetched.value.owner.value.id == req.idOwner
  {
    var p := NewProperty(req, newId, now);
    AppendFreshKeepsUnique(db.properties, PropertyId, p);
    var db2 := db.(properties := db.properties + [p]);
    assert HasId(db2.properties, PropertyId, newId);
  }

  // ---- Images and traces of one property ----

  /** An element of a mapped filter is the image of a kept element, and conversely. */
  lemma WhereMapMembers<T, U>(s: seq<T>, keep: T -> bool, f: T -> U, x: U)
    ensures x in MapAll(Where(s, keep), f) <==> exists k | 0 <= k < |s| :: keep(s[k]) && f(s[k]) == x
  {
    var kept := Where(s, keep);
    if x in MapAll(kept, f) {
      var j :| 0 <= j < |kept| && f(kept[j]) == x;
      WhereMembers(s, keep, kept[j]);
      var k :| 0 <= k < |s| && s[k] == kept[j];
    }
    if exists k | 0 <= k < |s| :: keep(s[k]) && f(s[k]) == x {
      var k :| 0 <= k < |s| && keep(s[k]) && f(s[k]) == x;
      WhereMembers(s, keep, s[k]);
      var j :| 0 <= j < |kept| && kept[j] == s[k];
      assert MapAll(kept, f)[j] == x;
    }
  }

  /** Mapping two permutations of each other yields the same members. */
  lemma MapAllPermutationMembers<T, U>(a: seq<T>, b: seq<T>, f: T -> U, x: U)
    requires multiset(a) == multiset(b)
    ensures x in MapAll(a, f) <==> x in MapAll(b, f)
  {
    if x in MapAll(a, f) {
      var j :| 0 <= j < |a| && f(a[j]) == x;
      assert a[j] in multiset(b) by { assert a[j] in multiset(a); }
      var k :| 0 <= k < |b| && b[k] == a[j];
      assert MapAll(b, f)[k] == x;
    }
    if x in MapAll(b, f) {
      var j :| 0 <= j < |b| && f(b[j]) == x;
      assert b[j] in multiset(a) by { assert b[j] in multiset(b); }
      var k :| 0 <= k < |a| && a[k] == b[j];
      assert MapAll(a, f)[k] == x;
    }
  }

  /** The images returned are exactly the property's enabled images. */
  lemma PropertyImagesAreEnabledOnes(db: Collections, id: string)
    requires HasId(db.properties, PropertyId, id)
    ensures PropertyImages(db, id).Ok?
    ensures forall x :: x in PropertyImages(db, id).value <==>
      exists k | 0 <= k < |db.images| ::
        db.images[k].idProperty == id && db.images[k].enabled && ImageToDto(db.images[k]) == x
  {
    forall x ensures x in PropertyImages(db, id).value <==>
      exists k | 0 <= k < |db.images| :: db.images[k].idProperty == id && db.images[k].enabled && ImageToDto(db.images[k]) == x
    {
      WhereMapMembers(db.images, (i: PropertyImage) => i.idProperty == id && i.enabled, ImageToDto, x);
    }
  }

  /** An unknown property id is `NotFoundException("Property", id)` for both listings. */
  lemma UnknownPropertyListingsAreNotFound(db: Collections, id: string)
    requires !HasId(db.properties, PropertyId, id)
    ensures PropertyImages(db, id) == Err(NotFound("Property", id))
    ensures PropertyTraces(db, id) == Err(NotFound("Property", id))
  {
  }

  /**
   * The traces returned are the DTOs of the property's traces reordered latest sale
   * first: nothing added or lost, and sales on one date kept in insertion order.
   */
  lemma PropertyTracesLatestFirst(db: Collections, id: string)
    requires HasId(db.properties, PropertyId, id)
    ensures PropertyTraces(db, id).Ok?
    ensures exists rows: seq<PropertyTrace> ::
      && PropertyTraces(db, id).value == MapAll(rows, TraceToDto)
      && IsDescending(rows, DateSale)
      && multiset(rows) == multiset(Where(db.traces, (t: PropertyTrace) => t.idProperty == id))
      && forall date :: WithKey(rows, DateSale, date) == WithKey(Where(db.traces, (t: PropertyTrace) => t.idProperty == id), DateSale, date)
  {
    var own := Where(db.traces, (t: PropertyTrace) => t.idProperty == id);
    var sorted := SortDescending(own, DateSale);
    SortIsDescending(own, DateSale);
    forall date ensures WithKey(sorted, DateSale, date) == WithKey(own, DateSale, date) {
      SortIsStable(own, DateSale, date);
    }
    assert PropertyTraces(db, id).value == MapAll(sorted, TraceToDto);
  }

  /** The traces returned belong to the property, and each of its traces is returned. */
  lemma PropertyTracesMembers(db: Collections, id: string, t: PropertyTrace)
    requires HasId(db.properties, PropertyId, id)
    ensures PropertyTraces(db, id).Ok?
    ensures TraceToDto(t) in PropertyTraces(db, id).value <== t in db.traces && t.idProperty == id
    ensures forall x | x in PropertyTraces(db, id).value :: x.idProperty == id
  {
    var f := (t: PropertyTrace) => t.idProperty == id;
    var own := Where(db.traces, f);
    var sorted := SortDescending(own, DateSale);
    MapAllPermutationMembers(sorted, own, TraceToDto, TraceToDto(t));
    WhereMapMembers(db.traces, f, TraceToDto, TraceToDto(t));
    if t in db.traces && t.idProperty == id {
      var k :| 0 <= k < |db.traces| && db.traces[k] == t;
    }
    forall x | x in PropertyTraces(db, id).value ensures x.idProperty == id {
      MapAllPermutationMembers(sorted, own, TraceToDto, x);
      WhereMapMembers(db.traces, f, TraceToDto, x);
    }
  }
}
