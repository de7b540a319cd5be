/**
 * `PropertyTraceService`: record a sale of an existing property, read one by id,
 * and list sales a page at a time, latest sale first, optionally those of one
 * property.
 */
module PropertyTraceService {

  import opened Wrappers
  import opened Clock
  import opened Text
  import opened Entities
  import opened DocumentStore
  import opened Linq
  import opened Sorting
  import opened Pagination
  import opened DomainExceptions
  import opened Requests
  import opened ServicePaging

  /** The trace `CreatePropertyTraceAsync` builds: both timestamps are the creation time. */
  function NewTrace(r: CreatePropertyTraceRequest, id: string, now: DateTime): PropertyTrace {
    PropertyTrace(id, r.dateSale, r.name, r.value, r.tax, r.idProperty, now, now)
  }

  /** `CreatePropertyTraceAsync`: the result and the database afterwards. */
  function CreatedTrace(db: Collections, r: CreatePropertyTraceRequest, now: DateTime, newId: string)
    : (Result<PropertyTraceDto, Exception>, Collections)
  {
    if !HasId(db.properties, PropertyId, r.idProperty) then (Err(NotFound("Property", r.idProperty)), db)
    else
      var trace := NewTrace(r, newId, now);
      (Ok(TraceToDto(trace)), db.(traces := db.traces + [trace]))
  }

  /** `GetPropertyTraceByIdAsync`: the stored trace, or `NotFoundException("PropertyTrace", id)`. */
  function TraceById(db: Collections, id: string): (r: Result<PropertyTraceDto, Exception>)
    ensures r.Err? <==> !HasId(db.traces, TraceId, id)
    ensures r.Err? ==> r.error == NotFound("PropertyTrace", id)
    ensures r.Ok? ==> r.value.id == id && exists k | 0 <= k < |db.traces| :: r.value == TraceToDto(db.traces[k])
  {
    match FindById(db.traces, TraceId, id)
    case None => Err(NotFound("PropertyTrace", id))
    case Some(t) => Ok(TraceToDto(t))
  }

  /** The traces selected: all, or those of `idProperty` when it is neither null nor empty. */
  function SelectedTraces(traces: seq<PropertyTrace>, idProperty: Option<string>): seq<PropertyTrace> {
    if !IsNullOrEmpty(idProperty) then Where(traces, (t: PropertyTrace) => t.idProperty == idProperty.value)
    else traces
  }

  /** The listing: the selected traces by `DateSale` descending (`OrderByDescending` is stable). */
  function ListedTraces(traces: seq<PropertyTrace>, idProperty: Option<string>): seq<PropertyTrace> {
    SortDescending(SelectedTraces(traces, idProperty), DateSale)
  }

  /** `GetPropertyTracesAsync`. */
  function TracesPage(db: Collections, r: GetPropertyTracesRequest): PaginatedResult<PropertyTraceDto>
    requires 0 < r.pageSize
  {
    PageInMemory(ListedTraces(db.traces, r.idProperty), TraceToDto, r.pageNumber, r.pageSize)
  }

  class PropertyTraceService {
    const db: Database

    constructor (db: Database)
      ensures this.db == db
    {
      this.db := db;
    }

    method CreatePropertyTrace(r: CreatePropertyTraceRequest, now: DateTime, newId: string)
      returns (result: Result<PropertyTraceDto, Exception>)
      requires db.Valid() && !HasId(db.traces, TraceId, newId)
      modifies db
      ensures db.Valid()
      ensures (result, db.Contents()) == CreatedTrace(old(db.Contents()), r, now, newId)
    {
      if !HasId(db.properties, PropertyId, r.idProperty) {
        return Err(NotFound("Property", r.idProperty));
      }
      var trace := NewTrace(r, newId, now);
      db.AddTrace(trace);
      return Ok(TraceToDto(trace));
    }

    method GetPropertyTraceById(id: string) returns (result: Result<PropertyTraceDto, Exception>)
      ensures result == TraceById(db.Contents(), id)
    {
      var trace := FindById(db.traces, TraceId, id);
      if trace.None? {
        return Err(NotFound("PropertyTrace", id));
      }
      return Ok(TraceToDto(trace.value));
    }

    method GetPropertyTraces(r: GetPropertyTracesRequest) returns (result: PaginatedResult<PropertyTraceDto>)
      requires 0 < r.pageSize
      ensures result == TracesPage(db.Contents(), r)
    {
      var traces := db.traces;
      if !IsNullOrEmpty(r.idProperty) {
        traces := Where(traces, (t: PropertyTrace) => t.idProperty == r.idProperty.value);
      }
      traces := SortDescending(traces, DateSale);
      var totalCount := |traces|;
      var pagedTraces := Window(traces, r.Skip(), r.Take());
      result := Paged(MapAll(pagedTraces, TraceToDto), totalCount, r.pageNumber, r.pageSize);
    }
  }

  /**
   * The listing is the selected traces reordered: latest sale first, nothing added
   * or lost, and sales on the same date kept in insertion order.
   */
  lemma ListedTracesOrder(traces: seq<PropertyTrace>, idProperty: Option<string>, date: int)
    ensures var listing := ListedTraces(traces, idProperty);
      && IsDescending(listing, DateSale)
      && multiset(listing) == multiset(SelectedTraces(traces, idProperty))
      && WithKey(listing, DateSale, date) == WithKey(SelectedTraces(traces, idProperty), DateSale, date)
  {
    SortIsDescending(SelectedTraces(traces, idProperty), DateSale);
    SortIsStable(SelectedTraces(traces, idProperty), DateSale, date);
  }

  /** The listing holds exactly the traces of the requested property; with no id, all. */
  lemma ListedTracesMembers(traces: seq<PropertyTrace>, idProperty: Option<string>, x: PropertyTrace)
    ensures x in ListedTraces(traces, idProperty) <==>
      x in traces && (IsNullOrEmpty(idProperty) || x.idProperty == idProperty.value)
  {
    var selected := SelectedTraces(traces, idProperty);
    assert x in ListedTraces(traces, idProperty) <==> x in multiset(selected);
    if !IsNullOrEmpty(idProperty) {
      WhereMembers(traces, (t: PropertyTrace) => t.idProperty == idProperty.value, x);
    }
  }

  /** A sale needs its property: otherwise `NotFoundException("Property", ...)` and nothing is stored. */
  lemma CreateTraceRequiresProperty(db: Collections, r: CreatePropertyTraceRequest, now: DateTime, newId: string)
    requires !HasId(db.properties, PropertyId, r.idProperty)
    ensures CreatedTrace(db, r, now, newId) == (Err(NotFound("Property", r.idProperty)), db)
  {
  }

  /** A recorded sale keeps the request's fields, is read back by id and is listed under its property. */
  lemma CreatedTraceIsFetchable(db: Collections, r: CreatePropertyTraceRequest, now: DateTime, newId: string)
    requires ValidCollections(db) && !HasId(db.traces, TraceId, newId)
    requires HasId(db.properties, PropertyId, r.idProperty)
    ensures var (result, db2) := CreatedTrace(db, r, now, newId);
      && result == Ok(PropertyTraceDto(newId, r.dateSale, r.name, r.value, r.tax, r.idProperty, now))
      && ValidCollections(db2)
      && TraceById(db2, newId) == result
      && NewTrace(r, newId, now) in ListedTraces(db2.traces, Some(r.idProperty))
  {
    var trace := NewTrace(r, newId, now);
    var db2 := db.(traces := db.traces + [trace]);
    AppendFreshKeepsUnique(db.traces, TraceId, trace);
    FindUnique(db2.traces, TraceId, |db.traces|);
    ListedTracesMembers(db2.traces, Some(r.idProperty), trace);
  }

  /** Every stored trace is found by its id. */
  lemma StoredTraceIsFound(db: Collections, k: int)
    requires ValidCollections(db) && 0 <= k < |db.traces|
    ensures TraceById(db, db.traces[k].id) == Ok(TraceToDto(db.traces[k]))
  {
    FindUnique(db.traces, TraceId, k);
  }

  /**
   * For an accepted request whose skip fits in an `int`, the 32-bit skip is the
   * intended one, and the page counts the whole selection and holds the next items of
   * the ordered listing.
   */
  lemma TracesPageDescribesListing(db: Collections, r: GetPropertyTracesRequest)
    requires 1 <= r.pageNumber && 1 <= r.pageSize && PageSkip(r.pageNumber, r.pageSize) <= Int32Max
    ensures var listing := ListedTraces(db.traces, r.idProperty);
      var page := TracesPage(db, r);
      && r.Skip() == PageSkip(r.pageNumber, r.pageSize)
      && page.totalCount == |SelectedTraces(db.traces, r.idProperty)|
      && |page.items| == Min(r.pageSize, Max(0, |listing| - r.Skip()))
      && (forall i | 0 <= i < |page.items| :: page.items[i] == TraceToDto(listing[r.Skip() + i]))
      && (page.hasNextPage <==> r.pageNumber * r.pageSize < |listing|)
      && (page.hasPreviousPage <==> r.pageNumber > 1)
  {
    PageInMemoryContents(ListedTraces(db.traces, r.idProperty), TraceToDto, r.pageNumber, r.pageSize);
  }

  /**
   * Every page is latest sale first, and no sale on it is older than one on a later
   * page whose skip still fits in an `int`.
   */
  lemma TracesPagesAreLatestFirst(db: Collections, r: GetPropertyTracesRequest, later: Int32)
    requires 1 <= r.pageNumber < later && 1 <= r.pageSize && PageSkip(later, r.pageSize) <= Int32Max
    ensures var page := TracesPage(db, r);
      var next := TracesPage(db, r.(pageNumber := later));
      && (forall i, j | 0 <= i < j < |page.items| :: page.items[i].dateSale >= page.items[j].dateSale)
      && (forall i, j | 0 <= i < |page.items| && 0 <= j < |next.items| :: page.items[i].dateSale >= next.items[j].dateSale)
  {
    var listing := ListedTraces(db.traces, r.idProperty);
    var r2 := r.(pageNumber := later);
    var w1, w2 := Window(listing, r.Skip(), r.pageSize), Window(listing, r2.Skip(), r.pageSize);
    ListedTracesOrder(db.traces, r.idProperty, 0);
    SkipIsWholePages(r.pageNumber, r.pageSize);
    PagesAreOrdered(r.pageNumber, later, r.pageSize);
    SkipInt32AgreesWhenInRange(r.pageNumber, r.pageSize);
    SkipInt32AgreesWhenInRange(later, r.pageSize);
    WindowKeepsDescending(listing, DateSale, r.Skip(), r.pageSize);
    WindowsAreOrdered(listing, DateSale, r.Skip(), r.pageSize, r2.Skip(), r.pageSize);
    assert TracesPage(db, r).items == MapAll(w1, TraceToDto);
    assert TracesPage(db, r2).items == MapAll(w2, TraceToDto);
  }

  /**
   * The ordering across pages stops at the overflow: page 1073741825 of size 4 is
   * accepted, its skip wraps to 0, and it repeats page 1, the latest sales.
   */
  lemma OverflowingTracePageRepeatsFirst(db: Collections, r: GetPropertyTracesRequest)
    requires r.pageNumber == 1073741825 && r.pageSize == 4
    ensures TracesPage(db, r).items == TracesPage(db, r.(pageNumber := 1)).items
  {
    assert PageSkipInt32(1073741825, 4) == 0 by {
      assert WrapInt32(1073741825 - 1) == 1073741824;
      assert WrapInt32(1073741824 * 4) == 0;
    }
    NonPositiveSkipServesFirstPage(ListedTraces(db.traces, r.idProperty), TraceToDto, r.pageNumber, r.pageSize);
  }
}
