/**
 * `OwnerService`: create an owner, read one by id, and list all owners a page at a
 * time. `DateTime.UtcNow` is the parameter `now`; the `_id` MongoDB generates for a
 * new owner is the parameter `newId`.
 */
module OwnerService {

  import opened Wrappers
  import opened Clock
  import opened Entities
  import opened DocumentStore
  import opened Pagination
  import opened DomainExceptions
  import opened Requests
  import opened ServicePaging

  /** `Map<Owner>(request)`: both timestamps are the creation time. */
  function NewOwner(r: CreateOwnerRequest, id: string, now: DateTime): Owner {
    Owner(id, r.name, r.address, r.photo, r.birthday, now, now)
  }

  /** `GetOwnerByIdAsync`: the stored owner, or `NotFoundException("Owner", id)`. */
  function OwnerById(db: Collections, id: string): (r: Result<OwnerDto, Exception>)
    ensures r.Err? <==> !HasId(db.owners, OwnerId, id)
    ensures r.Err? ==> r.error == NotFound("Owner", id)
    ensures r.Ok? ==> r.value.id == id && exists k | 0 <= k < |db.owners| :: r.value == OwnerToDto(db.owners[k])
  {
    match FindById(db.owners, OwnerId, id)
    case None => Err(NotFound("Owner", id))
    case Some(o) => Ok(OwnerToDto(o))
  }

  /** `GetOwnersAsync`: every owner in insertion order, paged. */
  function OwnersPage(db: Collections, r: GetOwnersRequest): PaginatedResult<OwnerDto>
    requires 0 < r.pageSize
  {
    PageInMemory(db.owners, OwnerToDto, r.pageNumber, r.pageSize)
  }

  class OwnerService {
    const db: Database

    constructor (db: Database)
      ensures this.db == db
    {
      this.db := db;
    }

    /** `CreateOwnerAsync`: maps the request, inserts it, returns its DTO. */
    method CreateOwner(r: CreateOwnerRequest, now: DateTime, newId: string) returns (dto: OwnerDto)
      requires db.Valid() && !HasId(db.owners, OwnerId, newId)
      modifies db
      ensures db.Valid()
      ensures db.Contents() == old(db.Contents()).(owners := old(db.owners) + [NewOwner(r, newId, now)])
      ensures dto == OwnerToDto(NewOwner(r, newId, now))
    {
      var owner := NewOwner(r, newId, now);
      db.AddOwner(owner);
      dto := OwnerToDto(owner);
    }

    method GetOwnerById(id: string) returns (result: Result<OwnerDto, Exception>)
      ensures result == OwnerById(db.Contents(), id)
    {
      var owner := FindById(db.owners, OwnerId, id);
      if owner.None? {
        return Err(NotFound("Owner", id));
      }
      return Ok(OwnerToDto(owner.value));
    }

    /** The `[Range(1, 100)]` on `PageSize` keeps the divisor positive. */
    method GetOwners(r: GetOwnersRequest) returns (result: PaginatedResult<OwnerDto>)
      requires 0 < r.pageSize
      ensures result == OwnersPage(db.Contents(), r)
    {
      var owners := db.owners;
      var totalCount := |owners|;
      var pagedOwners := Window(owners, r.Skip(), r.Take());
      result := Paged(MapAll(pagedOwners, OwnerToDto), totalCount, r.pageNumber, r.pageSize);
    }
  }

  /** Every stored owner is found by its id, as the DTO of that very owner. */
  lemma StoredOwnerIsFound(db: Collections, k: int)
    requires ValidCollections(db) && 0 <= k < |db.owners|
    ensures OwnerById(db, db.owners[k].id) == Ok(OwnerToDto(db.owners[k]))
  {
    FindUnique(db.owners, OwnerId, k);
  }

  /** A created owner is read back by its id with the request's fields. */
  lemma CreatedOwnerIsFetchable(db: Collections, r: CreateOwnerRequest, now: DateTime, newId: string)
    requires ValidCollections(db) && !HasId(db.owners, OwnerId, newId)
    ensures var db2 := db.(owners := db.owners + [NewOwner(r, newId, now)]);
      && ValidCollections(db2)
      && OwnerById(db2, newId) == Ok(OwnerDto(newId, r.name, r.address, r.photo, r.birthday))
  {
    var o := NewOwner(r, newId, now);
    AppendFreshKeepsUnique(db.owners, OwnerId, o);
    StoredOwnerIsFound(db.(owners := db.owners + [o]), |db.owners|);
  }

  /**
   * For an accepted request whose skip fits in an `int`, the 32-bit skip is the
   * intended one, and the page counts every owner and holds the owners that follow
   * the earlier pages, in insertion order.
   */
  lemma OwnersPageDescribesListing(db: Collections, r: GetOwnersRequest)
    requires 1 <= r.pageNumber && 1 <= r.pageSize && PageSkip(r.pageNumber, r.pageSize) <= Int32Max
    ensures var page := OwnersPage(db, r);
      && r.Skip() == PageSkip(r.pageNumber, r.pageSize)
      && page.totalCount == |db.owners|
      && |page.items| == Min(r.pageSize, Max(0, |db.owners| - r.Skip()))
      && (forall i | 0 <= i < |page.items| :: page.items[i] == OwnerToDto(db.owners[r.Skip() + i]))
      && (page.hasNextPage <==> r.pageNumber * r.pageSize < |db.owners|)
      && (page.hasPreviousPage <==> r.pageNumber > 1)
  {
    PageInMemoryContents(db.owners, OwnerToDto, r.pageNumber, r.pageSize);
  }

  /** Walking the pages visits every owner an `int` skip can reach. */
  lemma EveryOwnerIsListed(db: Collections, pageSize: Int32, k: int)
    requires 1 <= pageSize && 0 <= k < |db.owners| && k < Int32Max
    ensures var page := OwnersPage(db, GetOwnersRequest(pageSize, k / pageSize + 1));
      OwnerToDto(db.owners[k]) in page.items
  {
    EveryItemIsOnItsPage(db.owners, OwnerToDto, pageSize, k);
  }
}
