/**
 * `PropertyRepository`: the aggregation pipelines and point query over the property
 * collection. Collections are sequences in natural (insertion) order; `$lookup` returns
 * matches in that order, and `$sort` is modelled as a stable sort (the order of equal
 * `createdAt` values is not fixed by MongoDB).
 */
module PropertyRepository {

  import opened Wrappers
  import opened Entities
  import opened DocumentStore
  import opened Linq
  import opened Sorting
  import opened Pagination
  import opened DomainExceptions
  import opened PropertyFilters

  /** The sort key of `$sort: { createdAt: -1 }`. */
  function CreatedAt(p: Property): int { p.createdAt }

  /** The properties the `$match` stage lets through, in natural order. */
  function Matching(properties: seq<Property>, c: Criteria): seq<Property> {
    Where(properties, (p: Property) => PropertyMatches(c, p))
  }

  /** `$lookup` from `owners` on `idOwner` = `_id`: the array of matching owners. */
  function OwnersOf(owners: seq<Owner>, idOwner: string): seq<Owner> {
    Where(owners, (o: Owner) => o.id == idOwner)
  }

  /**
   * `$unwind: { path: "$owner", preserveNullAndEmptyArrays: true }`: one row per
   * matching owner, or a single row with no owner.
   */
  function Unwind(p: Property, owners: seq<Owner>): (rows: seq<Property>)
    ensures 1 <= |rows|
  {
    if owners == [] then [p.(owner := None)]
    else MapAll(owners, o => p.(owner := Some(o)))
  }

  /** `$lookup` of the owner followed by `$unwind`, over a sequence of properties. */
  function LeftJoinOwners(properties: seq<Property>, owners: seq<Owner>): seq<Property>
    decreases |properties|
  {
    if properties == [] then []
    else Unwind(properties[0], OwnersOf(owners, properties[0].idOwner))
         + LeftJoinOwners(properties[1..], owners)
  }

  /**
   * `$lookup` of `propertyImages` on `_id` = `idProperty`, `$filter` on `enabled`,
   * `$arrayElemAt 0`, then `$mainImage.file` with `$ifNull`: the file of the
   * property's first enabled image, or null.
   */
  function MainImage(images: seq<PropertyImage>, propertyId: string): Option<string> {
    FirstEnabledFile(ImagesOf(images, propertyId))
  }

  /** The images that belong to a property, in natural order. */
  function ImagesOf(images: seq<PropertyImage>, propertyId: string): seq<PropertyImage> {
    Where(images, (i: PropertyImage) => i.idProperty == propertyId)
  }

  function FirstEnabledFile(images: seq<PropertyImage>): (r: Option<string>)
    ensures r.None? <==> forall i | 0 <= i < |images| :: !images[i].enabled
    decreases |images|
  {
    if images == [] then None
    else if images[0].enabled then Some(images[0].file)
    else
      var r := FirstEnabledFile(images[1..]);
      assert forall i | 0 < i < |images| :: images[i] == images[1..][i - 1];
      r
  }

  /** `$addFields` and `$project`: every row gets its main image. */
  function WithMainImages(rows: seq<Property>, images: seq<PropertyImage>): seq<Property> {
    MapAll(rows, (r: Property) => r.(mainImage := MainImage(images, r.id)))
  }

  /** The rows of the filtered pipeline before `$skip` and `$limit`. */
  function FilteredRows(db: Collections, c: Criteria): seq<Property> {
    SortDescending(WithMainImages(LeftJoinOwners(Matching(db.properties, c), db.owners), db.images), CreatedAt)
  }

  /** The server rejects a negative `$skip` and a `$limit` that is not positive. */
  function PipelineWindow(rows: seq<Property>, skip: int, take: int): (r: Result<seq<Property>, Exception>)
    ensures r.Err? <==> skip < 0 || take <= 0
  {
    if skip < 0 then Err(OtherException("$skip must be a non-negative number"))
    else if take <= 0 then Err(OtherException("$limit must be positive"))
    else Ok(Window(rows, skip, take))
  }

  /** `GetPropertiesWithFiltersAsync(name, address, minPrice, maxPrice, skip, take)`. */
  function GetPropertiesWithFilters(db: Collections, c: Criteria, skip: int, take: int): (r: Result<seq<Property>, Exception>)
    ensures r.Err? <==> skip < 0 || take <= 0
  {
    PipelineWindow(FilteredRows(db, c), skip, take)
  }

  /** `GetPropertiesCountAsync`: `CountDocuments` with the same criteria. */
  function GetPropertiesCount(db: Collections, c: Criteria): nat {
    |Matching(db.properties, c)|
  }

  /** `GetPropertiesWithOwnerAsync(skip, take)`: the join without filters or images. */
  function GetPropertiesWithOwner(db: Collections, skip: int, take: int): Result<seq<Property>, Exception> {
    PipelineWindow(SortDescending(LeftJoinOwners(db.properties, db.owners), CreatedAt), skip, take)
  }

  /** `GetPropertyWithOwnerAsync(id)`: the stored property with its owner, or null. */
  function GetPropertyWithOwner(db: Collections, id: string): (r: Option<Property>)
    ensures r.None? <==> !HasId(db.properties, PropertyId, id)
    ensures r.Some? ==> r.value.id == id
    ensures r.Some? ==> (r.value.owner.Some? <==> HasId(db.owners, OwnerId, r.value.idOwner))
    ensures r.Some? && r.value.owner.Some? ==> r.value.owner.value.id == r.value.idOwner
  {
    match FindById(db.properties, PropertyId, id)
    case None => None
    case Some(p) => Some(p.(owner := FindById(db.owners, OwnerId, p.idOwner)))
  }

  // ---- The left join ----

  /** The property with its owner looked up by id. */
  function WithOwner(p: Property, owners: seq<Owner>): Property {
    p.(owner := FindById(owners, OwnerId, p.idOwner))
  }

  lemma {:induction false} NoOwnersWithAbsentId(owners: seq<Owner>, id: string)
    requires !HasId(owners, OwnerId, id)
    ensures OwnersOf(owners, id) == []
    decreases |owners|
  {
    if owners != [] {
      assert owners[0].id != id;
      assert !HasId(owners[1..], OwnerId, id) by {
        assert forall i | 0 <= i < |owners| - 1 :: owners[1..][i] == owners[i + 1];
      }
      NoOwnersWithAbsentId(owners[1..], id);
    }
  }

  /** With unique owner ids, `$lookup` finds the owner `FindById` finds, or none. */
  lemma {:induction false} LookupFindsUniqueOwner(owners: seq<Owner>, id: string)
    requires UniqueIds(owners, OwnerId)
    ensures OwnersOf(owners, id) == match FindById(owners, OwnerId, id) case Some(o) => [o] case None => []
    decreases |owners|
  {
    if owners != [] {
      var rest := owners[1..];
      assert forall i | 0 <= i < |rest| :: rest[i] == owners[i + 1];
      if owners[0].id == id {
        assert !HasId(rest, OwnerId, id);
        NoOwnersWithAbsentId(rest, id);
      } else {
        LookupFindsUniqueOwner(rest, id);
      }
    }
  }

  /**
   * The left join keeps one row per property, in order, each with the owner whose
   * id is the property's `idOwner` (or none when no owner has it).
   */
  lemma {:induction false} LeftJoinIsOwnerLookup(properties: seq<Property>, owners: seq<Owner>)
    requires UniqueIds(owners, OwnerId)
    ensures LeftJoinOwners(properties, owners) == MapAll(properties, p => WithOwner(p, owners))
    decreases |properties|
  {
    if properties != [] {
      var p0 := properties[0];
      LeftJoinIsOwnerLookup(properties[1..], owners);
      LookupFindsUniqueOwner(owners, p0.idOwner);
      assert Unwind(p0, OwnersOf(owners, p0.idOwner)) == [WithOwner(p0, owners)] by {
        match FindById(owners, OwnerId, p0.idOwner)
        case None =>
        case Some(o) => assert MapAll([o], o => p0.(owner := Some(o)))[0] == p0.(owner := Some(o));
      }
      MapAllCons(properties, p => WithOwner(p, owners));
    }
  }

  /** A property whose owner is missing still yields exactly one row, with a null owner. */
  lemma MissingOwnerKeepsProperty(p: Property)
    ensures LeftJoinOwners([p], []) == [p.(owner := None)]
  {
    assert [p][1..] == [];
  }

  // ---- The main image ----

  /**
   * The main image is the file of the first image, in natural order, that belongs to
   * the property and is enabled; null when the property has no enabled image.
   */
  lemma {:induction false} MainImageIsFirstEnabled(images: seq<PropertyImage>, id: string)
    ensures MainImage(images, id).None? <==>
      forall k | 0 <= k < |images| :: !(images[k].idProperty == id && images[k].enabled)
    ensures MainImage(images, id).Some? ==>
      exists k | 0 <= k < |images| ::
        && images[k].idProperty == id && images[k].enabled
        && images[k].file == MainImage(images, id).value
        && forall j | 0 <= j < k :: !(images[j].idProperty == id && images[j].enabled)
    decreases |images|
  {
    if images != [] {
      var rest := images[1..];
      assert forall k | 0 <= k < |rest| :: rest[k] == images[k + 1];
      MainImageIsFirstEnabled(rest, id);
      MainImageCons(images, id);
      if images[0].idProperty == id && images[0].enabled {
        assert MainImage(images, id) == Some(images[0].file);
      } else if MainImage(images, id).Some? {
        var k :| 0 <= k < |rest| && rest[k].idProperty == id && rest[k].enabled
          && rest[k].file == MainImage(rest, id).value
          && forall j | 0 <= j < k :: !(rest[j].idProperty == id && rest[j].enabled);
        assert images[k + 1] == rest[k];
      }
    }
  }

  /** The main image is decided by the first image if it is an enabled one of the property, else by the rest. */
  lemma MainImageCons(images: seq<PropertyImage>, id: string)
    requires images != []
    ensures MainImage(images, id) ==
      if images[0].idProperty == id && images[0].enabled then Some(images[0].file) else MainImage(images[1..], id)
  {
    var w := ImagesOf(images, id);
    if images[0].idProperty == id {
      assert w == [images[0]] + ImagesOf(images[1..], id);
      if !images[0].enabled {
        assert w[1..] == ImagesOf(images[1..], id);
      }
    } else {
      assert w == ImagesOf(images[1..], id);
    }
  }

  /** Disabling every image of a property leaves it without a main image. */
  lemma DisabledImagesGiveNoMainImage(images: seq<PropertyImage>, id: string)
    requires forall k | 0 <= k < |images| :: images[k].idProperty == id ==> !images[k].enabled
    ensures MainImage(images, id) == None
  {
    MainImageIsFirstEnabled(images, id);
  }

  // ---- The filtered listing ----

  /** A matched property with its owner and main image filled in. */
  function Enrich(db: Collections, p: Property): Property {
    WithOwner(p, db.owners).(mainImage := MainImage(db.images, p.id))
  }

  /**
   * With unique owner ids the pipeline's rows are the matching properties, each
   * enriched once, sorted by creation time (newest first, ties in natural order).
   */
  lemma FilteredRowsAreEnrichedMatches(db: Collections, c: Criteria)
    requires ValidCollections(db)
    ensures FilteredRows(db, c) == SortDescending(MapAll(Matching(db.properties, c), p => Enrich(db, p)), CreatedAt)
    ensures |FilteredRows(db, c)| == GetPropertiesCount(db, c)
    ensures IsDescending(FilteredRows(db, c), CreatedAt)
  {
    var m := Matching(db.properties, c);
    LeftJoinIsOwnerLookup(m, db.owners);
    assert WithMainImages(MapAll(m, p => WithOwner(p, db.owners)), db.images) == MapAll(m, p => Enrich(db, p));
    SortIsDescending(MapAll(m, p => Enrich(db, p)), CreatedAt);
  }

  /** `x` is a stored property matching `c`, with its owner and main image filled in. */
  predicate IsEnrichedMatch(db: Collections, c: Criteria, x: Property) {
    exists j | 0 <= j < |db.properties| :: x == Enrich(db, db.properties[j]) && PropertyMatches(c, db.properties[j])
  }

  lemma FilteredRowIsEnrichedMatch(db: Collections, c: Criteria, x: Property)
    requires ValidCollections(db) && x in FilteredRows(db, c)
    ensures IsEnrichedMatch(db, c, x)
  {
    FilteredRowsAreEnrichedMatches(db, c);
    var m := Matching(db.properties, c);
    var enriched := MapAll(m, p => Enrich(db, p));
    SortedMember(enriched, CreatedAt, x);
    var k :| 0 <= k < |enriched| && enriched[k] == x;
    var y := m[k];
    assert x == Enrich(db, y);
    MatchingMember(db.properties, c, y);
    var j :| 0 <= j < |db.properties| && y == db.properties[j] && PropertyMatches(c, db.properties[j]);
    assert x == Enrich(db, db.properties[j]);
  }

  lemma SortedMember<T>(s: seq<T>, key: T -> int, x: T)
    requires x in SortDescending(s, key)
    ensures x in s
  {
    assert x in multiset(SortDescending(s, key));
  }

  lemma MatchingMember(properties: seq<Property>, c: Criteria, y: Property)
    requires y in Matching(properties, c)
    ensures exists j | 0 <= j < |properties| :: y == properties[j] && PropertyMatches(c, properties[j])
  {
    WhereMembers(properties, (p: Property) => PropertyMatches(c, p), y);
  }

  /**
   * A page of the filtered listing is the slice of the sorted rows that starts at
   * `skip`: its length is what the window leaves of the count, it is sorted newest
   * first, and every item is a stored property that matches the criteria, carrying
   * its owner and main image.
   */
  lemma FilteredPageContents(db: Collections, c: Criteria, skip: int, take: int)
    requires ValidCollections(db) && 0 <= skip && 0 < take
    ensures GetPropertiesWithFilters(db, c, skip, take).Ok?
    ensures var page := GetPropertiesWithFilters(db, c, skip, take).value;
      && |page| == Min(take, Max(0, GetPropertiesCount(db, c) - skip))
      && (forall i | 0 <= i < |page| :: page[i] == FilteredRows(db, c)[skip + i])
      && IsDescending(page, CreatedAt)
      && forall x | x in page :: IsEnrichedMatch(db, c, x)
  {
    var rows := FilteredRows(db, c);
    FilteredRowsAreEnrichedMatches(db, c);
    WindowIsSlice(rows, skip, take);
    WindowKeepsDescending(rows, CreatedAt, skip, take);
    forall x | x in Window(rows, skip, take) ensures IsEnrichedMatch(db, c, x) {
      FilteredRowIsEnrichedMatch(db, c, x);
    }
  }

  /**
   * Given unique owner ids, the rows `GetPropertiesWithOwnerAsync` returns are the rows
   * `GetPropertyWithOwnerAsync` returns for their id.
   */
  lemma JoinAgreesWithPointQuery(db: Collections, skip: int, take: int)
    requires ValidCollections(db) && 0 <= skip && 0 < take
    ensures var page := GetPropertiesWithOwner(db, skip, take);
      page.Ok? && forall x | x in page.value :: GetPropertyWithOwner(db, x.id) == Some(x)
  {
    LeftJoinIsOwnerLookup(db.properties, db.owners);
    var joined := MapAll(db.properties, p => WithOwner(p, db.owners));
    var rows := SortDescending(joined, CreatedAt);
    var page := Window(rows, skip, take);
    forall x | x in page ensures GetPropertyWithOwner(db, x.id) == Some(x) {
      WindowMember(rows, skip, take, x);
      assert x in multiset(joined) by { assert x in multiset(rows); }
      JoinedRowIsPointQuery(db, x);
    }
  }

  /** Each stored property with its owner is what the point query returns for its id. */
  lemma JoinedRowIsPointQuery(db: Collections, x: Property)
    requires ValidCollections(db) && x in MapAll(db.properties, p => WithOwner(p, db.owners))
    ensures GetPropertyWithOwner(db, x.id) == Some(x)
  {
    var joined := MapAll(db.properties, p => WithOwner(p, db.owners));
    var k :| 0 <= k < |joined| && joined[k] == x;
    FindUnique(db.properties, PropertyId, k);
  }
}
