/**
 * `PropertyImageService`: create an image of an existing property, read one by id,
 * and list images a page at a time, optionally those of one property.
 */
module PropertyImageService {

  import opened Wrappers
  import opened Clock
  import opened Text
  import opened Entities
  import opened DocumentStore
  import opened Linq
  import opened Pagination
  import opened DomainExceptions
  import opened Requests
  import opened ServicePaging
  import opened PropertyFilters
  import PropertyService

  /** The image `CreatePropertyImageAsync` builds: both timestamps are the creation time. */
  function NewImage(r: CreatePropertyImageRequest, id: string, now: DateTime): PropertyImage {
    PropertyImage(id, r.idProperty, r.file, r.enabled, now, now)
  }

  /** `CreatePropertyImageAsync`: the result and the database afterwards. */
  function CreatedImage(db: Collections, r: CreatePropertyImageRequest, now: DateTime, newId: string)
    : (Result<PropertyImageDto, Exception>, Collections)
  {
    if !HasId(db.properties, PropertyId, r.idProperty) then (Err(NotFound("Property", r.idProperty)), db)
    else
      var image := NewImage(r, newId, now);
      (Ok(ImageToDto(image)), db.(images := db.images + [image]))
  }

  /** `GetPropertyImageByIdAsync`: the stored image, or `NotFoundException("PropertyImage", id)`. */
  function ImageById(db: Collections, id: string): (r: Result<PropertyImageDto, Exception>)
    ensures r.Err? <==> !HasId(db.images, ImageId, id)
    ensures r.Err? ==> r.error == NotFound("PropertyImage", id)
    ensures r.Ok? ==> r.value.id == id && exists k | 0 <= k < |db.images| :: r.value == ImageToDto(db.images[k])
  {
    match FindById(db.images, ImageId, id)
    case None => Err(NotFound("PropertyImage", id))
    case Some(i) => Ok(ImageToDto(i))
  }

  /** The images listed: all of them, or those of `idProperty` when it is neither null nor empty. */
  function ListedImages(images: seq<PropertyImage>, idProperty: Option<string>): seq<PropertyImage> {
    if !IsNullOrEmpty(idProperty) then Where(images, (i: PropertyImage) => i.idProperty == idProperty.value)
    else images
  }

  /** `GetPropertyImagesAsync`. */
  function ImagesPage(db: Collections, r: GetPropertyImagesRequest): PaginatedResult<PropertyImageDto>
    requires 0 < r.pageSize
  {
    PageInMemory(ListedImages(db.images, r.idProperty), ImageToDto, r.pageNumber, r.pageSize)
  }

  class PropertyImageService {
    const db: Database

    constructor (db: Database)
      ensures this.db == db
    {
      this.db := db;
    }

    method CreatePropertyImage(r: CreatePropertyImageRequest, now: DateTime, newId: string)
      returns (result: Result<PropertyImageDto, Exception>)
      requires db.Valid() && !HasId(db.images, ImageId, newId)
      modifies db
      ensures db.Valid()
      ensures (result, db.Contents()) == CreatedImage(old(db.Contents()), r, now, newId)
    {
      if !HasId(db.properties, PropertyId, r.idProperty) {
        return Err(NotFound("Property", r.idProperty));
      }
      var image := NewImage(r, newId, now);
      db.AddImage(image);
      return Ok(ImageToDto(image));
    }

    method GetPropertyImageById(id: string) returns (result: Result<PropertyImageDto, Exception>)
      ensures result == ImageById(db.Contents(), id)
    {
      var image := FindById(db.images, ImageId, id);
      if image.None? {
        return Err(NotFound("PropertyImage", id));
      }
      return Ok(ImageToDto(image.value));
    }

    method GetPropertyImages(r: GetPropertyImagesRequest) returns (result: PaginatedResult<PropertyImageDto>)
      requires 0 < r.pageSize
      ensures result == ImagesPage(db.Contents(), r)
    {
      var images := db.images;
      if !IsNullOrEmpty(r.idProperty) {
        images := Where(images, (i: PropertyImage) => i.idProperty == r.idProperty.value);
      }
      var totalCount := |images|;
      var pagedImages := Window(images, r.Skip(), r.Take());
      result := Paged(MapAll(pagedImages, ImageToDto), totalCount, r.pageNumber, r.pageSize);
    }
  }

  /** The listing keeps exactly the images of the requested property, enabled or not; with no id, all. */
  lemma ListedImagesMembers(images: seq<PropertyImage>, idProperty: Option<string>, x: PropertyImage)
    ensures x in ListedImages(images, idProperty) <==>
      x in images && (IsNullOrEmpty(idProperty) || x.idProperty == idProperty.value)
  {
    if !IsNullOrEmpty(idProperty) {
      WhereMembers(images, (i: PropertyImage) => i.idProperty == idProperty.value, x);
    }
  }

  /**
   * The two image listings disagree on disabled images: a disabled image of a
   * property is counted by this service's listing but never returned by
   * `PropertyService.GetPropertyImagesAsync`.
   */
  lemma DisabledImageOnlyInImageListing(db: Collections, k: int)
    requires 0 <= k < |db.images| && !db.images[k].enabled
    requires HasId(db.properties, PropertyId, db.images[k].idProperty)
    ensures var id := db.images[k].idProperty;
      && db.images[k] in ListedImages(db.images, Some(id))
      && PropertyService.PropertyImages(db, id).Ok?
      && ImageToDto(db.images[k]) !in PropertyService.PropertyImages(db, id).value
  {
    var id := db.images[k].idProperty;
    ListedImagesMembers(db.images, Some(id), db.images[k]);
    PropertyService.PropertyImagesAreEnabledOnes(db, id);
  }

  /**
   * `string.IsNullOrEmpty` is the gate here, `string.IsNullOrWhiteSpace` in the
   * property filter: a blank id selects only images whose id is that blank text,
   * while a blank name filters no property; an empty id selects every image.
   */
  lemma BlankIdStillFilters(images: seq<PropertyImage>, p: Property)
    ensures ListedImages(images, Some(" ")) == Where(images, (i: PropertyImage) => i.idProperty == " ")
    ensures ListedImages(images, Some("")) == images
    ensures PropertyMatches(Criteria(Some(" "), None, None, None), p)
  {
    assert IsWhiteSpace(" "[0]);
  }

  /** An image needs its property: otherwise `NotFoundException("Property", ...)` and nothing is stored. */
  lemma CreateImageRequiresProperty(db: Collections, r: CreatePropertyImageRequest, now: DateTime, newId: string)
    requires !HasId(db.properties, PropertyId, r.idProperty)
    ensures CreatedImage(db, r, now, newId) == (Err(NotFound("Property", r.idProperty)), db)
  {
  }

  /**
   * A created image keeps the request's fields (`Enabled` is `true` unless the
   * request says otherwise), is read back by id and is listed under its property.
   */
  lemma CreatedImageIsFetchable(db: Collections, r: CreatePropertyImageRequest, now: DateTime, newId: string)
    requires ValidCollections(db) && !HasId(db.images, ImageId, newId)
    requires HasId(db.properties, PropertyId, r.idProperty)
    ensures var (result, db2) := CreatedImage(db, r, now, newId);
      && result == Ok(PropertyImageDto(newId, r.idProperty, r.file, r.enabled, now))
      && ValidCollections(db2)
      && ImageById(db2, newId) == result
      && NewImage(r, newId, now) in ListedImages(db2.images, Some(r.idProperty))
      && (r == DefaultCreatePropertyImageRequest.(idProperty := r.idProperty, file := r.file) ==> result.value.enabled)
  {
    var image := NewImage(r, newId, now);
    var db2 := db.(images := db.images + [image]);
    AppendFreshKeepsUnique(db.images, ImageId, image);
    FindUnique(db2.images, ImageId, |db.images|);
    ListedImagesMembers(db2.images, Some(r.idProperty), image);
  }

  /** Every stored image is found by its id. */
  lemma StoredImageIsFound(db: Collections, k: int)
    requires ValidCollections(db) && 0 <= k < |db.images|
    ensures ImageById(db, db.images[k].id) == Ok(ImageToDto(db.images[k]))
  {
    FindUnique(db.images, ImageId, k);
  }

  /**
   * For an accepted request whose skip fits in an `int`, the 32-bit skip is the
   * intended one, and the page counts the whole filtered listing and holds its next items.
   */
  lemma ImagesPageDescribesListing(db: Collections, r: GetPropertyImagesRequest)
    requires 1 <= r.pageNumber && 1 <= r.pageSize && PageSkip(r.pageNumber, r.pageSize) <= Int32Max
    ensures var listing := ListedImages(db.images, r.idProperty);
      var page := ImagesPage(db, r);
      && r.Skip() == PageSkip(r.pageNumber, r.pageSize)
      && page.totalCount == |listing|
      && |page.items| == Min(r.pageSize, Max(0, |listing| - r.Skip()))
      && (forall i | 0 <= i < |page.items| :: page.items[i] == ImageToDto(listing[r.Skip() + i]))
      && (page.hasNextPage <==> r.pageNumber * r.pageSize < |listing|)
      && (page.hasPreviousPage <==> r.pageNumber > 1)
  {
    PageInMemoryContents(ListedImages(db.images, r.idProperty), ImageToDto, r.pageNumber, r.pageSize);
  }
}
