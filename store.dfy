/**
 * The document store behind the repositories: one collection per entity, held in
 * insertion order (the order `GetAllAsync` and MongoDB's natural order return).
 */
module DocumentStore {

  import opened Entities

  /** A snapshot of the four collections. */
  datatype Collections = Collections(
    properties: seq<Property>,
    owners: seq<Owner>,
    images: seq<PropertyImage>,
    traces: seq<PropertyTrace>)

  /** Every collection has a unique `_id` index. */
  predicate ValidCollections(c: Collections) {
    && UniqueIds(c.properties, PropertyId)
    && UniqueIds(c.owners, OwnerId)
    && UniqueIds(c.images, ImageId)
    && UniqueIds(c.traces, TraceId)
  }

  /** The database the repositories (`IRepository<T>.AddAsync` and friends) write to. */
  class Database {
    var properties: seq<Property>
    var owners: seq<Owner>
    var images: seq<PropertyImage>
    var traces: seq<PropertyTrace>

    function Contents(): Collections
      reads this
    {
      Collections(properties, owners, images, traces)
    }

    ghost predicate Valid()
      reads this
    {
      ValidCollections(Contents())
    }

    constructor (c: Collections)
      requires ValidCollections(c)
      ensures Valid() && Contents() == c
    {
      properties, owners, images, traces := c.properties, c.owners, c.images, c.traces;
    }

    /** `InsertOneAsync(property)`; the caller passes the freshly generated `_id` in `p.id`. */
    method AddProperty(p: Property)
      requires Valid() && !HasId(properties, PropertyId, p.id)
      modifies this
      ensures Valid()
      ensures Contents() == old(Contents()).(properties := old(properties) + [p])
    {
      AppendFreshKeepsUnique(properties, PropertyId, p);
      properties := properties + [p];
    }

    method AddOwner(o: Owner)
      requires Valid() && !HasId(owners, OwnerId, o.id)
      modifies this
      ensures Valid()
      ensures Contents() == old(Contents()).(owners := old(owners) + [o])
    {
      AppendFreshKeepsUnique(owners, OwnerId, o);
      owners := owners + [o];
    }

    method AddImage(i: PropertyImage)
      requires Valid() && !HasId(images, ImageId, i.id)
      modifies this
      ensures Valid()
      ensures Contents() == old(Contents()).(images := old(images) + [i])
    {
      AppendFreshKeepsUnique(images, ImageId, i);
      images := images + [i];
    }

    method AddTrace(t: PropertyTrace)
      requires Valid() && !HasId(traces, TraceId, t.id)
      modifies this
      ensures Valid()
      ensures Contents() == old(Contents()).(traces := old(traces) + [t])
    {
      AppendFreshKeepsUnique(traces, TraceId, t);
      traces := traces + [t];
    }
  }
}
