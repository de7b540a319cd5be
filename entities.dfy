/**
 * The stored entities (`Property`, `Owner`, `PropertyImage`, `PropertyTrace`), the
 * id lookups of `IRepository<T>`, and the DTOs the services return (the AutoMapper
 * profile copies fields by name; a DTO is the entity without its bookkeeping fields).
 */
module Entities {

  import opened Wrappers
  import opened Clock

  /** A C# `decimal` amount, exact; modelled as an integer number of units. */
  type Decimal = int

  datatype Owner = Owner(
    id: string,
    name: string,
    address: string,
    photo: string,
    birthday: DateTime,
    createdAt: DateTime,
    updatedAt: DateTime)

  /**
   * A property. `owner` and `mainImage` are not stored: the queries of the property
   * repository fill them in (`None` is `null`).
   */
  datatype Property = Property(
    id: string,
    name: string,
    address: string,
    price: Decimal,
    codeInternal: string,
    year: int,
    idOwner: string,
    createdAt: DateTime,
    updatedAt: DateTime,
    owner: Option<Owner>,
    mainImage: Option<string>)

  datatype PropertyImage = PropertyImage(
    id: string,
    idProperty: string,
    file: string,
    enabled: bool,
    createdAt: DateTime,
    updatedAt: DateTime)

  datatype PropertyTrace = PropertyTrace(
    id: string,
    dateSale: DateTime,
    name: string,
    value: Decimal,
    tax: Decimal,
    idProperty: string,
    createdAt: DateTime,
    updatedAt: DateTime)

  function PropertyId(p: Property): string { p.id }
  function OwnerId(o: Owner): string { o.id }
  function ImageId(i: PropertyImage): string { i.id }
  function TraceId(t: PropertyTrace): string { t.id }

  /** Some element of `s` has identifier `id`: `ExistsAsync(id)`. */
  predicate HasId<T>(s: seq<T>, idOf: T -> string, id: string) {
    exists i | 0 <= i < |s| :: idOf(s[i]) == id
  }

  /** No two elements of `s` share an identifier, as MongoDB's `_id` index guarantees. */
  predicate UniqueIds<T>(s: seq<T>, idOf: T -> string) {
    forall i, j | 0 <= i < j < |s| :: idOf(s[i]) != idOf(s[j])
  }

  /** The first element of `s` with identifier `id`, or `null`: `GetByIdAsync(id)`. */
  function FindById<T>(s: seq<T>, idOf: T -> string, id: string): (r: Option<T>)
    ensures r.None? <==> !HasId(s, idOf, id)
    ensures r.Some? ==> idOf(r.value) == id && exists i | 0 <= i < |s| :: s[i] == r.value
    decreases |s|
  {
    if s == [] then None
    else if idOf(s[0]) == id then Some(s[0])
    else
      var r := FindById(s[1..], idOf, id);
      assert forall i | 0 <= i < |s| - 1 :: s[1..][i] == s[i + 1];
      r
  }

  /** With unique identifiers, looking up an element's identifier finds that element. */
  lemma {:induction false} FindUnique<T>(s: seq<T>, idOf: T -> string, k: int)
    requires UniqueIds(s, idOf) && 0 <= k < |s|
    ensures FindById(s, idOf, idOf(s[k])) == Some(s[k])
    decreases |s|
  {
    if k > 0 {
      assert idOf(s[0]) != idOf(s[k]);
      var rest := s[1..];
      assert forall i, j | 0 <= i < j < |rest| :: rest[i] == s[i + 1] && rest[j] == s[j + 1];
      FindUnique(rest, idOf, k - 1);
      assert rest[k - 1] == s[k];
    }
  }

  /** Appending an element with a fresh identifier keeps identifiers unique. */
  lemma AppendFreshKeepsUnique<T>(s: seq<T>, idOf: T -> string, x: T)
    requires UniqueIds(s, idOf) && !HasId(s, idOf, idOf(x))
    ensures UniqueIds(s + [x], idOf)
    ensures forall id :: HasId(s + [x], idOf, id) <==> HasId(s, idOf, id) || id == idOf(x)
  {
    var t := s + [x];
    forall id ensures HasId(t, idOf, id) <==> HasId(s, idOf, id) || id == idOf(x) {
      if HasId(s, idOf, id) {
        var i :| 0 <= i < |s| && idOf(s[i]) == id;
        assert t[i] == s[i];
      }
      if HasId(t, idOf, id) && id != idOf(x) {
        var i :| 0 <= i < |t| && idOf(t[i]) == id;
        assert t[i] == s[i];
      }
      assert t[|s|] == x;
    }
  }

  datatype OwnerDto = OwnerDto(id: string, name: string, address: string, photo: string, birthday: DateTime)

  datatype PropertyDto = PropertyDto(
    id: string,
    name: string,
    address: string,
    price: Decimal,
    codeInternal: string,
    year: int,
    idOwner: string,
    owner: Option<OwnerDto>,
    mainImage: Option<string>,
    createdAt: DateTime,
    updatedAt: DateTime)

  datatype PropertyImageDto = PropertyImageDto(
    id: string,
    idProperty: string,
    file: string,
    enabled: bool,
    createdAt: DateTime)

  datatype PropertyTraceDto = PropertyTraceDto(
    id: string,
    dateSale: DateTime,
    name: string,
    value: Decimal,
    tax: Decimal,
    idProperty: string,
    createdAt: DateTime)

  /** The key traces are ordered by. */
  function DateSale(t: PropertyTrace): int { t.dateSale }

  /** `Map<OwnerDto>`: drops `CreatedAt` and `UpdatedAt`. */
  function OwnerToDto(o: Owner): OwnerDto {
    OwnerDto(o.id, o.name, o.address, o.photo, o.birthday)
  }

  /** `Map<PropertyDto>`: the owner is mapped too, `null` staying `null`. */
  function PropertyToDto(p: Property): PropertyDto {
    PropertyDto(p.id, p.name, p.address, p.price, p.codeInternal, p.year, p.idOwner,
      if p.owner.Some? then Some(OwnerToDto(p.owner.value)) else None,
      p.mainImage, p.createdAt, p.updatedAt)
  }

  /** `Map<PropertyImageDto>`: drops `UpdatedAt`. */
  function ImageToDto(i: PropertyImage): PropertyImageDto {
    PropertyImageDto(i.id, i.idProperty, i.file, i.enabled, i.createdAt)
  }

  /** `Map<PropertyTraceDto>`: drops `UpdatedAt`. */
  function TraceToDto(t: PropertyTrace): PropertyTraceDto {
    PropertyTraceDto(t.id, t.dateSale, t.name, t.value, t.tax, t.idProperty, t.createdAt)
  }

  /** `Map<IEnumerable<D>>`: element-wise mapping, order kept. */
  function MapAll<A, B>(s: seq<A>, f: A -> B): (r: seq<B>)
    ensures |r| == |s|
    ensures forall i | 0 <= i < |s| :: r[i] == f(s[i])
  {
    seq(|s|, i requires 0 <= i < |s| => f(s[i]))
  }

  lemma MapAllCons<A, B>(s: seq<A>, f: A -> B)
    requires s != []
    ensures MapAll(s, f) == [f(s[0])] + MapAll(s[1..], f)
  {
  }
}
