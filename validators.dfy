/**
 * The FluentValidation rule sets of the five request validators. A validator yields
 * the failure messages in rule order; every rule runs (the default cascade), so one
 * field can contribute both of its messages. `DateTime.Now` is the parameter `now`.
 */
module Validators {

  import opened Wrappers
  import opened Clock
  import opened Text
  import opened Requests

  /** The message of one rule when it fails. */
  function Rule(holds: bool, message: string): (errors: seq<string>)
    ensures errors == [] <==> holds
    ensures message in errors <==> !holds
  {
    if holds then [] else [message]
  }

  /** FluentValidation's `NotEmpty()` on a string: not null, empty or whitespace. */
  predicate NotEmptyText(s: string) {
    !IsBlank(s)
  }

  /** `NotEmpty()` on a `DateTime`: not `default(DateTime)`. */
  predicate NotEmptyDate(t: DateTime) {
    t != DefaultDateTime
  }

  const PageSizeRange := "Page size must be between 1 and 100"
  const PageNumberPositive := "Page number must be greater than 0"
  const MinPriceNonNegative := "Minimum price must be greater than or equal to 0"
  const MaxPriceNonNegative := "Maximum price must be greater than or equal to 0"
  const PriceBoundsOrdered := "Minimum price must be less than or equal to maximum price"
  const NameRequired := "Name is required"
  const NameTooLong := "Name must not exceed 100 characters"
  const AddressRequired := "Address is required"
  const AddressTooLong := "Address must not exceed 200 characters"
  const PriceNonNegative := "Price must be greater than or equal to 0"
  const CodeInternalRequired := "Code internal is required"
  const CodeInternalTooLong := "Code internal must not exceed 50 characters"
  const YearRange := "Year must be between 1900 and 2100"
  const OwnerIdRequired := "Owner ID is required"
  const PhotoRequired := "Photo is required"
  const PhotoTooLong := "Photo URL must not exceed 500 characters"
  const BirthdayRequired := "Birthday is required"
  const BirthdayInPast := "Birthday must be in the past"
  const PropertyIdRequired := "Property ID is required"
  const FileRequired := "File is required"
  const FileTooLong := "File URL must not exceed 500 characters"
  const DateSaleRequired := "Date sale is required"
  const DateSaleNotFuture := "Date sale cannot be in the future"
  const ValueNonNegative := "Value must be greater than or equal to 0"
  const TaxNonNegative := "Tax must be greater than or equal to 0"

  /** `GetPropertiesRequestValidator`. */
  function GetPropertiesErrors(r: GetPropertiesRequest): (errors: seq<string>)
    ensures errors == [] <==>
      && 1 <= r.pageSize <= 100
      && 0 < r.pageNumber
      && (r.minPrice.Some? ==> 0 <= r.minPrice.value)
      && (r.maxPrice.Some? ==> 0 <= r.maxPrice.value)
      && (r.minPrice.Some? && r.maxPrice.Some? ==> r.minPrice.value <= r.maxPrice.value)
      && (!IsNullOrEmpty(r.name) ==> |r.name.value| <= 100)
      && (!IsNullOrEmpty(r.address) ==> |r.address.value| <= 200)
    ensures PriceBoundsOrdered in errors <==>
      r.minPrice.Some? && r.maxPrice.Some? && r.minPrice.value > r.maxPrice.value
  {
    Rule(1 <= r.pageSize <= 100, PageSizeRange)
    + Rule(0 < r.pageNumber, PageNumberPositive)
    + Rule(r.minPrice.None? || 0 <= r.minPrice.value, MinPriceNonNegative)
    + Rule(r.maxPrice.None? || 0 <= r.maxPrice.value, MaxPriceNonNegative)
    + Rule(r.minPrice.None? || r.maxPrice.None? || r.minPrice.value <= r.maxPrice.value, PriceBoundsOrdered)
    + Rule(IsNullOrEmpty(r.name) || |r.name.value| <= 100, NameTooLong)
    + Rule(IsNullOrEmpty(r.address) || |r.address.value| <= 200, AddressTooLong)
  }

  /** `CreatePropertyRequestValidator`. */
  function CreatePropertyErrors(r: CreatePropertyRequest): (errors: seq<string>)
    ensures errors == [] <==>
      && NotEmptyText(r.name) && |r.name| <= 100
      && NotEmptyText(r.address) && |r.address| <= 200
      && 0 <= r.price
      && NotEmptyText(r.codeInternal) && |r.codeInternal| <= 50
      && 1900 <= r.year <= 2100
      && NotEmptyText(r.idOwner)
    ensures YearRange in errors <==> !(1900 <= r.year <= 2100)
  {
    Rule(NotEmptyText(r.name), NameRequired)
    + Rule(|r.name| <= 100, NameTooLong)
    + Rule(NotEmptyText(r.address), AddressRequired)
    + Rule(|r.address| <= 200, AddressTooLong)
    + Rule(0 <= r.price, PriceNonNegative)
    + Rule(NotEmptyText(r.codeInternal), CodeInternalRequired)
    + Rule(|r.codeInternal| <= 50, CodeInternalTooLong)
    + Rule(1900 <= r.year <= 2100, YearRange)
    + Rule(NotEmptyText(r.idOwner), OwnerIdRequired)
  }

  /** `CreateOwnerRequestValidator`; `now` is `DateTime.Now`. */
  function CreateOwnerErrors(r: CreateOwnerRequest, now: DateTime): (errors: seq<string>)
    ensures errors == [] <==>
      && NotEmptyText(r.name) && |r.name| <= 100
      && NotEmptyText(r.address) && |r.address| <= 200
      && NotEmptyText(r.photo) && |r.photo| <= 500
      && NotEmptyDate(r.birthday) && r.birthday < now
    ensures BirthdayInPast in errors <==> now <= r.birthday
  {
    Rule(NotEmptyText(r.name), NameRequired)
    + Rule(|r.name| <= 100, NameTooLong)
    + Rule(NotEmptyText(r.address), AddressRequired)
    + Rule(|r.address| <= 200, AddressTooLong)
    + Rule(NotEmptyText(r.photo), PhotoRequired)
    + Rule(|r.photo| <= 500, PhotoTooLong)
    + Rule(NotEmptyDate(r.birthday), BirthdayRequired)
    + Rule(r.birthday < now, BirthdayInPast)
  }

  /** `CreatePropertyImageRequestValidator`; `Enabled` carries no rule. */
  function CreatePropertyImageErrors(r: CreatePropertyImageRequest): (errors: seq<string>)
    ensures errors == [] <==>
      NotEmptyText(r.idProperty) && NotEmptyText(r.file) && |r.file| <= 500
  {
    Rule(NotEmptyText(r.idProperty), PropertyIdRequired)
    + Rule(NotEmptyText(r.file), FileRequired)
    + Rule(|r.file| <= 500, FileTooLong)
  }

  /** `CreatePropertyTraceRequestValidator`; `now` is `DateTime.Now`. */
  function CreatePropertyTraceErrors(r: CreatePropertyTraceRequest, now: DateTime): (errors: seq<string>)
    ensures errors == [] <==>
      && NotEmptyDate(r.dateSale) && r.dateSale <= now
      && NotEmptyText(r.name) && |r.name| <= 100
      && 0 <= r.value && 0 <= r.tax
      && NotEmptyText(r.idProperty)
    ensures DateSaleNotFuture in errors <==> now < r.dateSale
  {
    Rule(NotEmptyDate(r.dateSale), DateSaleRequired)
    + Rule(r.dateSale <= now, DateSaleNotFuture)
    + Rule(NotEmptyText(r.name), NameRequired)
    + Rule(|r.name| <= 100, NameTooLong)
    + Rule(0 <= r.value, ValueNonNegative)
    + Rule(0 <= r.tax, TaxNonNegative)
    + Rule(NotEmptyText(r.idProperty), PropertyIdRequired)
  }

  /** The default listing request passes, and so do equal price bounds. */
  lemma GetPropertiesBoundaries(price: int)
    requires 0 <= price
    ensures GetPropertiesErrors(DefaultGetPropertiesRequest) == []
    ensures GetPropertiesErrors(DefaultGetPropertiesRequest.(minPrice := Some(price), maxPrice := Some(price))) == []
    ensures GetPropertiesErrors(DefaultGetPropertiesRequest.(pageSize := 101)) == [PageSizeRange]
    ensures GetPropertiesErrors(DefaultGetPropertiesRequest.(pageNumber := 0)) == [PageNumberPositive]
  {
  }

  /**
   * The name-length rule only applies when the name is not null or empty, so a page
   * beyond the last, a whitespace name and the largest page number all pass.
   */
  lemma GetPropertiesAcceptsHugePageNumber()
    ensures GetPropertiesErrors(DefaultGetPropertiesRequest.(pageNumber := Int32Max)) == []
    ensures GetPropertiesErrors(DefaultGetPropertiesRequest.(pageNumber := 1073741825, pageSize := 4)) == []
    ensures GetPropertiesErrors(DefaultGetPropertiesRequest.(name := Some("   "))) == []
  {
  }

  /** A blank name fails only its `NotEmpty` rule; the year bounds are inclusive. */
  lemma CreatePropertyNameRules(r: CreatePropertyRequest)
    requires CreatePropertyErrors(r) == []
    ensures CreatePropertyErrors(r.(name := " ")) == [NameRequired]
    ensures CreatePropertyErrors(r.(year := 1900)) == [] && CreatePropertyErrors(r.(year := 2100)) == []
    ensures CreatePropertyErrors(r.(year := 1899)) == [YearRange]
  {
    assert IsBlank(" ") by { assert IsWhiteSpace(" "[0]); }
  }

  /** A sale dated exactly now is accepted; a birthday of exactly now is not. */
  lemma NowIsTheBoundary(t: CreatePropertyTraceRequest, o: CreateOwnerRequest, now: DateTime)
    requires CreatePropertyTraceErrors(t, now) == [] && CreateOwnerErrors(o, now) == []
    ensures CreatePropertyTraceErrors(t.(dateSale := now), now) == []
    ensures CreateOwnerErrors(o.(birthday := now), now) == [BirthdayInPast]
  {
  }

  /** `Enabled` does not affect validation; the default request fails on both required fields. */
  lemma ImageEnabledIsUnconstrained(r: CreatePropertyImageRequest, enabled: bool)
    ensures CreatePropertyImageErrors(r.(enabled := enabled)) == CreatePropertyImageErrors(r)
    ensures CreatePropertyImageErrors(DefaultCreatePropertyImageRequest) == [PropertyIdRequired, FileRequired]
  {
  }
}
