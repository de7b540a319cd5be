/**
 * The two filters the property repository builds from the listing criteria: the
 * `$match` document of the aggregation pipeline (`GetPropertiesWithFiltersAsync`) and
 * the `FilterDefinition` of the count (`GetPropertiesCountAsync`). Both are proved to
 * select exactly the properties `PropertyMatches` describes, so the page and its total
 * count always agree.
 *
 * Regular expressions are applied as literal, case-insensitive substring searches
 * (the `"i"` option the repository always passes).
 */
module PropertyFilters {

  import opened Wrappers
  import opened Text
  import opened Entities

  /** The optional filters of a listing request. */
  datatype Criteria = Criteria(
    name: Option<string>,
    address: Option<string>,
    minPrice: Option<Decimal>,
    maxPrice: Option<Decimal>)

  /**
   * What the listing selects: the name and the address must both contain their
   * pattern (each ignored when null or whitespace), and the price must lie within
   * the inclusive bounds that are given.
   */
  predicate PropertyMatches(c: Criteria, p: Property) {
    TextMatches(c, p) && PriceMatches(c, p)
  }

  // ---- The `$match` document ----

  /** The value a document field condition tests. */
  datatype Condition =
    | RegexCondition(pattern: string)                    // `new BsonRegularExpression(pattern, "i")`
    | OperatorCondition(operators: seq<(string, Decimal)>) // `{ "$gte": a, "$lte": b }`

  /** One element of a query document. */
  datatype Element =
    | FieldElement(field: string, condition: Condition)
    | OrElement(alternatives: seq<Document>)              // `"$or": [ { ... }, ... ]`

  /** A query document (a `BsonDocument`): its elements must all hold. */
  datatype Document = Document(elements: seq<Element>)

  /** The string fields a regex can test; `None` for any other field. */
  function TextField(p: Property, field: string): Option<string> {
    if field == "name" then Some(p.name)
    else if field == "address" then Some(p.address)
    else None
  }

  /** The numeric fields a comparison can test. */
  function NumberField(p: Property, field: string): Option<Decimal> {
    if field == "price" then Some(p.price) else None
  }

  predicate OperatorHolds(op: string, operand: Decimal, value: Decimal) {
    || (op == "$gte" && operand <= value)
    || (op == "$lte" && value <= operand)
  }

  predicate ConditionHolds(c: Condition, p: Property, field: string) {
    match c
    case RegexCondition(pattern) =>
      TextField(p, field).Some? && ContainsIgnoreCase(TextField(p, field).value, pattern)
    case OperatorCondition(ops) =>
      NumberField(p, field).Some? &&
      forall i | 0 <= i < |ops| :: OperatorHolds(ops[i].0, ops[i].1, NumberField(p, field).value)
  }

  predicate ElementHolds(e: Element, p: Property)
    decreases e
  {
    match e
    case FieldElement(field, c) => ConditionHolds(c, p, field)
    case OrElement(alternatives) =>
      exists i | 0 <= i < |alternatives| :: DocumentHolds(alternatives[i], p)
  }

  predicate DocumentHolds(d: Document, p: Property)
    decreases d
  {
    forall i | 0 <= i < |d.elements| :: ElementHolds(d.elements[i], p)
  }

  /**
   * The `$match` document, built as the repository builds it: one `$or` whose single
   * alternative holds the name and address regexes, then one `price` element.
   */
  method BuildMatchFilter(c: Criteria) returns (matchFilter: Document)
    ensures forall p :: DocumentHolds(matchFilter, p) <==> PropertyMatches(c, p)
  {
    var elements: seq<Element> := [];
    if !IsNullOrWhiteSpace(c.name) || !IsNullOrWhiteSpace(c.address) {
      var textFilter: seq<Element> := [];
      if !IsNullOrWhiteSpace(c.name) {
        textFilter := textFilter + [FieldElement("name", RegexCondition(c.name.value))];
      }
      if !IsNullOrWhiteSpace(c.address) {
        textFilter := textFilter + [FieldElement("address", RegexCondition(c.address.value))];
      }
      assert textFilter == NameElements(c) + AddressElements(c);
      elements := elements + [OrElement([Document(textFilter)])];
    }
    assert elements == TextElements(c);
    if c.minPrice.Some? || c.maxPrice.Some? {
      var priceFilter: seq<(string, Decimal)> := [];
      if c.minPrice.Some? {
        priceFilter := priceFilter + [("$gte", c.minPrice.value)];
      }
      if c.maxPrice.Some? {
        priceFilter := priceFilter + [("$lte", c.maxPrice.value)];
      }
      assert priceFilter == PriceOperators(c);
      elements := elements + [FieldElement("price", OperatorCondition(priceFilter))];
    }
    assert elements == TextElements(c) + PriceElements(c);
    forall p ensures DocumentHolds(Document(elements), p) <==> PropertyMatches(c, p) {
      TextElementsMeaning(c, p);
      PriceElementsMeaning(c, p);
      DocumentConcat(TextElements(c), PriceElements(c), p);
    }
    matchFilter := Document(elements);
    if |matchFilter.elements| == 0 {
      matchFilter := Document([]);
    }
  }

  function NameElements(c: Criteria): seq<Element> {
    if !IsNullOrWhiteSpace(c.name) then [FieldElement("name", RegexCondition(c.name.value))] else []
  }

  function AddressElements(c: Criteria): seq<Element> {
    if !IsNullOrWhiteSpace(c.address) then [FieldElement("address", RegexCondition(c.address.value))] else []
  }

  /** The `$or` element with its single alternative, when a text criterion is given. */
  function TextElements(c: Criteria): seq<Element> {
    if !IsNullOrWhiteSpace(c.name) || !IsNullOrWhiteSpace(c.address)
    then [OrElement([Document(NameElements(c) + AddressElements(c))])]
    else []
  }

  /** The `price` element, when a bound is given. */
  function PriceElements(c: Criteria): seq<Element> {
    if c.minPrice.Some? || c.maxPrice.Some? then [FieldElement("price", OperatorCondition(PriceOperators(c)))]
    else []
  }

  /** `{ "$gte": min, "$lte": max }`, each operator present when its bound is. */
  function PriceOperators(c: Criteria): seq<(string, Decimal)> {
    (if c.minPrice.Some? then [("$gte", c.minPrice.value)] else [])
    + (if c.maxPrice.Some? then [("$lte", c.maxPrice.value)] else [])
  }

  /** A document made of two parts holds when both parts do. */
  lemma DocumentConcat(a: seq<Element>, b: seq<Element>, p: Property)
    ensures DocumentHolds(Document(a + b), p) <==> DocumentHolds(Document(a), p) && DocumentHolds(Document(b), p)
  {
    var d := Document(a + b);
    if DocumentHolds(Document(a), p) && DocumentHolds(Document(b), p) {
      forall i | 0 <= i < |a + b| ensures ElementHolds(d.elements[i], p) {
        if i < |a| { assert d.elements[i] == a[i]; } else { assert d.elements[i] == b[i - |a|]; }
      }
    }
    if DocumentHolds(d, p) {
      forall i | 0 <= i < |a| ensures ElementHolds(a[i], p) { assert d.elements[i] == a[i]; }
      forall i | 0 <= i < |b| ensures ElementHolds(b[i], p) { assert d.elements[|a| + i] == b[i]; }
    }
  }

  lemma OneElementDocument(e: Element, p: Property)
    ensures DocumentHolds(Document([e]), p) <==> ElementHolds(e, p)
  {
    assert Document([e]).elements[0] == e;
  }

  /** The optional `$or` element stands for the text part of the criteria. */
  lemma TextElementsMeaning(c: Criteria, p: Property)
    ensures DocumentHolds(Document(TextElements(c)), p) <==> TextMatches(c, p)
  {
    if TextElements(c) != [] {
      var alternative := Document(NameElements(c) + AddressElements(c));
      OneElementDocument(OrElement([alternative]), p);
      SingletonOrIsConjunction(alternative, p);
      DocumentConcat(NameElements(c), AddressElements(c), p);
      if !IsNullOrWhiteSpace(c.name) {
        OneElementDocument(NameElements(c)[0], p);
      }
      if !IsNullOrWhiteSpace(c.address) {
        OneElementDocument(AddressElements(c)[0], p);
      }
    }
  }

  /** The optional `price` element stands for the price part of the criteria. */
  lemma PriceElementsMeaning(c: Criteria, p: Property)
    ensures DocumentHolds(Document(PriceElements(c)), p) <==> PriceMatches(c, p)
  {
    if PriceElements(c) != [] {
      OneElementDocument(PriceElements(c)[0], p);
      PriceOperatorsMeaning(c, p.price);
    }
  }

  lemma PriceOperatorsMeaning(c: Criteria, v: Decimal)
    ensures (forall i | 0 <= i < |PriceOperators(c)| :: OperatorHolds(PriceOperators(c)[i].0, PriceOperators(c)[i].1, v))
            <==> (c.minPrice.None? || c.minPrice.value <= v) && (c.maxPrice.None? || v <= c.maxPrice.value)
  {
    var ops := PriceOperators(c);
    if c.minPrice.Some? {
      assert ops[0] == ("$gte", c.minPrice.value);
    }
    if c.maxPrice.Some? {
      assert ops[|ops| - 1] == ("$lte", c.maxPrice.value);
    }
  }

  /** The name and address part of `PropertyMatches`. */
  predicate TextMatches(c: Criteria, p: Property) {
    && (IsNullOrWhiteSpace(c.name) || ContainsIgnoreCase(p.name, c.name.value))
    && (IsNullOrWhiteSpace(c.address) || ContainsIgnoreCase(p.address, c.address.value))
  }

  /** The price part of `PropertyMatches`. */
  predicate PriceMatches(c: Criteria, p: Property) {
    && (c.minPrice.None? || c.minPrice.value <= p.price)
    && (c.maxPrice.None? || p.price <= c.maxPrice.value)
  }

  // ---- The count's `FilterDefinition` ----

  /** The `Builders<Property>.Filter` values the count combines with `&=`. */
  datatype FilterDefinition =
    | EmptyFilter
    | RegexFilter(field: string, pattern: string)
    | GteFilter(field: string, value: Decimal)
    | LteFilter(field: string, value: Decimal)
    | AndFilter(left: FilterDefinition, right: FilterDefinition)

  predicate FilterHolds(f: FilterDefinition, p: Property) {
    match f
    case EmptyFilter => true
    case RegexFilter(field, pattern) =>
      TextField(p, field).Some? && ContainsIgnoreCase(TextField(p, field).value, pattern)
    case GteFilter(field, v) => NumberField(p, field).Some? && v <= NumberField(p, field).value
    case LteFilter(field, v) => NumberField(p, field).Some? && NumberField(p, field).value <= v
    case AndFilter(l, r) => FilterHolds(l, p) && FilterHolds(r, p)
  }

  /** The count's filter, built as the repository builds it, one `&=` per given criterion. */
  method BuildCountFilter(c: Criteria) returns (filter: FilterDefinition)
    ensures forall p :: FilterHolds(filter, p) <==> PropertyMatches(c, p)
  {
    filter := EmptyFilter;
    if !IsNullOrWhiteSpace(c.name) {
      filter := AndFilter(filter, RegexFilter("name", c.name.value));
    }
    assert forall p :: FilterHolds(filter, p) <==>
      IsNullOrWhiteSpace(c.name) || ContainsIgnoreCase(p.name, c.name.value);
    if !IsNullOrWhiteSpace(c.address) {
      filter := AndFilter(filter, RegexFilter("address", c.address.value));
    }
    assert forall p :: FilterHolds(filter, p) <==> TextMatches(c, p);
    if c.minPrice.Some? {
      filter := AndFilter(filter, GteFilter("price", c.minPrice.value));
    }
    assert forall p :: FilterHolds(filter, p) <==>
      TextMatches(c, p) && (c.minPrice.None? || c.minPrice.value <= p.price);
    if c.maxPrice.Some? {
      filter := AndFilter(filter, LteFilter("price", c.maxPrice.value));
    }
  }

  // ---- Facts about the filters ----

  /**
   * A `$or` with a single alternative is the conjunction of that alternative: the
   * name and address patterns must both match, not either one.
   */
  lemma SingletonOrIsConjunction(alternative: Document, p: Property)
    ensures ElementHolds(OrElement([alternative]), p) <==> DocumentHolds(alternative, p)
    ensures ElementHolds(OrElement([alternative]), p)
            <==> forall j | 0 <= j < |alternative.elements| :: ElementHolds(alternative.elements[j], p)
  {
    assert [alternative][0] == alternative;
  }

  /** The reading "name or address matches", which the `$or` operator suggests. */
  predicate EitherTextMatches(c: Criteria, p: Property) {
    || (!IsNullOrWhiteSpace(c.name) && ContainsIgnoreCase(p.name, c.name.value))
    || (!IsNullOrWhiteSpace(c.address) && ContainsIgnoreCase(p.address, c.address.value))
  }

  /** A property whose name matches but whose address does not is left out. */
  lemma OrElementIsNotDisjunction(p: Property)
    requires p.name == "Casa Azul" && p.address == "Calle 5"
    ensures var c := Criteria(Some("casa"), Some("norte"), None, None);
      EitherTextMatches(c, p) && !PropertyMatches(c, p)
  {
    var c := Criteria(Some("casa"), Some("norte"), None, None);
    assert !IsBlank("casa") by { assert !IsWhiteSpace("casa"[0]); }
    assert !IsBlank("norte") by { assert !IsWhiteSpace("norte"[0]); }
    assert OccursIgnoreCaseAt("casa", p.name, 0);
    assert !ContainsIgnoreCase(p.address, "norte") by {
      FirstLetterAbsent(p.address, "norte");
    }
  }

  /** With two non-blank texts and no price bounds, a property matches when it contains both. */
  lemma TextCriteriaMeaning(name: string, address: string, p: Property)
    requires !IsBlank(name) && !IsBlank(address)
    ensures PropertyMatches(Criteria(Some(name), Some(address), None, None), p) <==>
      ContainsIgnoreCase(p.name, name) && ContainsIgnoreCase(p.address, address)
  {
  }

  /** A whitespace-only pattern applies no filter, unlike a non-blank one. */
  lemma BlankPatternIsNoFilter(c: Criteria, p: Property)
    ensures PropertyMatches(c.(name := Some("  ")), p) <==> PropertyMatches(c.(name := None), p)
    ensures PropertyMatches(c.(address := Some("\t")), p) <==> PropertyMatches(c.(address := None), p)
  {
    assert IsBlank("  ") by { assert IsWhiteSpace("  "[0]) && IsWhiteSpace("  "[1]); }
    assert IsBlank("\t") by { assert IsWhiteSpace("\t"[0]); }
  }

  /** Both price bounds are inclusive. */
  lemma PriceBoundsInclusive(p: Property)
    ensures PropertyMatches(Criteria(None, None, Some(p.price), Some(p.price)), p)
    ensures !PropertyMatches(Criteria(None, None, Some(p.price + 1), None), p)
  {
  }
}
