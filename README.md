# LuxuryHub property catalogue — Dafny model

LuxuryHub is an ASP.NET web API for a luxury real-estate catalogue. It stores properties, their owners, their images and their sale traces in MongoDB, and it puts an in-memory, time-limited cache in front of the property queries. This project models the core of that system and proves properties of the model:

- **Cache-aside property service.** There are four operations. Create checks that the owner exists, inserts the property and asks for a pattern invalidation. The filtered, paged listing uses a five-minute cache entry. The point query joins the owner and uses a ten-minute cache entry. The image and trace listings belong to one property.
- **In-memory cache.** This is a dictionary from key to (value, expiration). Expiry is strict (`now < expiration`) and expired entries are removed lazily. Serialisation and deserialisation errors are swallowed. The default lifetime is five minutes. Pattern removal does nothing.
- **Property repository.** The Mongo match filter is built from a single-element `$or` and inclusive `$gte`/`$lte` price bounds. The aggregation pipeline left-joins the owner, picks the first enabled image as the main image, sorts by `createdAt` descending, then skips and limits. There is also the count query, the owner join without filters, and the point query with its owner.
- **Owner, image and trace services.** Each has a create with an existence check, a get-by-id that raises not-found, and a filtered, in-memory paged listing. Traces are listed by sale date, newest first.
- **Requests, validators, domain exceptions, and the middleware** that maps an exception to an HTTP status and response body.

The model has two layers:

- Pure functions carry the meaning. Examples are `PropertyService.PropertiesPage`, `CacheService.Lookup` and `PropertyRepository.GetPropertiesWithFilters`.
- Classes with mutable state use those functions as specifications. `DocumentStore.Database` holds the four collections, `CacheService.MemoryCache` holds the cache entries, and each service is a class over them. Every method's `ensures` ties its result and the new state to the matching function of the old state.

External inputs are parameters:

- The clock is a `now: DateTime` parameter, in ticks.
- Fresh identifiers (Mongo `ObjectId`s) are a `newId` parameter.
- Cache faults are boolean parameters. A deserialisation failure on get, or a serialisation failure on set, is swallowed by the cache as in the source. A `DateTime` overflow on set also counts as a set failure.
- Repository exceptions are `Result` errors. Every exception the data layer can raise is rethrown by the services unchanged.

Modules, one file each:

| file | module | contents |
|---|---|---|
| `wrappers.dfy` | `Wrappers` | `Option` and `Result` |
| `clock.dfy` | `Clock` | ticks, minute spans, checked `DateTime` addition |
| `text.dfy` | `Text` | `IsNullOrEmpty`/`IsNullOrWhiteSpace`, number formatting, joining the cache key, case-insensitive containment |
| `entities.dfy` | `Entities` | entities, DTOs and their mappings, lookup by id |
| `store.dfy` | `DocumentStore` | the four collections as a class |
| `linq.dfy` | `Linq` | `Where` and `Count` |
| `sorting.dfy` | `Sorting` | stable sort by a key, largest key first |
| `pagination.dfy` | `Pagination` | `PaginatedResult`, page arithmetic, `Skip`/`Take` |
| `requests.dfy` | `Requests` | request records, `Skip`/`Take`, the Int32 wrap |
| `validators.dfy` | `Validators` | the five validators |
| `domain_exceptions.dfy` | `DomainExceptions` | the exceptions and the not-found message |
| `exception_middleware.dfy` | `ExceptionMiddleware` | the status mapping |
| `cache_service.dfy` | `CacheService` | the cache |
| `property_filters.dfy` | `PropertyFilters` | the match and count filters and their meaning |
| `property_repository.dfy` | `PropertyRepository` | the pipelines |
| `property_service.dfy` | `PropertyService` | the property service |
| `service_paging.dfy` | `ServicePaging` | the paging shared by the three in-memory listings |
| `owner_service.dfy` | `OwnerService` | the owner service |
| `property_image_service.dfy` | `PropertyImageService` | the image service |
| `property_trace_service.dfy` | `PropertyTraceService` | the trace service |

Some properties that the model proves show surprising behaviour of the source as written. Each is proved as a lemma, and none is a defect claim:

- **`PropertyService.ColonRequestsShareKey` and `PropertyService.CollidingRequestsSelectDifferently`.** The list cache key joins the raw name and address with `:`. So the requests (name `a:b`, address `c`) and (name `a`, address `b:c`) share one key, yet they select different properties.
- **`PropertyService.CreateLeavesListingStale`.** Creating a property leaves a live cached page unchanged, because pattern removal is a no-op. The stale page keeps being served even when the new property matches its filter.
- **`PropertyImageService.DisabledImageOnlyInImageListing`.** The image service lists a disabled image. The property service's per-property image list drops it.
- **`PropertyImageService.BlankIdStillFilters`.** The image and trace listings test `IdProperty` with `IsNullOrEmpty`, so a blank id `" "` still filters. The property filters use `IsNullOrWhiteSpace`, so a blank name does not filter at all.

## Model

| member | source | states |
|---|---|---|
| Clock.FromMinutes | LuxuryHub.Infrastructure/Services/CacheService.cs:65 | a positive number of minutes is a positive span |
| Clock.AddTicks | LuxuryHub.Infrastructure/Services/CacheService.cs:65 | adding a span to a DateTime succeeds exactly when the sum stays in the DateTime range, and then it is the sum |
| Text.OrEmpty | LuxuryHub.Application/Services/PropertyService.cs:96 | a null string interpolates as the empty text, and any other string as itself |
| Text.DigitChar | LuxuryHub.Application/Services/PropertyService.cs:96 | a decimal digit is rendered as a character between '0' and '9' |
| Text.NatToString | LuxuryHub.Application/Services/PropertyService.cs:96 | a non-negative number renders as a non-empty run of digits, one digit long exactly when it is below ten |
| Text.IntToString | LuxuryHub.Application/Services/PropertyService.cs:96 | a number renders as non-empty text with no ':' that starts with '-' exactly when it is negative |
| Text.NatToStringInjective | LuxuryHub.Application/Services/PropertyService.cs:96 | different non-negative numbers render differently |
| Text.IntToStringInjective | LuxuryHub.Application/Services/PropertyService.cs:96 | different numbers render differently |
| Text.FirstSeparatorAt | LuxuryHub.Application/Services/PropertyService.cs:96 | in a + sep + b with no sep in a, the first separator sits right after a |
| Text.SplitAtSeparator | LuxuryHub.Application/Services/PropertyService.cs:96 | if neither left part holds the separator, equal joins have equal left parts and equal right parts |
| Text.Join | LuxuryHub.Application/Services/PropertyService.cs:96 | the joined key is at least as long as each part |
| Text.JoinMovesSeparator | LuxuryHub.Application/Services/PropertyService.cs:96 | the parts "x:y", "z" and the parts "x", "y:z" join to the same key, so the key does not determine where the parts were split |
| Text.JoinInjective | LuxuryHub.Application/Services/PropertyService.cs:96 | parts without the separator are determined by their join |
| Text.ToLower | LuxuryHub.Infrastructure/Repositories/PropertyRepository.cs:41 | case folding for the "i" option shifts A–Z up by 32 and leaves every other character alone |
| Text.ContainsIgnoreCaseFacts | LuxuryHub.Infrastructure/Repositories/PropertyRepository.cs:41 | an empty pattern matches any text, a match is never longer than the text, and a text ending in the pattern matches |
| Text.PrefixIsContained | LuxuryHub.Infrastructure/Repositories/PropertyRepository.cs:41 | a pattern that is a prefix of the text matches it |
| Text.FirstLetterAbsent | LuxuryHub.Infrastructure/Repositories/PropertyRepository.cs:41 | a text that lacks the pattern's first letter, in either case, does not match |
| Entities.FindById | LuxuryHub.Infrastructure/Repositories/BaseRepository.cs:18-23 | the lookup finds nothing exactly when no document has the id, and otherwise returns a stored document with that id |
| Entities.FindUnique | LuxuryHub.Infrastructure/Repositories/BaseRepository.cs:18-23 | when ids are unique, looking up a stored document's id returns that document |
| Entities.AppendFreshKeepsUnique | LuxuryHub.Infrastructure/Repositories/BaseRepository.cs:45-49 | inserting a document with a fresh id keeps ids unique and adds exactly that id |
| Entities.MapAll | LuxuryHub.Application/Mappings/AutoMapperProfile.cs:11-38 | mapping a list keeps its length and maps each position |
| Entities.MapAllCons | LuxuryHub.Application/Mappings/AutoMapperProfile.cs:11-38 | mapping a non-empty list maps its head and then its tail |
| DocumentStore.Database.constructor | LuxuryHub.Infrastructure/Data/MongoDbContext.cs:17-20 | a store of four collections with unique ids holds what it was given |
| DocumentStore.Database.AddProperty | LuxuryHub.Infrastructure/Repositories/BaseRepository.cs:45-49 | inserting a property with a fresh id appends it and changes no other collection |
| DocumentStore.Database.AddOwner | LuxuryHub.Infrastructure/Repositories/BaseRepository.cs:45-49 | inserting an owner with a fresh id appends it and changes no other collection |
| DocumentStore.Database.AddImage | LuxuryHub.Infrastructure/Repositories/BaseRepository.cs:45-49 | inserting an image with a fresh id appends it and changes no other collection |
| DocumentStore.Database.AddTrace | LuxuryHub.Infrastructure/Repositories/BaseRepository.cs:45-49 | inserting a trace with a fresh id appends it and changes no other collection |
| Linq.Where | LuxuryHub.Application/Services/PropertyImageService.cs:111 | a filter keeps no more than it was given, and every kept item satisfies the predicate |
| Linq.WhereMembers | LuxuryHub.Application/Services/PropertyImageService.cs:111 | an item is kept exactly when it was present and satisfies the predicate |
| Linq.WhereWhere | LuxuryHub.Application/Services/PropertyService.cs:204 | two successive filters are one filter on the conjunction |
| Linq.WhereAppend | LuxuryHub.Application/Services/PropertyImageService.cs:111 | filtering distributes over concatenation |
| Linq.CountAfterAppend | LuxuryHub.Infrastructure/Repositories/PropertyRepository.cs:185 | appending a document raises the count by one exactly when it matches |
| Sorting.InsertDescending | LuxuryHub.Application/Services/PropertyTraceService.cs:117 | inserting into a sorted list adds exactly that item |
| Sorting.SortDescending | LuxuryHub.Application/Services/PropertyTraceService.cs:117 | sorting is a permutation of its input |
| Sorting.InsertBounded | LuxuryHub.Application/Services/PropertyTraceService.cs:117 | insertion keeps every key under a common bound |
| Sorting.InsertKeepsDescending | LuxuryHub.Application/Services/PropertyTraceService.cs:117 | insertion into a newest-first list keeps it newest first |
| Sorting.SortIsDescending | LuxuryHub.Application/Services/PropertyTraceService.cs:117 | the sorted list has keys in non-increasing order |
| Sorting.WithKeyCons | LuxuryHub.Application/Services/PropertyTraceService.cs:117 | the items with a given key in a list are those of its head, then those of its tail |
| Sorting.InsertWithKey | LuxuryHub.Application/Services/PropertyTraceService.cs:117 | insertion places a new item after every earlier item with the same key |
| Sorting.KeptInEitherOrder | LuxuryHub.Application/Services/PropertyTraceService.cs:117 | two items with different keys never both survive selection by one key, whatever their order |
| Sorting.SortIsStable | LuxuryHub.Application/Services/PropertyTraceService.cs:117 | sorting keeps the original order among items with equal keys |
| Pagination.CeilDiv | LuxuryHub.Application/Services/OwnerService.cs:100 | the page count is the least multiple of the page size that covers the count |
| Pagination.MulMonotone | LuxuryHub.Application/Services/OwnerService.cs:100 | multiplying by a non-negative page size preserves order |
| Pagination.CeilDivIsLeast | LuxuryHub.Application/Services/OwnerService.cs:100 | no smaller number of pages covers the count |
| Pagination.CeilDivZero | LuxuryHub.Application/Services/OwnerService.cs:100 | there are no pages exactly when there are no items |
| Pagination.TotalPagesZeroIffEmpty | LuxuryHub.Application/DTOs/PropertyDto.cs:47-56 | a result has zero pages exactly when its total count is zero, and then no next page |
| Pagination.TotalPagesCoverCount | LuxuryHub.Application/DTOs/PropertyDto.cs:47-56 | the pages are just enough to hold the total count |
| Pagination.HasNextIffItemsRemain | LuxuryHub.Application/Services/OwnerService.cs:101-102 | there is a next page exactly when items remain after this page |
| Pagination.NoNextPageFromLastPage | LuxuryHub.Application/Services/OwnerService.cs:101-102 | the last page and any page beyond it have no next page |
| Pagination.LinqSkip | LuxuryHub.Application/Services/OwnerService.cs:88 | skipping n items removes the first n, with a negative n skipping nothing |
| Pagination.LinqTake | LuxuryHub.Application/Services/OwnerService.cs:89 | taking n items keeps a prefix of length n, or of the whole list, and a non-positive n keeps nothing |
| Pagination.WindowIsSlice | LuxuryHub.Application/Services/OwnerService.cs:88-89 | skip-then-take is the slice starting at skip, of at most take items |
| Pagination.PageBeyondLastIsEmpty | LuxuryHub.Application/Services/OwnerService.cs:88-89 | a page past the last page is empty |
| Pagination.ItemOnItsPage | LuxuryHub.Application/Services/OwnerService.cs:88-89 | item i is on page i / pageSize + 1 |
| Pagination.WindowKeepsDescending | LuxuryHub.Infrastructure/Repositories/PropertyRepository.cs:122-124 | a page of a newest-first list is newest first and holds only listed items |
| Pagination.WindowMember | LuxuryHub.Infrastructure/Repositories/PropertyRepository.cs:123-124 | every item on a page is in the list |
| Pagination.WindowsAreOrdered | LuxuryHub.Infrastructure/Repositories/PropertyRepository.cs:122-124 | every item of an earlier page is at least as new as every item of a later page |
| Requests.WrapInt32 | LuxuryHub.Application/Requests/GetPropertiesRequest.cs:22 | Int32 arithmetic agrees with the true result modulo 2^32 and equals it inside the range |
| Requests.PagesAreContiguous | LuxuryHub.Application/Requests/GetPropertiesRequest.cs:22-23 | page 1 skips nothing, and each page starts where the previous one ended |
| Requests.PagesAreOrdered | LuxuryHub.Application/Requests/GetPropertiesRequest.cs:22-23 | an earlier page ends no later than a later page starts |
| Requests.SkipIsWholePages | LuxuryHub.Application/Requests/GetPropertiesRequest.cs:22 | the skip of a valid page is a non-negative whole number of pages, one fewer than the page number |
| Requests.DivModOfMultiple | LuxuryHub.Application/Requests/GetPropertiesRequest.cs:22 | a multiple of the page size divides back exactly |
| Requests.DefaultRequestsStartAtZero | LuxuryHub.Application/Requests/GetOwnersRequest.cs:7-14 | the default property and owner requests skip nothing and take ten |
| Requests.SkipInt32AgreesWhenInRange | LuxuryHub.Application/Requests/GetPropertiesRequest.cs:22 | the Int32 skip equals the true skip whenever the true skip fits |
| Requests.SkipInt32WrapsToFirstPage | LuxuryHub.Application/Requests/GetPropertiesRequest.cs:22 | page 1073741825 of size 4 wraps to skip 0 and returns page 1 instead of an empty page |
| Validators.Rule | LuxuryHub.Application/Validators/GetPropertiesRequestValidator.cs:10-40 | a rule reports its message exactly when its condition fails |
| Validators.GetPropertiesErrors | LuxuryHub.Application/Validators/GetPropertiesRequestValidator.cs:10-40 | a listing request is accepted exactly when page size is 1–100, page number positive, prices non-negative and ordered, and non-empty texts short enough; the ordering message appears exactly when both prices are given and out of order |
| Validators.CreatePropertyErrors | LuxuryHub.Application/Validators/CreatePropertyRequestValidator.cs:10-29 | a property is accepted exactly when name, address, code and owner id are non-blank and short enough, the price is non-negative and the year is 1900–2100; the year message appears exactly when the year is outside |
| Validators.CreateOwnerErrors | LuxuryHub.Application/Validators/CreateOwnerRequestValidator.cs:10-24 | an owner is accepted exactly when name, address and photo are non-blank and short enough and the birthday is set and strictly before now; the past-birthday message appears exactly when it is not before now |
| Validators.CreatePropertyImageErrors | LuxuryHub.Application/Validators/CreatePropertyImageRequestValidator.cs:10-15 | an image is accepted exactly when property id and file are non-blank and the file is at most 500 characters |
| Validators.CreatePropertyTraceErrors | LuxuryHub.Application/Validators/CreatePropertyTraceRequestValidator.cs:10-25 | a trace is accepted exactly when the sale date is set and not after now, the name is non-blank and short enough, value and tax are non-negative and the property id is non-blank; the future-date message appears exactly when the date is after now |
| Validators.GetPropertiesBoundaries | LuxuryHub.Application/Validators/GetPropertiesRequestValidator.cs:10-40 | the default request and equal price bounds are valid, while page size 101 and page number 0 each give exactly their one message |
| Validators.GetPropertiesAcceptsHugePageNumber | LuxuryHub.Application/Validators/GetPropertiesRequestValidator.cs:10-40 | the validator accepts page number Int32.MaxValue, page 1073741825 of size 4, and a blank name |
| Validators.CreatePropertyNameRules | LuxuryHub.Application/Validators/CreatePropertyRequestValidator.cs:10-29 | a blank name gives exactly the name-required message, and the years 1900 and 2100 pass while 1899 fails |
| Validators.NowIsTheBoundary | LuxuryHub.Application/Validators/CreatePropertyTraceRequestValidator.cs:10-25 | a sale dated now is accepted, while a birthday of now is rejected |
| Validators.ImageEnabledIsUnconstrained | LuxuryHub.Application/Validators/CreatePropertyImageRequestValidator.cs:10-15 | the enabled flag never affects validation, and an empty image request gets exactly the two required messages |
| DomainExceptions.NotFound | LuxuryHub.Domain/Exceptions/DomainExceptions.cs:9-12 | a not-found exception's message is the entity name and key framed by the fixed prefix, middle and suffix |
| DomainExceptions.NotFoundMessageRoundTrip | LuxuryHub.Domain/Exceptions/DomainExceptions.cs:9-12 | the key can be read back from the message, and any message the reader accepts was built from that key |
| DomainExceptions.NotFoundMessageInjective | LuxuryHub.Domain/Exceptions/DomainExceptions.cs:9-12 | for one entity name, different keys give different messages |
| ExceptionMiddleware.HandleException | LuxuryHub.API/Middleware/GlobalExceptionHandlerMiddleware.cs:31-85 | every response is unsuccessful JSON carrying the exception's message as details, with status 400, 401, 404 or 500 |
| ExceptionMiddleware.StatusIdentifiesKind | LuxuryHub.API/Middleware/GlobalExceptionHandlerMiddleware.cs:42-77 | 404 exactly for not-found, 400 exactly for validation, 401 exactly for unauthorised access, and 500 for everything else |
| ExceptionMiddleware.MessageMatchesStatus | LuxuryHub.API/Middleware/GlobalExceptionHandlerMiddleware.cs:35-77 | two responses have the same message exactly when they have the same status |
| ExceptionMiddleware.BusinessRuleIsServerError | LuxuryHub.API/Middleware/GlobalExceptionHandlerMiddleware.cs:74-76 | a business-rule violation falls to the default case: 500 with the generic message |
| ExceptionMiddleware.NotFoundReport | LuxuryHub.API/Middleware/GlobalExceptionHandlerMiddleware.cs:44-52 | a not-found exception is reported as 404 with the entity and key in its details |
| CacheService.Lookup | LuxuryHub.Infrastructure/Services/CacheService.cs:31-58 | a get hits exactly when the key is present, not yet expired and readable; an expired entry is removed, and nothing else changes |
| CacheService.Store | LuxuryHub.Infrastructure/Services/CacheService.cs:60-76 | a set records the value with expiry now plus the given span, or five minutes by default; on failure it leaves the cache unchanged; other keys never change |
| CacheService.MemoryCache.constructor | LuxuryHub.Infrastructure/Services/CacheService.cs:20-29 | a new cache is empty |
| CacheService.MemoryCache.Get | LuxuryHub.Infrastructure/Services/CacheService.cs:31-58 | the method's result and new entries are those of the lookup |
| CacheService.MemoryCache.Set | LuxuryHub.Infrastructure/Services/CacheService.cs:60-76 | the method's new entries are those of the store |
| CacheService.MemoryCache.Remove | LuxuryHub.Infrastructure/Services/CacheService.cs:78-91 | removal deletes exactly that key |
| CacheService.MemoryCache.RemoveByPattern | LuxuryHub.Infrastructure/Services/CacheService.cs:93-107 | pattern removal leaves every entry in place |
| CacheService.SetThenGet | LuxuryHub.Infrastructure/Services/CacheService.cs:31-67 | a stored value is served until its expiry and gone from then on |
| CacheService.ExpiredAtExpiration | LuxuryHub.Infrastructure/Services/CacheService.cs:37-45 | at the exact expiration time the entry is a miss and is evicted |
| CacheService.DefaultLifetimeIsFiveMinutes | LuxuryHub.Infrastructure/Services/CacheService.cs:65 | without an explicit span an entry expires five minutes after it is set |
| CacheService.FailedReadKeepsEntry | LuxuryHub.Infrastructure/Services/CacheService.cs:40-57 | a live entry that fails to deserialise is a miss that stays in the cache |
| CacheService.OtherKeysUnaffected | LuxuryHub.Infrastructure/Services/CacheService.cs:31-91 | set, get and remove on one key never change whether another key is live |
| PropertyFilters.BuildMatchFilter | LuxuryHub.Infrastructure/Repositories/PropertyRepository.cs:33-68 | the built match document holds for a property exactly when it meets the criteria |
| PropertyFilters.DocumentConcat | LuxuryHub.Infrastructure/Repositories/PropertyRepository.cs:47-61 | a document of two groups of elements holds exactly when both groups hold |
| PropertyFilters.OneElementDocument | LuxuryHub.Infrastructure/Repositories/PropertyRepository.cs:47-61 | a one-element document holds exactly when its element holds |
| PropertyFilters.TextElementsMeaning | LuxuryHub.Infrastructure/Repositories/PropertyRepository.cs:36-48 | the text part of the filter holds exactly when every non-blank text criterion is contained, ignoring case |
| PropertyFilters.PriceElementsMeaning | LuxuryHub.Infrastructure/Repositories/PropertyRepository.cs:50-62 | the price part of the filter holds exactly when the price lies within the given bounds |
| PropertyFilters.PriceOperatorsMeaning | LuxuryHub.Infrastructure/Repositories/PropertyRepository.cs:52-60 | the $gte/$lte operators all hold exactly when the value is at least the minimum and at most the maximum |
| PropertyFilters.BuildCountFilter | LuxuryHub.Infrastructure/Repositories/PropertyRepository.cs:163-183 | the built count filter holds for a property exactly when it meets the same criteria as the match filter |
| PropertyFilters.SingletonOrIsConjunction | LuxuryHub.Infrastructure/Repositories/PropertyRepository.cs:47 | an $or of one alternative is that alternative, that is, the conjunction of its fields |
| PropertyFilters.OrElementIsNotDisjunction | LuxuryHub.Infrastructure/Repositories/PropertyRepository.cs:36-47 | a property matching the name but not the address is excluded, although a disjunction would include it |
| PropertyFilters.TextCriteriaMeaning | LuxuryHub.Infrastructure/Repositories/PropertyRepository.cs:36-48 | with both texts given, a property matches exactly when both its name and its address contain them |
| PropertyFilters.BlankPatternIsNoFilter | LuxuryHub.Infrastructure/Repositories/PropertyRepository.cs:39-45 | a white-space name or address filters exactly as an absent one |
| PropertyFilters.PriceBoundsInclusive | LuxuryHub.Infrastructure/Repositories/PropertyRepository.cs:55-59 | a price equal to both bounds matches, and a minimum one above the price does not |
| PropertyRepository.Unwind | LuxuryHub.Infrastructure/Repositories/PropertyRepository.cs:80-84 | unwinding with preserveNullAndEmptyArrays never drops a property |
| PropertyRepository.FirstEnabledFile | LuxuryHub.Infrastructure/Repositories/PropertyRepository.cs:92-106 | there is no main image exactly when no image is enabled |
| PropertyRepository.PipelineWindow | LuxuryHub.Infrastructure/Repositories/PropertyRepository.cs:123-124 | the pipeline fails exactly when skip is negative or limit is not positive |
| PropertyRepository.GetPropertiesWithFilters | LuxuryHub.Infrastructure/Repositories/PropertyRepository.cs:23-153 | the filtered query fails exactly when skip is negative or limit is not positive |
| PropertyRepository.GetPropertyWithOwner | LuxuryHub.Infrastructure/Repositories/PropertyRepository.cs:230-253 | the point query finds nothing exactly when the id is absent; otherwise it returns that property, with an owner exactly when its owner id exists, and that owner has the id |
| PropertyRepository.NoOwnersWithAbsentId | LuxuryHub.Infrastructure/Repositories/PropertyRepository.cs:73-79 | an owner id that matches nothing looks up no owners |
| PropertyRepository.LookupFindsUniqueOwner | LuxuryHub.Infrastructure/Repositories/PropertyRepository.cs:73-79 | with unique owner ids the $lookup yields the single owner found by id, or none |
| PropertyRepository.LeftJoinIsOwnerLookup | LuxuryHub.Infrastructure/Repositories/PropertyRepository.cs:73-84 | the lookup-and-unwind left join gives each property, in order, with its owner found by id |
| PropertyRepository.MissingOwnerKeepsProperty | LuxuryHub.Infrastructure/Repositories/PropertyRepository.cs:80-84 | a property whose owner is missing is kept, with no owner |
| PropertyRepository.MainImageIsFirstEnabled | LuxuryHub.Infrastructure/Repositories/PropertyRepository.cs:85-107 | the main image is absent exactly when the property has no enabled image, and otherwise it is the file of its first enabled image |
| PropertyRepository.MainImageCons | LuxuryHub.Infrastructure/Repositories/PropertyRepository.cs:85-107 | the main image comes from the first image when that one belongs to the property and is enabled, and from the rest otherwise |
| PropertyRepository.DisabledImagesGiveNoMainImage | LuxuryHub.Infrastructure/Repositories/PropertyRepository.cs:101 | a property whose images are all disabled has no main image |
| PropertyRepository.FilteredRowsAreEnrichedMatches | LuxuryHub.Infrastructure/Repositories/PropertyRepository.cs:70-194 | the pipeline rows are the matching properties with owner and main image, sorted newest first, and there are exactly as many as the count query returns |
| PropertyRepository.FilteredRowIsEnrichedMatch | LuxuryHub.Infrastructure/Repositories/PropertyRepository.cs:70-122 | every row is a stored property that matches the criteria, with its owner and main image |
| PropertyRepository.SortedMember | LuxuryHub.Infrastructure/Repositories/PropertyRepository.cs:122 | sorting adds no row |
| PropertyRepository.MatchingMember | LuxuryHub.Infrastructure/Repositories/PropertyRepository.cs:72 | every row that passes the match is a stored property satisfying the criteria |
| PropertyRepository.FilteredPageContents | LuxuryHub.Infrastructure/Repositories/PropertyRepository.cs:23-153 | a valid page is the slice of the sorted, enriched matches that starts at the skip: as many rows as remain after the skip, up to the limit, each the row at skip plus its position, newest first, every row an enriched match |
| PropertyRepository.JoinAgreesWithPointQuery | LuxuryHub.Infrastructure/Repositories/PropertyRepository.cs:196-253 | the owner-join listing succeeds, and each row it returns is what the point query returns for that id |
| PropertyRepository.JoinedRowIsPointQuery | LuxuryHub.Infrastructure/Repositories/PropertyRepository.cs:200-242 | a property joined with its owner equals the point query's answer for its id |
| PropertyService.FormatPrice | LuxuryHub.Application/Services/PropertyService.cs:96 | a price in the key has no ':' and is empty exactly when the price is absent |
| PropertyService.PropertyService.constructor | LuxuryHub.Application/Services/PropertyService.cs:23-39 | the service holds the given store and cache |
| PropertyService.PropertyService.GetProperties | LuxuryHub.Application/Services/PropertyService.cs:88-146 | the listing's result and new cache are those of the cache-aside page function over the current store, paging with the 32-bit skip |
| PropertyService.PropertyService.GetPropertyById | LuxuryHub.Application/Services/PropertyService.cs:148-188 | the point query's result and new cache are those of the cache-aside lookup function |
| PropertyService.PropertyService.CreateProperty | LuxuryHub.Application/Services/PropertyService.cs:41-86 | the result, the new cache and the new store are those of the create function, and the store stays valid |
| PropertyService.PropertyService.GetPropertyImages | LuxuryHub.Application/Services/PropertyService.cs:190-220 | the result is the property's image listing |
| PropertyService.PropertyService.GetPropertyTraces | LuxuryHub.Application/Services/PropertyService.cs:222-253 | the result is the property's trace listing |
| PropertyService.ListKeyIsNeverPropertyKey | LuxuryHub.Application/Services/PropertyService.cs:96-155 | a listing key never equals a property key, so the two kinds of entry never collide |
| PropertyService.FormatPriceInjective | LuxuryHub.Application/Services/PropertyService.cs:96 | different price bounds format differently |
| PropertyService.ListKeyIdentifiesRequest | LuxuryHub.Application/Services/PropertyService.cs:96 | when name and address hold no ':', two requests share a key exactly when they agree on every field, with null and empty text counted as equal |
| PropertyService.NullAndEmptyNameAgree | LuxuryHub.Application/Services/PropertyService.cs:96-121 | a null and an empty name share a key and select the same properties, so sharing that key is harmless |
| PropertyService.ColonRequestsShareKey | LuxuryHub.Application/Services/PropertyService.cs:96 | the requests ("a:b", "c") and ("a", "b:c") produce the same key |
| PropertyService.CollidingRequestsSelectDifferently | LuxuryHub.Application/Services/PropertyService.cs:96-121 | those two requests select different properties, so one can be served the other's cached page |
| PropertyService.CachedPageIsServed | LuxuryHub.Application/Services/PropertyService.cs:99-104 | a live cached page is returned as is, and the cache is unchanged |
| PropertyService.ListingCachedForFiveMinutes | LuxuryHub.Application/Services/PropertyService.cs:107-135 | after a miss, the fetched page is served to any request with the same key for five minutes, whatever the store holds by then |
| PropertyService.UnreadableCacheFallsBack | LuxuryHub.Application/Services/PropertyService.cs:99-121 | when the cache cannot be read, the listing is the freshly fetched page |
| PropertyService.UnwritableCacheStoresNothing | LuxuryHub.Application/Services/PropertyService.cs:107-135 | when the cache cannot be written, the listing is fetched and the key stays uncached |
| PropertyService.FetchedPageDescribesListing | LuxuryHub.Application/Services/PropertyService.cs:107-132 | when the skip of a valid request fits in an int, the 32-bit skip is the intended one and the fetched page reports the count and the request's page, holds as items the DTOs of the sorted, enriched matches from the skip on, as many as remain up to the page size, has a next page exactly when items remain and a previous page exactly after page 1 |
| PropertyService.SinglePageListing | LuxuryHub.Application/Services/PropertyService.cs:107-132 | when every match fits on page 1, that page lists them all, in one page with no next or previous page |
| PropertyService.OverflowingPropertyPages | LuxuryHub.Application/Requests/GetPropertiesRequest.cs:22 | page 1073741825 has a negative 32-bit skip for size 3, so the fetch fails, and a skip that wraps to 0 for size 4, so it serves page 1's items |
| PropertyService.CreateLeavesListingStale | LuxuryHub.Application/Services/PropertyService.cs:41-104 | creating a property keeps a live cached page, which is still served afterwards although a matching new property raises the true count by one |
| PropertyService.PropertyCachedForTenMinutes | LuxuryHub.Application/Services/PropertyService.cs:155-173 | after a miss, the property with its owner is served from the cache for ten minutes, whatever the store holds by then |
| PropertyService.MissingPropertyIsNotFound | LuxuryHub.Application/Services/PropertyService.cs:164-168 | an absent id that is not served from the cache raises not-found for "Property" with that id; the cache changes only by the lookup's eviction of an expired entry |
| PropertyService.CreateWithoutOwnerChangesNothing | LuxuryHub.Application/Services/PropertyService.cs:48-52 | creating with an unknown owner raises not-found for "Owner", and changes neither the store nor the cache |
| PropertyService.CreatedPropertyIsFetchable | LuxuryHub.Application/Services/PropertyService.cs:41-86 | a created property carries the request's fields, the new id and now, and has no joined owner or main image; it is appended alone; a following point query finds it with its owner |
| PropertyService.WhereMapMembers | LuxuryHub.Application/Services/PropertyService.cs:204 | a mapped filtered list holds exactly the images of kept items |
| PropertyService.MapAllPermutationMembers | LuxuryHub.Application/Services/PropertyService.cs:236-237 | mapping two permutations of one list gives the same members |
| PropertyService.PropertyImagesAreEnabledOnes | LuxuryHub.Application/Services/PropertyService.cs:190-220 | for a known property, the list holds exactly the DTOs of its enabled images |
| PropertyService.UnknownPropertyListingsAreNotFound | LuxuryHub.Application/Services/PropertyService.cs:197-233 | both per-property listings raise not-found for an unknown property |
| PropertyService.PropertyTracesLatestFirst | LuxuryHub.Application/Services/PropertyService.cs:222-253 | a known property's traces are exactly its own, newest first, with equal dates kept in store order |
| PropertyService.PropertyTracesMembers | LuxuryHub.Application/Services/PropertyService.cs:236-237 | every trace of the property is listed, and every listed trace belongs to it |
| ServicePaging.PageInMemoryContents | LuxuryHub.Application/Services/OwnerService.cs:84-103 | when the skip of a valid request fits in an int, the 32-bit skip is the intended one, and an in-memory page reports the listing's count and the request's page; its items are the mapped slice after that skip; the next and previous flags are set as the request implies |
| ServicePaging.EveryItemIsOnItsPage | LuxuryHub.Application/Services/OwnerService.cs:84-103 | every listed item below index Int32.MaxValue appears on page i / pageSize + 1 |
| ServicePaging.NonPositiveSkipServesFirstPage | LuxuryHub.Application/Services/OwnerService.cs:88 | a page whose 32-bit skip is zero or negative holds the items of page 1, because LINQ `Skip` skips nothing for such a count |
| ServicePaging.OverflowingPagesServeFirstPage | LuxuryHub.Application/Requests/GetOwnersRequest.cs:13 | page 1073741825 of size 3 or 4 has an intended skip past Int32.MaxValue and an empty intended window, yet its 32-bit skip is negative or 0 and the in-memory page holds page 1's items |
| OwnerService.OwnerById | LuxuryHub.Application/Services/OwnerService.cs:49-75 | the lookup fails exactly when the id is absent, with not-found for "Owner", and otherwise returns a stored owner's DTO with that id |
| OwnerService.OwnerService.constructor | LuxuryHub.Application/Services/OwnerService.cs:18-26 | the service holds the given store |
| OwnerService.OwnerService.CreateOwner | LuxuryHub.Application/Services/OwnerService.cs:28-47 | create appends the new owner, changes nothing else, and returns its DTO |
| OwnerService.OwnerService.GetOwnerById | LuxuryHub.Application/Services/OwnerService.cs:49-75 | the result is the lookup's |
| OwnerService.OwnerService.GetOwners | LuxuryHub.Application/Services/OwnerService.cs:77-114 | the result is the page of all owners, paged with the 32-bit skip |
| OwnerService.StoredOwnerIsFound | LuxuryHub.Application/Services/OwnerService.cs:55-59 | every stored owner is found by its id |
| OwnerService.CreatedOwnerIsFetchable | LuxuryHub.Application/Services/OwnerService.cs:28-59 | a created owner is found by its new id with the request's fields |
| OwnerService.OwnersPageDescribesListing | LuxuryHub.Application/Services/OwnerService.cs:84-103 | when the skip fits in an int, the 32-bit skip is the intended one and the owner page counts all owners, holds the owners after that skip in store order, and sets the next and previous flags correctly |
| OwnerService.EveryOwnerIsListed | LuxuryHub.Application/Services/OwnerService.cs:84-103 | owner k, for k below Int32.MaxValue, appears on page k / pageSize + 1 |
| PropertyImageService.ImageById | LuxuryHub.Application/Services/PropertyImageService.cs:71-97 | the lookup fails exactly when the id is absent, with not-found for "PropertyImage", and otherwise returns a stored image's DTO with that id |
| PropertyImageService.PropertyImageService.constructor | LuxuryHub.Application/Services/PropertyImageService.cs:19-29 | the service holds the given store |
| PropertyImageService.PropertyImageService.CreatePropertyImage | LuxuryHub.Application/Services/PropertyImageService.cs:31-69 | the result and the new store are those of the create function |
| PropertyImageService.PropertyImageService.GetPropertyImageById | LuxuryHub.Application/Services/PropertyImageService.cs:71-97 | the result is the lookup's |
| PropertyImageService.PropertyImageService.GetPropertyImages | LuxuryHub.Application/Services/PropertyImageService.cs:99-143 | the result is the page of the filtered images, paged with the 32-bit skip |
| PropertyImageService.ListedImagesMembers | LuxuryHub.Application/Services/PropertyImageService.cs:106-112 | an image is listed exactly when it is stored and, given a non-empty id, belongs to that property, whether enabled or not |
| PropertyImageService.DisabledImageOnlyInImageListing | LuxuryHub.Application/Services/PropertyImageService.cs:106-112 | a disabled image of a known property is in this listing, but not in the property service's image list |
| PropertyImageService.BlankIdStillFilters | LuxuryHub.Application/Services/PropertyImageService.cs:108-111 | a blank property id still filters and an empty one does not, while a blank property name filters nothing |
| PropertyImageService.CreateImageRequiresProperty | LuxuryHub.Application/Services/PropertyImageService.cs:38-42 | creating an image for an unknown property raises not-found for "Property" and stores nothing |
| PropertyImageService.CreatedImageIsFetchable | LuxuryHub.Application/Services/PropertyImageService.cs:31-69 | a created image carries the request's fields, is found by its id and is listed for its property; by default it is enabled |
| PropertyImageService.StoredImageIsFound | LuxuryHub.Application/Services/PropertyImageService.cs:77-81 | every stored image is found by its id |
| PropertyImageService.ImagesPageDescribesListing | LuxuryHub.Application/Services/PropertyImageService.cs:114-132 | when the skip fits in an int, the 32-bit skip is the intended one and the image page counts the filtered images, holds them after that skip in store order, and sets the next and previous flags correctly |
| PropertyTraceService.TraceById | LuxuryHub.Application/Services/PropertyTraceService.cs:73-99 | the lookup fails exactly when the id is absent, with not-found for "PropertyTrace", and otherwise returns a stored trace's DTO with that id |
| PropertyTraceService.PropertyTraceService.constructor | LuxuryHub.Application/Services/PropertyTraceService.cs:19-29 | the service holds the given store |
| PropertyTraceService.PropertyTraceService.CreatePropertyTrace | LuxuryHub.Application/Services/PropertyTraceService.cs:31-71 | the result and the new store are those of the create function |
| PropertyTraceService.PropertyTraceService.GetPropertyTraceById | LuxuryHub.Application/Services/PropertyTraceService.cs:73-99 | the result is the lookup's |
| PropertyTraceService.PropertyTraceService.GetPropertyTraces | LuxuryHub.Application/Services/PropertyTraceService.cs:101-148 | the result is the page of the sorted, filtered traces, paged with the 32-bit skip |
| PropertyTraceService.ListedTracesOrder | LuxuryHub.Application/Services/PropertyTraceService.cs:108-117 | the listing is newest first, is a permutation of the selected traces, and keeps store order among equal dates |
| PropertyTraceService.ListedTracesMembers | LuxuryHub.Application/Services/PropertyTraceService.cs:108-117 | a trace is listed exactly when it is stored and, given a non-empty id, belongs to that property |
| PropertyTraceService.CreateTraceRequiresProperty | LuxuryHub.Application/Services/PropertyTraceService.cs:38-42 | creating a trace for an unknown property raises not-found for "Property" and stores nothing |
| PropertyTraceService.CreatedTraceIsFetchable | LuxuryHub.Application/Services/PropertyTraceService.cs:31-71 | a created trace carries the request's fields, is found by its id and is listed for its property |
| PropertyTraceService.StoredTraceIsFound | LuxuryHub.Application/Services/PropertyTraceService.cs:79-83 | every stored trace is found by its id |
| PropertyTraceService.TracesPageDescribesListing | LuxuryHub.Application/Services/PropertyTraceService.cs:119-137 | when the skip fits in an int, the 32-bit skip is the intended one and the trace page counts the selected traces, holds the sorted listing after that skip, and sets the next and previous flags correctly |
| PropertyTraceService.TracesPagesAreLatestFirst | LuxuryHub.Application/Services/PropertyTraceService.cs:117-123 | within a page the sale dates never increase, and, while both skips fit in an int, an earlier page holds no trace older than any on a later page |
| PropertyTraceService.OverflowingTracePageRepeatsFirst | LuxuryHub.Application/Services/PropertyTraceService.cs:119-137 | page 1073741825 of size 4 lists the same traces as page 1, the latest sales, because its 32-bit skip wraps to 0 |

## Left out

- Logging, `async`/`await`, dependency injection, configuration, the controllers and the JSON bodies they write are not modelled. Concurrency is left out too: every operation runs as one atomic step.
- The model assumes one cache object for the application's lifetime, shared by every request. The sources never register `ICacheService`: `LuxuryHub.Infrastructure/DependencyInjection.cs:36-43` registers only `MongoDbContext` and the repositories, and `LuxuryHub.Application/DependencyInjection.cs:13-16` registers the services as scoped. The cross-request lemmas `PropertyService.ListingCachedForFiveMinutes`, `PropertyService.PropertyCachedForTenMinutes` and `PropertyService.CreateLeavesListingStale` hold only under that assumption. With a scoped or transient registration, each request would start from an empty cache.
- Each operation reads the clock once, as its `now` parameter. The source reads `DateTime.UtcNow` separately for `CreatedAt` and `UpdatedAt` (`PropertyService.cs:62-63`, `PropertyImageService.cs:49-50`, `PropertyTraceService.cs:51-52`, `AutoMapperProfile.cs:14-15` and `:21-22`). The cache also reads it again, after the fetch (`CacheService.cs:37` and `:65`). So `CreatedAt == UpdatedAt`, and the instant of a cache get equalling that of the set that follows, hold only within one clock reading.
- The MongoDB driver and server are modelled as four in-memory collections.
  - Connection, timeout and serialisation errors of the driver are not modelled. The only driver error modelled is the rejection of a negative `$skip` or a non-positive `$limit`.
  - The order of documents with equal `createdAt` after `$sort` is unspecified by MongoDB. The model uses insertion order.
  - The `mongodb_indexes.js` script is not modelled.
  - The store keeps values exactly as written. The MongoDB serializer stores a `DateTime` at millisecond precision and converts it to UTC, and `DateSale` is set by the client, so it may be Local or Unspecified. `PropertyService.CreatedPropertyIsFetchable`, `PropertyImageService.CreatedImageIsFetchable` and `PropertyTraceService.CreatedTraceIsFetchable` therefore hold for this exact store, not for the round trip through the serializer.
- Regular expressions: the name and address patterns are modelled as a literal substring match that ignores ASCII case. This is faithful only for patterns without regex metacharacters. Unicode case folding is not modelled.
- JSON serialisation in the cache is not modelled. The stored value is kept as is, and a serialisation or deserialisation failure is a boolean parameter.
- Decimal values are modelled as exact integers. The `decimal` to text conversion in the list cache key is modelled as integer formatting.
- Counts are unbounded in the model (`PropertyRepository.GetPropertiesCount`, `Pagination.Paged`'s `totalCount`). Counts above Int32.MaxValue are not modelled. In the source, `(int)count` at `PropertyRepository.cs:187` would wrap such a count, and the LINQ `Count()` calls at `OwnerService.cs:85`, `PropertyImageService.cs:114` and `PropertyTraceService.cs:119` would throw `OverflowException`.
- `Math.Ceiling` over `double` for the page count is modelled as exact ceiling division. For counts up to Int32.MaxValue, the only counts the source produces without overflow, the two agree.
- String lengths are counted in `char`s of the model. UTF-16 code units are not modelled separately.
- A JSON body that sets a create request's string field to explicit null is not modelled. The strings are never null.
- `PropertyService.PropertyService.CreateProperty`: the DTO returned by create comes from the entity before any join, so its owner and main image are absent. That is the behaviour modelled, not a weaker contract.
- `OwnerService.OwnerService.GetOwners` requires a positive page size. The `Range(1, 100)` annotation at `GetOwnersRequest.cs:7` guarantees it through the framework's model validation, which is not modelled. A page size of 0, which would divide by zero, is not modelled either.
- `PropertyImageService.PropertyImageService.GetPropertyImages` and `PropertyTraceService.PropertyTraceService.GetPropertyTraces` also require a positive page size. `GetPropertyImagesRequest` and `GetPropertyTracesRequest` are not part of this model's sources; they are modelled after `GetOwnersRequest`.
- The validators run before the services, so the services are modelled as receiving requests of any shape. The connection between the validators and the services is not stated as a lemma.
- `UpdateAsync` and `DeleteAsync` of `BaseRepository` are not modelled, because no modelled operation calls them.
- `ExistsAsync` of `BaseRepository` (`BaseRepository.cs:99-111`) is modelled as `Entities.HasId`. The services call it at `PropertyService.cs:48`, `:197` and `:229`, `PropertyImageService.cs:38` and `PropertyTraceService.cs:38`.
- `ObjectId.Parse` in `GetByIdAsync` and `ExistsAsync` throws on an id that is not a 24-digit hex string. That exception is rethrown and becomes a 500 from the middleware, not a 404. Ids in the model are arbitrary strings and the parse failure is not modelled.
- The page lemmas `PropertyService.FetchedPageDescribesListing`, `ServicePaging.PageInMemoryContents`, `OwnerService.OwnersPageDescribesListing`, `PropertyImageService.ImagesPageDescribesListing`, `PropertyTraceService.TracesPageDescribesListing` and `PropertyTraceService.TracesPagesAreLatestFirst` describe pages only while `(pageNumber - 1) * pageSize` fits in an int. Past that the services page with the wrapped skip, and the overflow lemmas state what happens instead.
- ServicePaging.EveryItemIsOnItsPage: items at index Int32.MaxValue or later are not claimed, because no int skip below the wrap reaches them. The same holds for OwnerService.EveryOwnerIsListed.
- `CacheService.MemoryCache.RemoveByPattern`: this is the no-op of the source. The behaviour its name suggests is not modelled.

## Findings

| source | as written | input that shows it | evidently intended | confidence | as-written member | corrected member |
|---|---|---|---|---|---|---|
| LuxuryHub.Application/Requests/GetPropertiesRequest.cs:22 | `Skip` multiplies `(PageNumber - 1) * PageSize` in unchecked Int32 arithmetic, and the validator accepts any positive page number | PageNumber = 1073741825, PageSize = 4: the product 4294967296 wraps to 0, so the request is served page 1 instead of an empty page | the skip is the true product, a non-negative whole number of pages, so a page past the end is empty | not executed | Requests.SkipInt32WrapsToFirstPage | Requests.SkipIsWholePages |

`GetOwnersRequest.cs:13` computes its skip the same way. Every request's `Skip()` in this model is the wrapped 32-bit skip, `Requests.PageSkipInt32`, and the services page with it as the source does. The corrected skip is `Requests.PageSkip`. The page lemmas are stated for requests whose corrected skip fits in an int, where `Requests.SkipInt32AgreesWhenInRange` shows both skips are equal. `PropertyService.OverflowingPropertyPages`, `ServicePaging.OverflowingPagesServeFirstPage` and `PropertyTraceService.OverflowingTracePageRepeatsFirst` state what the services do past that bound. For properties a negative skip makes the pipeline fail; for the in-memory listings it repeats page 1.
