# Order service core, modelled in Dafny

The service keeps customer orders. Each order has an order number, a product,
a quantity, a total value, a status (RECEIVED, PROCESSED, DELIVERED) and a
creation time. Four use cases drive it:

- **create** refuses an order number that is already stored, builds the order
  through a builder and director, and saves it with status PROCESSED;
- **get** reads one order by id through the "orders" cache, or a page of orders
  straight from the store;
- **update** changes an order's status in place, saves it, and empties the cache;
- **delete** looks the order up and calls `deleteById`, dropping the order's
  cache entry on success. As written its existence check is inverted: a
  stored order is reported missing and a missing id is handed to
  `deleteById`. The model states this behaviour and also the corrected
  policy, in which a missing order is reported not found and a stored one is
  deleted (see Findings).

Below them sit three pieces:

- the `Order` domain object, whose constructor validates quantity and unit
  price and derives the total;
- the `PaginatedResult` page type;
- the repository adapter. It maps orders to table rows and back, and turns
  every store failure into a `DatabaseException`.

The model has one module per source file:

| module | file | models |
|---|---|---|
| `Common` | common.dfy | ids, money, time, the exception kinds (`Error`), `Result` and `Outcome` |
| `OrderModel` | order.dfy | `Order` as a class over an `OrderValue` snapshot, with the validating `Construct` and `UpdateStatus` |
| `Pagination` | paginated_result.dfy | `PaginatedResult` with its page count and setters |
| `Dto` | order_dto.dfy | the request record and its bean-validation constraints |
| `Converter` | order_converter.dfy | `fromDto` and `toDto` |
| `Builder` | order_builder.dfy | `CreateOrderBuilder` and `OrderDirector`, mutating the held `Order` step by step |
| `Repository` | order_repository.dfy | the table (rows by id, next id, whether the database answers and whether it takes writes), row/order mapping, and `OrderRepositoryImpl` with its five operations |
| `Cache` | order_cache.dfy | the "orders" cache as an explicit map, with a coherence predicate against the table |
| `CreateOrder`, `GetOrder`, `UpdateOrder`, `DeleteOrder` | create_order.dfy, get_order.dfy, update_order.dfy, delete_order.dfy | the use cases |
| `Scenarios` | scenarios.dfy | properties spanning use cases, and worked examples |

Every state-changing method is proved against a pure function of the old state:

- the repository methods against `FindByIdOutcome`, `SaveOutcome`,
  `DeleteOutcome` and `FindAllOutcome`;
- the use cases against `CreateOutcome`, `GetByIdOutcome`, `UpdateOutcome`
  and `DeleteOrderOutcome`.

The properties are lemmas about those functions:

- the row/order round trip;
- uniqueness of order numbers in the table;
- cache coherence, kept by every use case;
- update changes only the status;
- delete followed by get answers "not found";
- create followed by get answers the request's fields.

A ghost log `calls` on the repository records each call made on it. Use-case
contracts state that log, for example that create never saves when the number
is taken.

Modelling choices:

- The database's own behaviour is modelled as two fields of the adapter.
  When `available` is false every store call throws. When `writable` is false
  the store still answers reads, but `save` and `deleteById` throw.
- Ids are assigned in increasing order, and saving an order with an unknown id
  inserts it under a new id.
- `findAll` lists rows in increasing id order (`ListingHoldsAllRows`). An
  unsorted page request leaves that order to the database; the model fixes it.
- The clock is a `now` parameter.
- Money is `real`, so `BigDecimal` arithmetic is exact.

Two behaviours of the framework are assumed, not read from the source. Both
are listed again under "Left out":

- Order numbers are unique in the table, and a save that would repeat one
  raises `DataIntegrityViolationException` (the case behind "Order already
  exists with number"). `OrderEntity.java:16-19` declares only a non-unique
  index on the column, so this is an assumed database constraint.
- `deleteById` ignores a missing id, as Spring Data JPA 3 does. The
  `jakarta.persistence` imports (`OrderEntity.java:4`) point to that major
  version. The adapter's `EmptyResultDataAccessException` branch
  (`OrderRepositoryImpl.java:83-84`) therefore never fires.

Consequences of the source worth knowing:

- A uniqueness violation at save time reaches the caller as the repository's
  `DatabaseError` ("Order already exists with number: ..."), not as the create
  use case's business error.
- `UpdateOrderUseCase.execute` empties the whole cache: its `@CacheEvict`
  (`UpdateOrderUseCase.java:25`) names a key but sets `allEntries = true`.
- Creation uses status PROCESSED, while `fromDto` uses RECEIVED.

## Model

| member | source | states |
|---|---|---|
| OrderModel.Construct | src/main/java/com/santanna/serviceorder/domain/model/Order.java:17-31 | succeeds exactly when quantity > 0 and unit price > 0; the quantity check comes first, each failure has its own message; on success the total is the unit price times the quantity and every other field is the argument |
| OrderModel.TotalValue | src/main/java/com/santanna/serviceorder/domain/model/Order.java:51-53 | for a positive quantity the total is positive exactly when the unit price is, and dividing it by the quantity gives the unit price back |
| OrderModel.WithStatus | src/main/java/com/santanna/serviceorder/domain/model/Order.java:47-49 | the status becomes the new one, every other field is unchanged, validity is kept |
| OrderModel.Order.New | src/main/java/com/santanna/serviceorder/domain/model/Order.java:17-31 | the constructor: a fresh object holding exactly the fields `Construct` gives, or its error |
| OrderModel.Order.Of | src/main/java/com/santanna/serviceorder/domain/model/Order.java:34-36 | the static factory behaves as the constructor |
| OrderModel.Order.UpdateStatus | src/main/java/com/santanna/serviceorder/domain/model/Order.java:47-49 | the object's new fields are `WithStatus` of its old fields |
| OrderModel.Order.Blank | src/main/java/com/santanna/serviceorder/domain/builder/OrderBuilder.java:14-16 | the no-argument order the builders start from: no id, empty strings, zero quantity and total |
| Pagination.TotalPages | src/main/java/com/santanna/serviceorder/domain/common/PaginatedResult.java:26 | the least page count that covers every element: (pages-1)·size < total ≤ pages·size; zero for no elements, at least one otherwise |
| Pagination.TotalPagesUnique | src/main/java/com/santanna/serviceorder/domain/common/PaginatedResult.java:26 | that page count is the only integer with those bounds, i.e. the ceiling of total/size |
| Pagination.PageBelowTotal | src/main/java/com/santanna/serviceorder/domain/common/PaginatedResult.java:26 | a page number is below the page count exactly when the page starts before the last element |
| Pagination.MakePage | src/main/java/com/santanna/serviceorder/domain/common/PaginatedResult.java:14-27 | fails exactly on a negative page (checked first) or a non-positive size, with their messages; otherwise stores the arguments with a consistent page count |
| Pagination.SetPageSizeCanBreakConsistency | src/main/java/com/santanna/serviceorder/domain/common/PaginatedResult.java:50-52 | the setters do not recompute the page count: changing the size of a two-element page leaves it inconsistent |
| Pagination.PaginatedResult.New | src/main/java/com/santanna/serviceorder/domain/common/PaginatedResult.java:14-27 | a fresh object holding exactly `MakePage`'s page, or its error |
| Pagination.PaginatedResult.SetContent | src/main/java/com/santanna/serviceorder/domain/common/PaginatedResult.java:34-36 | changes the content and nothing else |
| Pagination.PaginatedResult.SetPageNumber | src/main/java/com/santanna/serviceorder/domain/common/PaginatedResult.java:42-44 | changes the page number and nothing else |
| Pagination.PaginatedResult.SetPageSize | src/main/java/com/santanna/serviceorder/domain/common/PaginatedResult.java:50-52 | changes the page size and nothing else |
| Pagination.PaginatedResult.SetTotalElements | src/main/java/com/santanna/serviceorder/domain/common/PaginatedResult.java:58-60 | changes the element count and nothing else |
| Pagination.PaginatedResult.SetTotalPages | src/main/java/com/santanna/serviceorder/domain/common/PaginatedResult.java:66-68 | changes the page count and nothing else |
| Dto.IsValid | src/main/java/com/santanna/serviceorder/application/dto/OrderRequestDto.java:11-28 | a valid request has an order number and a product name that each hold a character above the space, a positive quantity and a positive unit price |
| Dto.Violations | src/main/java/com/santanna/serviceorder/application/dto/OrderRequestDto.java:11-28 | the quantity message is present exactly when the quantity is below 1, and the price message exactly when the price is below 0.01 |
| Dto.ValidIffNoViolations | src/main/java/com/santanna/serviceorder/application/dto/OrderRequestDto.java:11-28 | a request satisfies every declared constraint exactly when it has no violation |
| Dto.ValidRequestConstructs | src/main/java/com/santanna/serviceorder/application/dto/OrderRequestDto.java:19-27 | a valid request always passes the order constructor's checks |
| Converter.FromDto | src/main/java/com/santanna/serviceorder/domain/model/OrderConverter.java:11-20 | no id, status RECEIVED, the given time, the request's fields, and total = unit price × quantity |
| Converter.FromDtoMatchesConstructor | src/main/java/com/santanna/serviceorder/domain/model/OrderConverter.java:11-20 | on a valid request `fromDto` agrees with the validating constructor |
| Converter.ToDto | src/main/java/com/santanna/serviceorder/domain/model/OrderConverter.java:22-32 | the response carries each of the order's seven fields unchanged (its partner is `ToDtoInjective`) |
| Converter.ToDtoInjective | src/main/java/com/santanna/serviceorder/domain/model/OrderConverter.java:22-32 | two orders have the same response exactly when they are equal: the response loses no field |
| Converter.ToDtos | src/main/java/com/santanna/serviceorder/application/usecase/GetOrderUseCase.java:44-46 | one response per order, in order, each the order's `toDto` |
| Builder.CreateOrderBuilder.constructor | src/main/java/com/santanna/serviceorder/domain/builder/OrderBuilder.java:14-16 | holds a fresh blank order and no steps |
| Builder.CreateOrderBuilder.GetOrderBuilder | src/main/java/com/santanna/serviceorder/domain/builder/OrderBuilder.java:18-20 | hands out the held object itself |
| Builder.CreateOrderBuilder.BuildId | src/main/java/com/santanna/serviceorder/domain/builder/objectbuild/CreateOrderBuilder.java:11-13 | records the step and leaves the order untouched |
| Builder.CreateOrderBuilder.BuildOrderNumber | src/main/java/com/santanna/serviceorder/domain/builder/objectbuild/CreateOrderBuilder.java:15-18 | sets the order number of the held order and nothing else |
| Builder.CreateOrderBuilder.BuildProductName | src/main/java/com/santanna/serviceorder/domain/builder/objectbuild/CreateOrderBuilder.java:20-24 | sets the product name and nothing else |
| Builder.CreateOrderBuilder.BuildQuantity | src/main/java/com/santanna/serviceorder/domain/builder/objectbuild/CreateOrderBuilder.java:26-29 | sets the quantity, unvalidated, and nothing else |
| Builder.CreateOrderBuilder.BuildTotalValue | src/main/java/com/santanna/serviceorder/domain/builder/objectbuild/CreateOrderBuilder.java:31-34 | sets the total, unvalidated, and nothing else |
| Builder.CreateOrderBuilder.BuildOrderStatus | src/main/java/com/santanna/serviceorder/domain/builder/objectbuild/CreateOrderBuilder.java:36-39 | sets the status and nothing else |
| Builder.CreateOrderBuilder.BuildCreatedAt | src/main/java/com/santanna/serviceorder/domain/builder/objectbuild/CreateOrderBuilder.java:41-44 | sets the creation time and nothing else |
| Builder.OrderDirector.constructor | src/main/java/com/santanna/serviceorder/domain/builder/OrderDirector.java:13-15 | keeps the given builder |
| Builder.OrderDirector.GetBuilder | src/main/java/com/santanna/serviceorder/domain/builder/OrderDirector.java:17-27 | the seven steps in their fixed order; the held order gets every field but the id, with nothing validated |
| Builder.OrderDirector.GetOrderBuilder | src/main/java/com/santanna/serviceorder/domain/builder/OrderDirector.java:29-31 | the builder's held object |
| Repository.DomainToEntity | src/main/java/com/santanna/serviceorder/infrastructure/repository/OrderRepositoryImpl.java:106-116 | the row carries each of the order's seven fields unchanged (its partner is `RoundTrip`) |
| Repository.EntityToDomainAsWritten | src/main/java/com/santanna/serviceorder/infrastructure/repository/OrderRepositoryImpl.java:94-104 | (as written) a row reads back exactly when its quantity and total are positive, and the order read back has the stored total times the quantity |
| Repository.EntityToDomain | src/main/java/com/santanna/serviceorder/infrastructure/repository/OrderRepositoryImpl.java:94-104 | (corrected) a row reads back exactly when its quantity and total are positive, else with a domain error; a row read back maps to the same row |
| Repository.RoundTrip | src/main/java/com/santanna/serviceorder/infrastructure/repository/OrderRepositoryImpl.java:94-116 | every valid order survives the trip to a row and back unchanged |
| Repository.AsWrittenRoundTripScalesTotal | src/main/java/com/santanna/serviceorder/infrastructure/repository/OrderRepositoryImpl.java:94-104 | as written, reading a row back multiplies its total by the quantity again, so the trip preserves the order exactly when the quantity is 1 |
| Repository.FindByIdOutcome | src/main/java/com/santanna/serviceorder/infrastructure/repository/OrderRepositoryImpl.java:39-47 | empty exactly when the store answers and holds no such id; a found order maps to the stored row; a failure is a database error with the id in its message |
| Repository.FindByNumberOutcome | src/main/java/com/santanna/serviceorder/infrastructure/repository/OrderRepositoryImpl.java:29-37 | empty exactly when the store answers and no row has the number; a found order is a stored row with that number, read back; with unique numbers any row holding the number is the one read, its read failure becoming the lookup error; a failure is a database error with the number in its message |
| Repository.SaveOutcome | src/main/java/com/santanna/serviceorder/infrastructure/repository/OrderRepositoryImpl.java:66-77 | every failure is a database error; a store that does not answer or refuses the write gives "Error saving order", a number held by another row gives "Order already exists with number: ...", and neither changes the table |
| Repository.SavePreservesInvariant | src/main/java/com/santanna/serviceorder/infrastructure/repository/OrderRepositoryImpl.java:66-77 | saving keeps ids below the next id, each row under its own id, and order numbers unique |
| Repository.SaveInserts | src/main/java/com/santanna/serviceorder/infrastructure/repository/OrderRepositoryImpl.java:66-77 | a new order with a free number becomes one row under the next id, and comes back with that id |
| Repository.SaveReplaces | src/main/java/com/santanna/serviceorder/infrastructure/repository/OrderRepositoryImpl.java:66-77 | a stored order keeping its number replaces its row in full, and comes back unchanged |
| Repository.DeleteOutcome | src/main/java/com/santanna/serviceorder/infrastructure/repository/OrderRepositoryImpl.java:79-88 | (Spring Data JPA 3) succeeds exactly when the store answers and takes the write; it then removes the id's row and no other, and a missing id leaves the table as it was; a failure gives "Error deleting order with ID: ..." and changes nothing |
| Repository.Listing | src/main/java/com/santanna/serviceorder/infrastructure/repository/OrderRepositoryImpl.java:52 | the store's listing holds only stored rows |
| Repository.ListingLength | src/main/java/com/santanna/serviceorder/infrastructure/repository/OrderRepositoryImpl.java:52 | the listing holds one element per stored id it covers |
| Repository.ListingHoldsAllRows | src/main/java/com/santanna/serviceorder/infrastructure/repository/OrderRepositoryImpl.java:52-59 | under the table invariant the listing holds every stored row, in strictly increasing id order, and its length is the row count |
| Repository.ListingIds | src/main/java/com/santanna/serviceorder/infrastructure/repository/OrderRepositoryImpl.java:52 | with every row stored under its own id, each listed element is the row stored under its id, an id below the bound |
| Repository.ListingInIdOrder | src/main/java/com/santanna/serviceorder/infrastructure/repository/OrderRepositoryImpl.java:52 | with every row stored under its own id, the listed ids strictly increase |
| Repository.ListingComplete | src/main/java/com/santanna/serviceorder/infrastructure/repository/OrderRepositoryImpl.java:52 | every row with an id below the bound is listed |
| Repository.PageSlice | src/main/java/com/santanna/serviceorder/infrastructure/repository/OrderRepositoryImpl.java:52 | a page holds at most `size` elements, the elements from position page·size on, and is non-empty exactly when it starts inside the listing |
| Repository.MapToDomain | src/main/java/com/santanna/serviceorder/infrastructure/repository/OrderRepositoryImpl.java:53-56 | succeeds exactly when every row reads back, giving one order per row in order; otherwise the paging error |
| Repository.FindAllOutcome | src/main/java/com/santanna/serviceorder/infrastructure/repository/OrderRepositoryImpl.java:49-64 | fails with the paging error exactly on an unreachable store, a negative page, a size below 1, or a row that does not read back; otherwise a consistent page of at most `size` orders with the table's row count as total, whose orders are the listing's slice for that page, read back |
| Repository.FindAllPageFilledBelowTotal | src/main/java/com/santanna/serviceorder/infrastructure/repository/OrderRepositoryImpl.java:49-64 | a page read from the table holds orders exactly when its number is below its page count |
| Repository.OrderRepositoryImpl.constructor | src/main/java/com/santanna/serviceorder/infrastructure/repository/OrderRepositoryImpl.java:24-27 | starts from a table satisfying the invariant, with the given availability and write flags and an empty call log |
| Repository.OrderRepositoryImpl.ToDomain | src/main/java/com/santanna/serviceorder/infrastructure/repository/OrderRepositoryImpl.java:94-104 | builds a fresh order object with exactly `EntityToDomain`'s fields, or its error |
| Repository.OrderRepositoryImpl.ToDomainAll | src/main/java/com/santanna/serviceorder/infrastructure/repository/OrderRepositoryImpl.java:53-56 | builds one order object per row, agreeing with `MapToDomain` |
| Repository.OrderRepositoryImpl.FindByOrderNumber | src/main/java/com/santanna/serviceorder/infrastructure/repository/OrderRepositoryImpl.java:29-37 | answers `FindByNumberOutcome` of the table; changes nothing but the call log |
| Repository.OrderRepositoryImpl.FindById | src/main/java/com/santanna/serviceorder/infrastructure/repository/OrderRepositoryImpl.java:39-47 | answers `FindByIdOutcome` of the table; changes nothing but the call log |
| Repository.OrderRepositoryImpl.FindAll | src/main/java/com/santanna/serviceorder/infrastructure/repository/OrderRepositoryImpl.java:49-64 | answers `FindAllOutcome` of the table as a fresh page object; changes nothing but the call log |
| Repository.OrderRepositoryImpl.Save | src/main/java/com/santanna/serviceorder/infrastructure/repository/OrderRepositoryImpl.java:66-77 | the new table and the answer are `SaveOutcome` of the old table; the invariant is kept |
| Repository.OrderRepositoryImpl.DeleteById | src/main/java/com/santanna/serviceorder/infrastructure/repository/OrderRepositoryImpl.java:79-88 | the new rows and the outcome are `DeleteOutcome` of the old rows; the invariant is kept |
| Cache.OrderCache.constructor | src/main/java/com/santanna/serviceorder/infrastructure/database/RedisConfig.java:28-44 | the "orders" cache starts empty |
| Cache.OrderCache.Get | src/main/java/com/santanna/serviceorder/application/usecase/GetOrderUseCase.java:26 | a hit exactly when the id is cached, answering its entry |
| Cache.OrderCache.Put | src/main/java/com/santanna/serviceorder/application/usecase/GetOrderUseCase.java:26 | caches the response under the id, nothing else changes |
| Cache.OrderCache.Evict | src/main/java/com/santanna/serviceorder/application/usecase/DeleteOrderUseCase.java:25 | removes the id's entry only |
| Cache.OrderCache.Clear | src/main/java/com/santanna/serviceorder/application/usecase/UpdateOrderUseCase.java:25 | empties the cache |
| Cache.StoredResponse | src/main/java/com/santanna/serviceorder/application/usecase/GetOrderUseCase.java:30-33 | the table answers a response for an id exactly when the row exists and reads back; it carries the row's id, total and status |
| Cache.PutKeepsCoherence | src/main/java/com/santanna/serviceorder/application/usecase/GetOrderUseCase.java:26-34 | caching what the table answers keeps every entry current |
| Cache.EvictKeepsCoherence | src/main/java/com/santanna/serviceorder/application/usecase/DeleteOrderUseCase.java:24-26 | removing a row and its entry together keeps every entry current |
| Cache.InsertKeepsCoherence | src/main/java/com/santanna/serviceorder/application/usecase/CreateOrderUseCase.java:55 | adding a row under an uncached id keeps every entry current |
| Cache.CachedIdsAreStored | src/main/java/com/santanna/serviceorder/application/usecase/GetOrderUseCase.java:26 | under coherence every cached id is stored |
| Cache.StatusChangeWithoutEvictionIsStale | src/main/java/com/santanna/serviceorder/application/usecase/UpdateOrderUseCase.java:24-35 | changing a cached order's status without eviction leaves a stale entry |
| CreateOrder.DraftAsWritten | src/main/java/com/santanna/serviceorder/application/usecase/CreateOrderUseCase.java:43-51 | (as written) the built order's total is the unit price |
| CreateOrder.Draft | src/main/java/com/santanna/serviceorder/application/usecase/CreateOrderUseCase.java:40-53 | (corrected) no id, status PROCESSED, the given time, the request's fields, total = unit price × quantity |
| CreateOrder.DraftAsWrittenIgnoresQuantity | src/main/java/com/santanna/serviceorder/application/usecase/CreateOrderUseCase.java:43-51 | the order as written is right exactly when one unit is ordered |
| CreateOrder.AsWrittenDefectsCancelOnRead | src/main/java/com/santanna/serviceorder/application/usecase/CreateOrderUseCase.java:43-55 | with both mappings as written, reading the saved row back gives the intended total |
| CreateOrder.CreateOutcome | src/main/java/com/santanna/serviceorder/application/usecase/CreateOrderUseCase.java:30-60 | a store that does not answer, or a taken number, leaves the table unchanged and fails; a free number whose save the store refuses fails with "Error saving order" and changes nothing |
| CreateOrder.CreateRefusesTakenNumber | src/main/java/com/santanna/serviceorder/application/usecase/CreateOrderUseCase.java:33-36 | a taken number whose row reads back gives "There is already an order with this number." and stores nothing |
| CreateOrder.CreateStoresNewOrder | src/main/java/com/santanna/serviceorder/application/usecase/CreateOrderUseCase.java:40-59 | a free number with positive quantity and price adds exactly one row under the next id and answers the built order with that id |
| CreateOrder.CreateStoresUnreadableRow | src/main/java/com/santanna/serviceorder/application/usecase/CreateOrderUseCase.java:40-55 | nothing validates a non-positive quantity: the row is stored, then fails to read back with "Error saving order" |
| CreateOrder.CreateKeepsInvariant | src/main/java/com/santanna/serviceorder/application/usecase/CreateOrderUseCase.java:55 | creation keeps order numbers unique in the table |
| CreateOrder.CreateKeepsCacheCoherent | src/main/java/com/santanna/serviceorder/application/usecase/CreateOrderUseCase.java:29-30 | creation touches no cache entry and leaves every entry current |
| CreateOrder.CreateOrderUseCase.constructor | src/main/java/com/santanna/serviceorder/application/usecase/CreateOrderUseCase.java:23-27 | keeps the given repository |
| CreateOrder.CreateOrderUseCase.Execute | src/main/java/com/santanna/serviceorder/application/usecase/CreateOrderUseCase.java:30-60 | the new table and the answer are `CreateOutcome`; the repository sees one number lookup, then a save of the built order only when the lookup is empty |
| GetOrder.GetByIdOutcome | src/main/java/com/santanna/serviceorder/application/usecase/GetOrderUseCase.java:26-34 | only a success is cached, under the id; a cached id answers its entry; an uncached success is what the table answers |
| GetOrder.GetByIdAnswersFromTable | src/main/java/com/santanna/serviceorder/application/usecase/GetOrderUseCase.java:26-34 | with a coherent cache the answer is the table's, hit or miss: the stored response, "Order not found" for a missing id, or the lookup error |
| GetOrder.GetByIdKeepsCacheCoherent | src/main/java/com/santanna/serviceorder/application/usecase/GetOrderUseCase.java:26-34 | reading by id keeps every cached entry current |
| GetOrder.GetAllOutcome | src/main/java/com/santanna/serviceorder/application/usecase/GetOrderUseCase.java:37-51 | fails exactly when the repository's page does; otherwise the same page with every order replaced by its response and number, size, total and page count kept |
| GetOrder.GetOrderUseCase.constructor | src/main/java/com/santanna/serviceorder/application/usecase/GetOrderUseCase.java:21-24 | keeps the given repository and cache |
| GetOrder.GetOrderUseCase.GetById | src/main/java/com/santanna/serviceorder/application/usecase/GetOrderUseCase.java:26-34 | the new cache and the answer are `GetByIdOutcome`; the repository is consulted only on a miss and the table is untouched |
| GetOrder.GetOrderUseCase.GetAllOrders | src/main/java/com/santanna/serviceorder/application/usecase/GetOrderUseCase.java:37-51 | answers `GetAllOutcome` with one paging call, leaving the table and the cache untouched |
| UpdateOrder.UpdateOutcome | src/main/java/com/santanna/serviceorder/application/usecase/UpdateOrderUseCase.java:24-39 | a failure leaves the cache as it was; a success empties it and answers the new status; a missing id gives "Order not found" and changes nothing; a found order whose save the store refuses gives "Error saving order" and changes nothing |
| UpdateOrder.UpdateChangesOnlyStatus | src/main/java/com/santanna/serviceorder/application/usecase/UpdateOrderUseCase.java:29-38 | a stored order gets the new status in its row and nothing else; no row is added; the answer is the order with the new status |
| UpdateOrder.UpdateIsIdempotent | src/main/java/com/santanna/serviceorder/application/usecase/UpdateOrderUseCase.java:34-35 | updating to the same status twice leaves the table as once does |
| UpdateOrder.UpdateKeepsInvariant | src/main/java/com/santanna/serviceorder/application/usecase/UpdateOrderUseCase.java:35 | the update keeps order numbers unique |
| UpdateOrder.UpdateKeepsCacheCoherent | src/main/java/com/santanna/serviceorder/application/usecase/UpdateOrderUseCase.java:25 | with the eviction, every cached entry stays current |
| UpdateOrder.UpdateOrderUseCase.constructor | src/main/java/com/santanna/serviceorder/application/usecase/UpdateOrderUseCase.java:19-22 | keeps the given repository and cache |
| UpdateOrder.UpdateOrderUseCase.Execute | src/main/java/com/santanna/serviceorder/application/usecase/UpdateOrderUseCase.java:24-39 | the new cache, table and answer are `UpdateOutcome`; the repository sees the id lookup, then a save of the updated order only when found |
| DeleteOrder.DeleteOrderOutcomeAsWritten | src/main/java/com/santanna/serviceorder/application/usecase/DeleteOrderUseCase.java:26-42 | (as written) no call removes a row; a call succeeds exactly when the store answers, takes the write and does not hold the id; a failure keeps the cache |
| DeleteOrder.DeleteAsWrittenNeverDeletes | src/main/java/com/santanna/serviceorder/application/usecase/DeleteOrderUseCase.java:26-42 | (as written) a stored order that reads back is reported not found and kept, where the corrected policy deletes it; a missing id is reported deleted |
| DeleteOrder.DeleteOrderOutcome | src/main/java/com/santanna/serviceorder/application/usecase/DeleteOrderUseCase.java:26-42 | (corrected) succeeds exactly when the store answers, takes the write and holds a readable order under the id; success removes that row and its entry only; a failure changes nothing; a missing id gives "Order not found with ID: ..."; a refused `deleteById` of a stored order gives "Order cannot delete: ..." |
| DeleteOrder.DeleteKeepsInvariant | src/main/java/com/santanna/serviceorder/application/usecase/DeleteOrderUseCase.java:37 | deletion keeps the table invariant |
| DeleteOrder.DeleteKeepsCacheCoherent | src/main/java/com/santanna/serviceorder/application/usecase/DeleteOrderUseCase.java:25 | deletion keeps every cached entry current |
| DeleteOrder.DeleteThenGetNotFound | src/main/java/com/santanna/serviceorder/application/usecase/DeleteOrderUseCase.java:24-42 | after a deletion the table has one row fewer and reading the id answers "Order not found" |
| DeleteOrder.DeleteOrderUseCase.constructor | src/main/java/com/santanna/serviceorder/application/usecase/DeleteOrderUseCase.java:18-21 | keeps the given repository and cache |
| DeleteOrder.DeleteOrderUseCase.Execute | src/main/java/com/santanna/serviceorder/application/usecase/DeleteOrderUseCase.java:26-42 | the new cache, rows and outcome are `DeleteOrderOutcome`; `deleteById` is called only when the order was found |
| Scenarios.CreateThenGet | src/main/java/com/santanna/serviceorder/application/usecase/GetOrderUseCase.java:26-34 | reading a just created order answers the request's fields with the new id, status PROCESSED and total = unit price × quantity |
| Scenarios.CreateTwiceRefused | src/main/java/com/santanna/serviceorder/application/usecase/CreateOrderUseCase.java:33-36 | a second identical request is refused and stores nothing |
| Scenarios.UpdateThenGetIsFresh | src/main/java/com/santanna/serviceorder/application/usecase/UpdateOrderUseCase.java:25 | after an update, reading the order answers the new status, never a cached one |
| Scenarios.WidgetExample | src/main/java/com/santanna/serviceorder/application/usecase/CreateOrderUseCase.java:30-60 | two "Widget" at 50.00 as "ORD1" answer total 100.00 and status PROCESSED; repeating the request is refused |
| Scenarios.TwoOrdersOnePage | src/main/java/com/santanna/serviceorder/application/usecase/GetOrderUseCase.java:37-51 | two stored orders read as page 0 of size 2 give one page with both responses and total 2 |

## Left out

- HTTP controller, exception handler, message consumer and web configuration:
  transport adapters outside the core.
- Redis itself: entry lifetime (TTL), serialisation and cache faults. The cache
  is a map that never fails, and the fallback to the store on a cache error is
  not modelled.
- The second repository variant under `infra/` and its mapper are not part of
  this model. The Spring Data interfaces appear only as the table they act on.
- Which store rows a JPA `save` writes, its id generation and its row order:
  fixed as described above (increasing ids and listing order, unknown ids
  inserted).
- Transactions: `@Transactional` rollback (a save whose read-back fails keeps
  its row) and concurrent use cases. The race between create's number check and
  its save is not modelled.
- Logging.
- `LocalDateTime.now()`: passed in as the `now` parameter.
- Null handling: every field of a request, row or order is present by its type.
- `OrderBuilder`'s abstract step declarations: only the held order and
  `getOrderBuilder` are modelled.
- `Order()` and the setters: the builders use them but `Order.java` does not
  declare them. They are modelled as `Order.Blank` and direct field updates.
- `fromDto`: it uses an `Order.Builder` and `dto.getX()` accessors that the
  source does not declare. It is modelled on values.
- `CreateOrderBuilder.buildId`: it takes a `String` where the abstract step
  takes a `Long`. One id type, `Id`, is used throughout.
- The repository: `findById` and `deleteById` take a `String` where the
  interface declares `Long`. One id type, `Id`, is used throughout.
- The builder and director fields that `OrderRepositoryImpl` creates and never
  uses.
- Pagination.TotalPages: computed on integers. The source's
  `Math.ceil((double) total / size)` and its `int` cast are not modelled.
- Integer widths: `int`, `Integer` and `long` overflow are not modelled.
- `BigDecimal` scale: money is an exact real. Operations that would round or
  fail on a non-terminating division are not modelled.
- Uniqueness of order numbers: assumed as a database constraint. `OrderEntity.java:16-19`
  declares only a non-unique index. Without a unique constraint a duplicate
  save would be stored and "Order already exists with number" would never be
  raised. The table invariant (`UniqueNumbers`) rests on this assumption.
- `deleteById` on a missing id: assumed to be ignored, as in Spring Data JPA 3.
  Under Spring Data 2.x it would throw `EmptyResultDataAccessException`, and the
  adapter would answer "Order with ID ... not found.". That answer is not
  modelled.
- Store faults: `available` and `writable` hold for the object's lifetime. A
  refused write after a successful read is modelled; a fault that hits one read
  but not a later read within the same use case is not.
- Repository.EntityToDomain: a row with a non-positive quantity fails the
  quantity check before its derived unit price is used, as in the source.

## Findings

| source | as written | input that shows it | evidently intended | confidence | as-written member | corrected member |
|---|---|---|---|---|---|---|
| src/main/java/com/santanna/serviceorder/infrastructure/repository/OrderRepositoryImpl.java:94-104 | `toDomain` passes the stored total to the constructor as the unit price, which multiplies it by the quantity again | a row with quantity 2 and total 100.00 reads back with total 200.00 | the order read back has the stored total | high; not executed | Repository.AsWrittenRoundTripScalesTotal | Repository.EntityToDomain |
| src/main/java/com/santanna/serviceorder/application/usecase/CreateOrderUseCase.java:43-51 | the unit price is handed to `buildTotalValue` as the total | quantity 2 at 50.00 stores a total of 50.00 | total = unit price × quantity, as `src/test/java/com/santanna/serviceorder/application/usecase/CreateOrderUseCaseTest.java:70-73` expects | high; not executed | CreateOrder.DraftAsWrittenIgnoresQuantity | CreateOrder.Draft |
| src/main/java/com/santanna/serviceorder/application/usecase/DeleteOrderUseCase.java:29-33 | the existence check is inverted: a stored order raises `NotFoundException`, a missing one reaches `deleteById` | deleting a stored order fails with "Order not found with ID: ..." and keeps it; deleting a missing id reports success | a missing order is reported not found and a stored one is deleted, as `src/test/java/com/santanna/serviceorder/application/usecase/DeleteOrderUseCaseTest.java:40-87` expects | high; not executed | DeleteOrder.DeleteAsWrittenNeverDeletes | DeleteOrder.DeleteOrderOutcome |
