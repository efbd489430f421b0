/** Reading orders (application/usecase/GetOrderUseCase.java): one order by id
    through the "orders" cache, and a page of orders straight from the store. */
module GetOrder {
  import opened Common
  import opened OrderModel
  import opened Pagination
  import opened Dto
  import opened Converter
  import opened Repository
  import opened Cache

  const NotFoundMessage := "Order not found"

  datatype GetEffect = GetEffect(entries: map<Id, OrderResponseDto>, result: Result<OrderResponseDto>)

  /** getById under @Cacheable(key = "#id"): a cached response is answered
      without a lookup; otherwise the lookup's answer is cached when it is a
      response and passed on when it is an error. */
  function GetByIdOutcome(entries: map<Id, OrderResponseDto>, rows: map<Id, OrderEntity>, available: bool, id: Id)
    : (r: GetEffect)
    ensures r.entries == if r.result.Ok? then entries[id := r.result.value] else entries
    ensures id in entries ==> r.result == Ok(entries[id])
    ensures id !in entries && r.result.Ok? ==> StoredResponse(rows, id) == Some(r.result.value)
  {
    if id in entries then GetEffect(entries, Ok(entries[id]))
    else
      match FindByIdOutcome(rows, available, id)
      case Err(e) => GetEffect(entries, Err(e))
      case Ok(None) => GetEffect(entries, Err(NotFoundError(NotFoundMessage)))
      case Ok(Some(o)) => GetEffect(entries[id := ToDto(o)], Ok(ToDto(o)))
  }

  /** With a coherent cache and a reachable store the answer is the table's,
      cached or not: the response of the stored order, "Order not found" for
      an id with no row, and the lookup's error for a row that does not read
      back. */
  lemma GetByIdAnswersFromTable(entries: map<Id, OrderResponseDto>, rows: map<Id, OrderEntity>, id: Id)
    requires CoherentWith(entries, rows)
    ensures GetByIdOutcome(entries, rows, true, id).result
            == if id !in rows then Err(NotFoundError(NotFoundMessage))
               else if StoredResponse(rows, id).Some? then Ok(StoredResponse(rows, id).value)
               else Err(DatabaseError(FindByIdMessage(id)))
  {
    if id in entries {
      CachedIdsAreStored(entries, rows, id);
      assert StoredResponse(rows, id) == Some(entries[id]);
    }
  }

  lemma GetByIdKeepsCacheCoherent(entries: map<Id, OrderResponseDto>, rows: map<Id, OrderEntity>,
                                  available: bool, id: Id)
    requires CoherentWith(entries, rows)
    ensures CoherentWith(GetByIdOutcome(entries, rows, available, id).entries, rows)
  {
    if id !in entries && GetByIdOutcome(entries, rows, available, id).result.Ok? {
      PutKeepsCoherence(entries, rows, id);
    }
  }

  /** getAllOrders: the repository's page with every order turned into its
      response; the page number, size, total and number of pages are kept. */
  ghost function GetAllOutcome(s: StoreState, available: bool, page: int, size: int)
    : (r: Result<Page<OrderResponseDto>>)
    ensures r.Ok? <==> FindAllOutcome(s, available, page, size).Ok?
    ensures r.Err? ==> r.error == DatabaseError(FindAllMessage)
    ensures r.Ok? ==> var p := FindAllOutcome(s, available, page, size).value;
                      r.value == Page(ToDtos(p.content), p.pageNumber, p.pageSize, p.totalElements, p.totalPages)
  {
    match FindAllOutcome(s, available, page, size)
    case Err(e) => Err(e)
    case Ok(p) => MakePage(ToDtos(p.content), p.pageNumber, p.pageSize, p.totalElements)
  }

  class GetOrderUseCase {
    const repository: OrderRepositoryImpl
    const cache: OrderCache

    constructor (repository: OrderRepositoryImpl, cache: OrderCache)
      ensures this.repository == repository && this.cache == cache
    {
      this.repository := repository;
      this.cache := cache;
    }

    method GetById(id: Id) returns (r: Result<OrderResponseDto>)
      requires repository.Valid()
      modifies cache, repository`calls
      ensures repository.Valid()
      ensures GetByIdOutcome(old(cache.entries), repository.rows, repository.available, id)
              == GetEffect(cache.entries, r)
      ensures repository.calls == old(repository.calls) + if id in old(cache.entries) then [] else [FindByIdCall(id)]
    {
      var cached := cache.Get(id);
      if cached.Some? {
        return Ok(cached.value);
      }
      var order := repository.FindById(id);
      if order.Err? {
        return Err(order.error);
      }
      if order.value.None? {
        return Err(NotFoundError(NotFoundMessage));
      }
      var response := ToDto(order.value.value.Value());
      cache.Put(id, response);
      r := Ok(response);
    }

    method GetAllOrders(page: int, size: int) returns (r: Result<PaginatedResult<OrderResponseDto>>)
      requires repository.Valid()
      modifies repository`calls
      ensures repository.Valid()
      ensures repository.calls == old(repository.calls) + [FindAllCall(page, size)]
      ensures r.Ok? ==> fresh(r.value)
      ensures GetAllOutcome(repository.State(), repository.available, page, size)
              == if r.Ok? then Ok(r.value.Value()) else Err(r.error)
    {
      var orders := repository.FindAll(page, size);
      if orders.Err? {
        return Err(orders.error);
      }
      var p := orders.value;
      var made := PaginatedResult<OrderResponseDto>.New(ToDtos(Values(p.content)), p.pageNumber, p.pageSize,
                                                         p.totalElements);
      match made
      case Ok(result) =>
        r := Ok(result);
      case Err(e) =>
        assert false;
        r := Err(e);
    }
  }
}
