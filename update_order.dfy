/** Status update (application/usecase/UpdateOrderUseCase.java): load the
    order, change its status in place, save it, and on success empty the
    "orders" cache (@CacheEvict with allEntries = true). */
module UpdateOrder {
  import opened Common
  import opened OrderModel
  import opened Dto
  import opened Converter
  import opened Repository
  import opened Cache
  import GetOrder

  datatype UpdateEffect = UpdateEffect(entries: map<Id, OrderResponseDto>, state: StoreState,
                                       result: Result<OrderResponseDto>)

  /** execute: a failed or empty lookup stops before the save; the cache is
      emptied only when the whole update succeeds. */
  function UpdateOutcome(entries: map<Id, OrderResponseDto>, s: StoreState, available: bool, writable: bool,
                         id: Id, newStatus: OrderStatus): (r: UpdateEffect)
    ensures r.result.Err? ==> r.entries == entries
    ensures r.result.Ok? ==> r.entries == map[] && r.result.value.status == newStatus
    ensures available && id !in s.rows ==> r == UpdateEffect(entries, s, Err(NotFoundError(GetOrder.NotFoundMessage)))
    ensures !available ==> r == UpdateEffect(entries, s, Err(DatabaseError(FindByIdMessage(id))))
    ensures available && !writable && id in s.rows && EntityToDomain(s.rows[id]).Ok?
            ==> r == UpdateEffect(entries, s, Err(DatabaseError(SaveMessage)))
  {
    match FindByIdOutcome(s.rows, available, id)
    case Err(e) => UpdateEffect(entries, s, Err(e))
    case Ok(None) => UpdateEffect(entries, s, Err(NotFoundError(GetOrder.NotFoundMessage)))
    case Ok(Some(o)) =>
      var saved := SaveOutcome(s, available, writable, DomainToEntity(WithStatus(o, newStatus)));
      match saved.result
      case Err(e) => UpdateEffect(entries, saved.state, Err(e))
      case Ok(u) => UpdateEffect(map[], saved.state, Ok(ToDto(u)))
  }

  /** A stored order that reads back gets the new status and nothing else:
      its row is replaced in place, no row is added, and the answer is the
      order with the new status. */
  lemma UpdateChangesOnlyStatus(entries: map<Id, OrderResponseDto>, s: StoreState, id: Id, newStatus: OrderStatus)
    requires StoreInvariant(s) && id in s.rows && EntityToDomain(s.rows[id]).Ok?
    ensures var r := UpdateOutcome(entries, s, true, true, id, newStatus);
            && r.state == StoreState(s.rows[id := s.rows[id].(orderStatus := newStatus)], s.nextId)
            && r.result == Ok(ToDto(WithStatus(EntityToDomain(s.rows[id]).value, newStatus)))
            && r.entries == map[]
  {
    var o := EntityToDomain(s.rows[id]).value;
    SaveReplaces(s, WithStatus(o, newStatus));
  }

  /** Updating to the same status twice leaves the table as one update does. */
  lemma UpdateIsIdempotent(entries: map<Id, OrderResponseDto>, s: StoreState, id: Id, newStatus: OrderStatus)
    requires StoreInvariant(s) && id in s.rows && EntityToDomain(s.rows[id]).Ok?
    ensures var once := UpdateOutcome(entries, s, true, true, id, newStatus);
            UpdateOutcome(once.entries, once.state, true, true, id, newStatus).state == once.state
  {
    UpdateChangesOnlyStatus(entries, s, id, newStatus);
    var once := UpdateOutcome(entries, s, true, true, id, newStatus);
    SavePreservesInvariant(s, true, true, DomainToEntity(WithStatus(EntityToDomain(s.rows[id]).value, newStatus)));
    UpdateChangesOnlyStatus(once.entries, once.state, id, newStatus);
    assert once.state.rows[id := once.state.rows[id].(orderStatus := newStatus)] == once.state.rows;
  }

  lemma UpdateKeepsInvariant(entries: map<Id, OrderResponseDto>, s: StoreState, available: bool, writable: bool,
                             id: Id, newStatus: OrderStatus)
    requires StoreInvariant(s)
    ensures StoreInvariant(UpdateOutcome(entries, s, available, writable, id, newStatus).state)
  {
    match FindByIdOutcome(s.rows, available, id)
    case Err(_) =>
    case Ok(None) =>
    case Ok(Some(o)) =>
      SavePreservesInvariant(s, available, writable, DomainToEntity(WithStatus(o, newStatus)));
  }

  /** The eviction keeps the cache coherent; without it the entry of the
      updated order would be stale (StatusChangeWithoutEvictionIsStale). */
  lemma UpdateKeepsCacheCoherent(entries: map<Id, OrderResponseDto>, s: StoreState, available: bool, writable: bool,
                                 id: Id, newStatus: OrderStatus)
    requires StoreInvariant(s) && CoherentWith(entries, s.rows)
    ensures var r := UpdateOutcome(entries, s, available, writable, id, newStatus);
            CoherentWith(r.entries, r.state.rows)
  {
    if available && writable && id in s.rows && EntityToDomain(s.rows[id]).Ok? {
      UpdateChangesOnlyStatus(entries, s, id, newStatus);
    }
  }

  class UpdateOrderUseCase {
    const repository: OrderRepositoryImpl
    const cache: OrderCache

    constructor (repository: OrderRepositoryImpl, cache: OrderCache)
      ensures this.repository == repository && this.cache == cache
    {
      this.repository := repository;
      this.cache := cache;
    }

    method Execute(id: Id, newStatus: OrderStatus) returns (r: Result<OrderResponseDto>)
      requires repository.Valid()
      modifies cache, repository`rows, repository`nextId, repository`calls
      ensures repository.Valid()
      ensures UpdateOutcome(old(cache.entries), old(repository.State()), repository.available, repository.writable,
                            id, newStatus)
              == UpdateEffect(cache.entries, repository.State(), r)
      ensures repository.calls
              == old(repository.calls) + [FindByIdCall(id)]
                 + match FindByIdOutcome(old(repository.rows), repository.available, id)
                   case Ok(Some(o)) => [SaveCall(WithStatus(o, newStatus))]
                   case _ => []
    {
      var order := repository.FindById(id);
      if order.Err? {
        return Err(order.error);
      }
      if order.value.None? {
        return Err(NotFoundError(GetOrder.NotFoundMessage));
      }
      var o := order.value.value;
      o.UpdateStatus(newStatus);
      var updatedOrder := repository.Save(o);
      if updatedOrder.Err? {
        return Err(updatedOrder.error);
      }
      cache.Clear();
      r := Ok(ToDto(updatedOrder.value.Value()));
    }
  }
}
