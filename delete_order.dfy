/** Deletion (application/usecase/DeleteOrderUseCase.java): look the order up,
    delete its row, and on success drop its cache entry
    (@CacheEvict(key = "#id")). The source's existence check is inverted; both
    the code as written and the corrected policy are modelled. */
module DeleteOrder {
  import opened Common
  import opened Dto
  import opened Repository
  import opened Cache
  import GetOrder

  function NotFoundWithIdMessage(id: Id): string { "Order not found with ID: " + IdText(id) }
  function CannotDeleteMessage(id: Id): string { "Order cannot delete: " + IdText(id) }

  datatype DeleteUseEffect = DeleteUseEffect(entries: map<Id, OrderResponseDto>, rows: map<Id, OrderEntity>,
                                             outcome: Outcome)

  /** execute as the source writes it: the existence check is inverted, so a
      stored order is reported missing and a missing one is handed to
      deleteById, which ignores it. No call removes a row; a call succeeds
      exactly when the id is not stored and the store takes the write. */
  function DeleteOrderOutcomeAsWritten(entries: map<Id, OrderResponseDto>, rows: map<Id, OrderEntity>,
                                       available: bool, writable: bool, id: Id): (r: DeleteUseEffect)
    ensures r.rows == rows
    ensures r.outcome.Pass? <==> available && writable && id !in rows
    ensures r.outcome.Fail? ==> r.entries == entries
  {
    match FindByIdOutcome(rows, available, id)
    case Err(e) => DeleteUseEffect(entries, rows, Fail(e))
    case Ok(Some(_)) => DeleteUseEffect(entries, rows, Fail(NotFoundError(NotFoundWithIdMessage(id))))
    case Ok(None) =>
      var d := DeleteOutcome(rows, available, writable, id);
      if d.outcome.Fail? then DeleteUseEffect(entries, d.rows, Fail(BusinessError(CannotDeleteMessage(id))))
      else DeleteUseEffect(entries - {id}, d.rows, Pass)
  }

  /** As written a stored order that reads back is reported not found and
      kept, where the corrected policy deletes it; a missing id is reported
      deleted. */
  lemma DeleteAsWrittenNeverDeletes(entries: map<Id, OrderResponseDto>, rows: map<Id, OrderEntity>, id: Id)
    requires id in rows && EntityToDomain(rows[id]).Ok?
    ensures var r := DeleteOrderOutcomeAsWritten(entries, rows, true, true, id);
            && r == DeleteUseEffect(entries, rows, Fail(NotFoundError(NotFoundWithIdMessage(id))))
            && DeleteOrderOutcome(entries, rows, true, true, id).outcome == Pass
            && id !in DeleteOrderOutcome(entries, rows, true, true, id).rows
    ensures DeleteOrderOutcomeAsWritten(entries, rows - {id}, true, true, id).outcome == Pass
  {
  }

  /** execute with the existence check the messages describe: a missing order
      is reported not found, a stored one is deleted and its cache entry
      dropped. A lookup error is passed on; a failing deleteById becomes the
      business error. */
  function DeleteOrderOutcome(entries: map<Id, OrderResponseDto>, rows: map<Id, OrderEntity>,
                              available: bool, writable: bool, id: Id): (r: DeleteUseEffect)
    ensures r.outcome.Pass? <==> available && writable && id in rows && EntityToDomain(rows[id]).Ok?
    ensures r.outcome.Fail? ==> r.entries == entries && r.rows == rows
    ensures r.outcome.Pass? ==> r.entries == entries - {id} && r.rows == rows - {id}
    ensures available && id !in rows ==> r.outcome == Fail(NotFoundError(NotFoundWithIdMessage(id)))
    ensures !available ==> r.outcome == Fail(DatabaseError(FindByIdMessage(id)))
    ensures available && !writable && id in rows && EntityToDomain(rows[id]).Ok?
            ==> r.outcome == Fail(BusinessError(CannotDeleteMessage(id)))
  {
    match FindByIdOutcome(rows, available, id)
    case Err(e) => DeleteUseEffect(entries, rows, Fail(e))
    case Ok(None) => DeleteUseEffect(entries, rows, Fail(NotFoundError(NotFoundWithIdMessage(id))))
    case Ok(Some(_)) =>
      var d := DeleteOutcome(rows, available, writable, id);
      if d.outcome.Fail? then DeleteUseEffect(entries, d.rows, Fail(BusinessError(CannotDeleteMessage(id))))
      else DeleteUseEffect(entries - {id}, d.rows, Pass)
  }

  lemma DeleteKeepsInvariant(entries: map<Id, OrderResponseDto>, s: StoreState, available: bool, writable: bool,
                              id: Id)
    requires StoreInvariant(s)
    ensures StoreInvariant(StoreState(DeleteOrderOutcome(entries, s.rows, available, writable, id).rows, s.nextId))
  {
  }

  /** Deleting a row together with its entry keeps the cache coherent. */
  lemma DeleteKeepsCacheCoherent(entries: map<Id, OrderResponseDto>, rows: map<Id, OrderEntity>,
                                 available: bool, writable: bool, id: Id)
    requires CoherentWith(entries, rows)
    ensures var r := DeleteOrderOutcome(entries, rows, available, writable, id);
            CoherentWith(r.entries, r.rows)
  {
    EvictKeepsCoherence(entries, rows, id);
  }

  /** After a successful deletion the table has one row fewer and reading the
      order by id answers "Order not found", cached or not. */
  lemma DeleteThenGetNotFound(entries: map<Id, OrderResponseDto>, rows: map<Id, OrderEntity>, id: Id)
    requires CoherentWith(entries, rows)
    requires DeleteOrderOutcome(entries, rows, true, true, id).outcome.Pass?
    ensures var r := DeleteOrderOutcome(entries, rows, true, true, id);
            && |r.rows| == |rows| - 1
            && GetOrder.GetByIdOutcome(r.entries, r.rows, true, id).result
               == Err(NotFoundError(GetOrder.NotFoundMessage))
  {
    var r := DeleteOrderOutcome(entries, rows, true, true, id);
    assert id !in r.entries;
  }

  class DeleteOrderUseCase {
    const repository: OrderRepositoryImpl
    const cache: OrderCache

    constructor (repository: OrderRepositoryImpl, cache: OrderCache)
      ensures this.repository == repository && this.cache == cache
    {
      this.repository := repository;
      this.cache := cache;
    }

    method Execute(id: Id) returns (r: Outcome)
      requires repository.Valid()
      modifies cache, repository`rows, repository`calls
      ensures repository.Valid()
      ensures DeleteOrderOutcome(old(cache.entries), old(repository.rows), repository.available, repository.writable, id)
              == DeleteUseEffect(cache.entries, repository.rows, r)
      ensures repository.calls
              == old(repository.calls) + [FindByIdCall(id)]
                 + match FindByIdOutcome(old(repository.rows), repository.available, id)
                   case Ok(Some(_)) => [DeleteByIdCall(id)]
                   case _ => []
    {
      var order := repository.FindById(id);
      if order.Err? {
        return Fail(order.error);
      }
      if order.value.None? {
        return Fail(NotFoundError(NotFoundWithIdMessage(id)));
      }
      var deleted := repository.DeleteById(id);
      if deleted.Fail? {
        return Fail(BusinessError(CannotDeleteMessage(id)));
      }
      cache.Evict(id);
      r := Pass;
    }
  }
}
