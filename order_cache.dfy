/** The "orders" cache that the use cases' @Cacheable and @CacheEvict
    annotations drive (application/usecase/GetOrderUseCase.java,
    UpdateOrderUseCase.java, DeleteOrderUseCase.java): responses keyed by id. */
module Cache {
  import opened Common
  import opened OrderModel
  import opened Dto
  import opened Converter
  import opened Repository

  class OrderCache {
    var entries: map<Id, OrderResponseDto>

    constructor ()
      ensures entries == map[]
    {
      entries := map[];
    }

    /** A cache lookup: a hit exactly when the id has an entry. */
    method Get(id: Id) returns (r: Option<OrderResponseDto>)
      ensures r.Some? <==> id in entries
      ensures r.Some? ==> r.value == entries[id]
    {
      if id in entries {
        r := Some(entries[id]);
      } else {
        r := None;
      }
    }

    method Put(id: Id, response: OrderResponseDto)
      modifies this
      ensures entries == old(entries)[id := response]
    {
      entries := entries[id := response];
    }

    /** @CacheEvict(key = "#id"). */
    method Evict(id: Id)
      modifies this
      ensures entries == old(entries) - {id}
    {
      entries := entries - {id};
    }

    /** @CacheEvict(allEntries = true). */
    method Clear()
      modifies this
      ensures entries == map[]
    {
      entries := map[];
    }
  }

  /** The response the table currently gives for an id, if any. */
  function StoredResponse(rows: map<Id, OrderEntity>, id: Id): (r: Option<OrderResponseDto>)
    ensures r.Some? <==> id in rows && EntityToDomain(rows[id]).Ok?
    ensures r.Some? ==> r.value.id == rows[id].id && r.value.totalValue == rows[id].totalValue
                        && r.value.status == rows[id].orderStatus
  {
    if id in rows then
      match EntityToDomain(rows[id])
      case Ok(o) => Some(ToDto(o))
      case Err(_) => None
    else None
  }

  /** Every cached response is the one the table would give now. */
  predicate CoherentWith(entries: map<Id, OrderResponseDto>, rows: map<Id, OrderEntity>) {
    forall k :: k in entries ==> StoredResponse(rows, k) == Some(entries[k])
  }

  lemma EmptyIsCoherent(rows: map<Id, OrderEntity>)
    ensures CoherentWith(map[], rows)
  {
  }

  /** Caching what the table gives keeps the cache coherent. */
  lemma PutKeepsCoherence(entries: map<Id, OrderResponseDto>, rows: map<Id, OrderEntity>, id: Id)
    requires CoherentWith(entries, rows) && StoredResponse(rows, id).Some?
    ensures CoherentWith(entries[id := StoredResponse(rows, id).value], rows)
  {
  }

  /** Removing a row and its entry together keeps the cache coherent. */
  lemma EvictKeepsCoherence(entries: map<Id, OrderResponseDto>, rows: map<Id, OrderEntity>, id: Id)
    requires CoherentWith(entries, rows)
    ensures CoherentWith(entries - {id}, rows - {id})
  {
    forall k | k in entries - {id}
      ensures StoredResponse(rows - {id}, k) == Some((entries - {id})[k])
    {
      assert StoredResponse(rows, k) == Some(entries[k]);
    }
  }

  /** Adding a row under an id the cache does not hold keeps it coherent. */
  lemma InsertKeepsCoherence(entries: map<Id, OrderResponseDto>, rows: map<Id, OrderEntity>, id: Id, e: OrderEntity)
    requires CoherentWith(entries, rows) && id !in entries
    ensures CoherentWith(entries, rows[id := e])
  {
    forall k | k in entries
      ensures StoredResponse(rows[id := e], k) == Some(entries[k])
    {
      assert StoredResponse(rows, k) == Some(entries[k]);
    }
  }

  /** A cached id is a stored id. */
  lemma CachedIdsAreStored(entries: map<Id, OrderResponseDto>, rows: map<Id, OrderEntity>, id: Id)
    requires CoherentWith(entries, rows) && id in entries
    ensures id in rows
  {
    assert StoredResponse(rows, id).Some?;
  }

  /** Why the update must evict: changing the status of a cached order without
      touching the cache leaves a stale entry. */
  lemma StatusChangeWithoutEvictionIsStale(entries: map<Id, OrderResponseDto>, rows: map<Id, OrderEntity>,
                                           id: Id, newStatus: OrderStatus)
    requires CoherentWith(entries, rows) && id in entries
    requires newStatus != entries[id].status
    ensures id in rows
    ensures !CoherentWith(entries, rows[id := rows[id].(orderStatus := newStatus)])
  {
    CachedIdsAreStored(entries, rows, id);
    var rows' := rows[id := rows[id].(orderStatus := newStatus)];
    assert StoredResponse(rows, id) == Some(entries[id]);
    if StoredResponse(rows', id).Some? {
      assert StoredResponse(rows', id).value.status == newStatus;
    }
  }
}
