/** Properties that span several use cases, and the worked examples the
    service's documentation and tests give. */
module Scenarios {
  import opened Common
  import opened OrderModel
  import opened Pagination
  import opened Dto
  import opened Converter
  import opened Repository
  import opened Cache
  import opened CreateOrder
  import opened GetOrder
  import UpdateOrder

  /** Reading a just created order by its new id answers the request's fields
      with the assigned id, status PROCESSED, the creation time and the total. */
  lemma CreateThenGet(entries: map<Id, OrderResponseDto>, s: StoreState, request: OrderRequestDto, now: Timestamp)
    requires StoreInvariant(s) && CoherentWith(entries, s.rows) && !HasNumber(s.rows, request.orderNumber)
    requires request.quantity > 0 && request.unitPrice > 0.0
    ensures var c := CreateOutcome(s, true, true, request, now);
            && c.result.Ok?
            && GetByIdOutcome(entries, c.state.rows, true, s.nextId).result == c.result
            && c.result.value.orderNumber == request.orderNumber
            && c.result.value.productName == request.productName
            && c.result.value.quantity == request.quantity
            && c.result.value.totalValue == request.unitPrice * request.quantity as real
            && c.result.value.status == Processed && c.result.value.id == Some(s.nextId)
  {
    CreateStoresNewOrder(s, request, now);
    CreateKeepsCacheCoherent(entries, s, true, true, request, now);
    var c := CreateOutcome(s, true, true, request, now);
    RoundTrip(Draft(request, now).(id := Some(s.nextId)));
    GetByIdAnswersFromTable(entries, c.state.rows, s.nextId);
  }

  /** The same creation request twice: the second is refused and stores
      nothing, so redelivered creation messages cannot duplicate an order. */
  lemma CreateTwiceRefused(s: StoreState, request: OrderRequestDto, now: Timestamp, later: Timestamp)
    requires StoreInvariant(s) && !HasNumber(s.rows, request.orderNumber)
    requires request.quantity > 0 && request.unitPrice > 0.0
    ensures var first := CreateOutcome(s, true, true, request, now);
            && first.result.Ok?
            && CreateOutcome(first.state, true, true, request, later)
               == CreateEffect(first.state, Err(BusinessError(AlreadyExistsMessage)))
  {
    CreateStoresNewOrder(s, request, now);
    CreateKeepsInvariant(s, true, true, request, now);
    var first := CreateOutcome(s, true, true, request, now);
    RoundTrip(Draft(request, now).(id := Some(s.nextId)));
    CreateRefusesTakenNumber(first.state, request, later, s.nextId);
  }

  /** After a status update, reading the order answers the new status, not a
      cached response. */
  lemma UpdateThenGetIsFresh(entries: map<Id, OrderResponseDto>, s: StoreState, id: Id, newStatus: OrderStatus)
    requires StoreInvariant(s) && id in s.rows && EntityToDomain(s.rows[id]).Ok?
    ensures var u := UpdateOrder.UpdateOutcome(entries, s, true, true, id, newStatus);
            && u.result.Ok?
            && GetByIdOutcome(u.entries, u.state.rows, true, id).result == u.result
            && u.result.value.status == newStatus
  {
    UpdateOrder.UpdateChangesOnlyStatus(entries, s, id, newStatus);
    var u := UpdateOrder.UpdateOutcome(entries, s, true, true, id, newStatus);
    assert EntityToDomain(u.state.rows[id]) == Ok(WithStatus(EntityToDomain(s.rows[id]).value, newStatus));
  }

  const Widget := OrderRequestDto("ORD1", "Widget", 2, 50.0)
  const Empty := StoreState(map[], 0)

  /** ORD1: two Widgets at 50.00 give an order of 100.00 with status PROCESSED,
      and a second identical request is refused. */
  lemma WidgetExample(now: Timestamp)
    ensures var c := CreateOutcome(Empty, true, true, Widget, now);
            && c.result == Ok(OrderResponseDto(Some(0), "ORD1", "Widget", 2, 100.0, Processed, now))
            && CreateOutcome(c.state, true, true, Widget, now).result == Err(BusinessError(AlreadyExistsMessage))
  {
    CreateStoresNewOrder(Empty, Widget, now);
    CreateTwiceRefused(Empty, Widget, now, now);
  }

  /** A table of two orders read as page 0 of size 2: one page holding both. */
  lemma TwoOrdersOnePage(a: OrderValue, b: OrderValue)
    requires WellFormed(a) && WellFormed(b) && a.id == Some(0) && b.id == Some(1)
    requires a.orderNumber != b.orderNumber
    ensures var s := StoreState(map[0 := DomainToEntity(a), 1 := DomainToEntity(b)], 2);
            && StoreInvariant(s)
            && GetAllOutcome(s, true, 0, 2).Ok?
            && var p := GetAllOutcome(s, true, 0, 2).value;
               p.totalPages == 1 && |p.content| == 2 && p.totalElements == 2
               && p.content == [ToDto(a), ToDto(b)]
  {
    var rows := map[0 := DomainToEntity(a), 1 := DomainToEntity(b)];
    var s := StoreState(rows, 2);
    RoundTrip(a);
    RoundTrip(b);
    assert Listing(rows, 0) == [];
    assert Listing(rows, 1) == [DomainToEntity(a)];
    assert Listing(rows, 2) == [DomainToEntity(a), DomainToEntity(b)];
    assert PageSlice(Listing(rows, 2), 0, 2) == Listing(rows, 2);
    var m := MapToDomain(Listing(rows, 2));
    assert EntityToDomain(Listing(rows, 2)[0]) == Ok(a) && EntityToDomain(Listing(rows, 2)[1]) == Ok(b);
    assert forall i :: 0 <= i < |Listing(rows, 2)| ==> EntityToDomain(Listing(rows, 2)[i]).Ok?;
    assert |m.value| == 2 && m.value[0] == a && m.value[1] == b;
    assert m.value == [a, b];
    assert rows.Keys == {0, 1};
    TotalPagesUnique(2, 2, 1);
  }
}
