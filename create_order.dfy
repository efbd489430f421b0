/** Order creation (application/usecase/CreateOrderUseCase.java): refuse a
    number that is already stored, build the order through the director, save
    it and answer with its response. */
module CreateOrder {
  import opened Common
  import opened OrderModel
  import opened Dto
  import opened Converter
  import opened Builder
  import opened Repository
  import opened Cache

  const AlreadyExistsMessage := "There is already an order with this number."

  /** The order the source's director builds: the request's unit price is
      handed over as the total, whatever the quantity. */
  function DraftAsWritten(request: OrderRequestDto, now: Timestamp): (o: OrderValue)
    ensures o.totalValue == request.unitPrice
  {
    BlankValue.(orderNumber := request.orderNumber, productName := request.productName,
                quantity := request.quantity, totalValue := request.unitPrice,
                status := Processed, createdAt := now)
  }

  /** The order the director is meant to build: no id, status PROCESSED, the
      request's fields, and the total of the requested units. */
  function Draft(request: OrderRequestDto, now: Timestamp): (o: OrderValue)
    ensures o.id == None && o.status == Processed && o.createdAt == now
    ensures o.orderNumber == request.orderNumber && o.productName == request.productName
    ensures o.quantity == request.quantity
    ensures o.totalValue == request.unitPrice * request.quantity as real
  {
    BlankValue.(orderNumber := request.orderNumber, productName := request.productName,
                quantity := request.quantity, totalValue := TotalValue(request.unitPrice, request.quantity),
                status := Processed, createdAt := now)
  }

  /** As written the stored total ignores the quantity: it is right exactly when
      one unit is ordered. */
  lemma DraftAsWrittenIgnoresQuantity(request: OrderRequestDto, now: Timestamp)
    requires request.unitPrice > 0.0
    ensures DraftAsWritten(request, now) == Draft(request, now) <==> request.quantity == 1
  {
    if DraftAsWritten(request, now) == Draft(request, now) {
      assert request.unitPrice * request.quantity as real == request.unitPrice;
      UnitFactor(request.unitPrice, request.quantity as real);
    }
  }

  /** With both mappings as written, the table holds the unit price and reading
      it back multiplies by the quantity, so the order read back carries the
      intended total. */
  lemma AsWrittenDefectsCancelOnRead(request: OrderRequestDto, now: Timestamp, id: Id)
    requires request.quantity > 0 && request.unitPrice > 0.0
    ensures EntityToDomainAsWritten(DomainToEntity(DraftAsWritten(request, now).(id := Some(id))))
            == Ok(Draft(request, now).(id := Some(id)))
  {
  }

  datatype CreateEffect = CreateEffect(state: StoreState, result: Result<OrderResponseDto>)

  /** execute: a lookup error or a taken number stops before anything is
      saved; otherwise the draft is saved and the saved order answered. */
  ghost function CreateOutcome(s: StoreState, available: bool, writable: bool, request: OrderRequestDto, now: Timestamp)
    : (r: CreateEffect)
    ensures available && HasNumber(s.rows, request.orderNumber) ==> r.state == s && r.result.Err?
    ensures !available ==> r.state == s && r.result.Err? && r.result.error.DatabaseError?
    ensures available && !writable && !HasNumber(s.rows, request.orderNumber)
            ==> r == CreateEffect(s, Err(DatabaseError(SaveMessage)))
  {
    var found := FindByNumberOutcome(s.rows, available, request.orderNumber);
    if found.Err? then CreateEffect(s, Err(found.error))
    else if found.value.Some? then CreateEffect(s, Err(BusinessError(AlreadyExistsMessage)))
    else
      var saved := SaveOutcome(s, available, writable, DomainToEntity(Draft(request, now)));
      CreateEffect(saved.state, match saved.result
                                case Ok(o) => Ok(ToDto(o))
                                case Err(e) => Err(e))
  }

  /** A taken number whose row reads back is refused with the business error. */
  lemma CreateRefusesTakenNumber(s: StoreState, request: OrderRequestDto, now: Timestamp, k: Id)
    requires StoreInvariant(s) && k in s.rows && s.rows[k].orderNumber == request.orderNumber
    requires EntityToDomain(s.rows[k]).Ok?
    ensures CreateOutcome(s, true, true, request, now) == CreateEffect(s, Err(BusinessError(AlreadyExistsMessage)))
  {
  }

  /** A free number and a positive quantity and price store one new row under
      the next id and answer with the draft under that id. */
  lemma CreateStoresNewOrder(s: StoreState, request: OrderRequestDto, now: Timestamp)
    requires StoreInvariant(s) && !HasNumber(s.rows, request.orderNumber)
    requires request.quantity > 0 && request.unitPrice > 0.0
    ensures var r := CreateOutcome(s, true, true, request, now);
            && s.nextId !in s.rows
            && r.state == StoreState(s.rows[s.nextId := DomainToEntity(Draft(request, now).(id := Some(s.nextId)))], s.nextId + 1)
            && r.result == Ok(ToDto(Draft(request, now).(id := Some(s.nextId))))
            && |r.state.rows| == |s.rows| + 1
  {
    SaveInserts(s, Draft(request, now));
  }

  /** A request the constructor would reject is still stored, since nothing
      validates the draft, and then fails to read back. */
  lemma CreateStoresUnreadableRow(s: StoreState, request: OrderRequestDto, now: Timestamp)
    requires StoreInvariant(s) && !HasNumber(s.rows, request.orderNumber)
    requires request.quantity <= 0
    ensures var r := CreateOutcome(s, true, true, request, now);
            && r.result == Err(DatabaseError(SaveMessage))
            && s.nextId in r.state.rows && EntityToDomain(r.state.rows[s.nextId]).Err?
  {
  }

  lemma CreateKeepsInvariant(s: StoreState, available: bool, writable: bool, request: OrderRequestDto, now: Timestamp)
    requires StoreInvariant(s)
    ensures StoreInvariant(CreateOutcome(s, available, writable, request, now).state)
  {
    SavePreservesInvariant(s, available, writable, DomainToEntity(Draft(request, now)));
  }

  /** Creation does not touch the cache, and needs not: the new row's id holds
      no entry. */
  lemma CreateKeepsCacheCoherent(entries: map<Id, OrderResponseDto>, s: StoreState, available: bool,
                                 writable: bool, request: OrderRequestDto, now: Timestamp)
    requires StoreInvariant(s) && CoherentWith(entries, s.rows)
    ensures CoherentWith(entries, CreateOutcome(s, available, writable, request, now).state.rows)
  {
    var r := CreateOutcome(s, available, writable, request, now);
    if r.state != s {
      if s.nextId in entries {
        CachedIdsAreStored(entries, s.rows, s.nextId);
      }
      InsertKeepsCoherence(entries, s.rows, s.nextId, r.state.rows[s.nextId]);
      assert r.state.rows == s.rows[s.nextId := r.state.rows[s.nextId]];
    }
  }

  class CreateOrderUseCase {
    const repository: OrderRepositoryImpl

    constructor (repository: OrderRepositoryImpl)
      ensures this.repository == repository
    {
      this.repository := repository;
    }

    method Execute(request: OrderRequestDto, now: Timestamp) returns (r: Result<OrderResponseDto>)
      requires repository.Valid()
      modifies repository`rows, repository`nextId, repository`calls
      ensures repository.Valid()
      ensures CreateOutcome(old(repository.State()), repository.available, repository.writable, request, now)
              == CreateEffect(repository.State(), r)
      ensures repository.calls
              == old(repository.calls) + [FindByOrderNumberCall(request.orderNumber)]
                 + if FindByNumberOutcome(old(repository.rows), repository.available, request.orderNumber) == Ok(None)
                   then [SaveCall(Draft(request, now))] else []
    {
      var found := repository.FindByOrderNumber(request.orderNumber);
      if found.Err? {
        return Err(found.error);
      }
      if found.value.Some? {
        return Err(BusinessError(AlreadyExistsMessage));
      }
      var createOrderBuilder := new CreateOrderBuilder();
      var director := new OrderDirector(createOrderBuilder);
      director.GetBuilder(None, request.orderNumber, request.productName, request.quantity,
                          TotalValue(request.unitPrice, request.quantity), Processed, now);
      var createdOrder := director.GetOrderBuilder();
      var savedOrder := repository.Save(createdOrder);
      match savedOrder
      case Ok(o) =>
        r := Ok(ToDto(o.Value()));
      case Err(e) =>
        r := Err(e);
    }
  }
}
