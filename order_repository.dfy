/** The persistence adapter: entity/domain mapping, the backing table, and the
    translation of every store failure into a DatabaseException
    (infrastructure/repository/OrderRepositoryImpl.java, against the interface
    of domain/repository/OrderRepository.java). */
module Repository {
  import opened Common
  import opened OrderModel
  import opened Pagination

  /** A row of the orders table (infrastructure/entity/OrderEntity.java). */
  datatype OrderEntity = OrderEntity(
    id: Option<Id>,
    orderNumber: string,
    productName: string,
    quantity: int,
    totalValue: Money,
    orderStatus: OrderStatus,
    createdAt: Timestamp)

  /** The calls made on the repository, in the order they were made. */
  datatype RepositoryCall =
    | FindByOrderNumberCall(orderNumber: string)
    | FindByIdCall(id: Id)
    | FindAllCall(page: int, size: int)
    | SaveCall(order: OrderValue)
    | DeleteByIdCall(id: Id)

  function FindByNumberMessage(orderNumber: string): string { "Error finding order by order number: " + orderNumber }
  function FindByIdMessage(id: Id): string { "Error finding order by ID: " + IdText(id) }
  const FindAllMessage := "Error fetching paginated orders"
  function DuplicateNumberMessage(orderNumber: string): string { "Order already exists with number: " + orderNumber }
  const SaveMessage := "Error saving order"
  function DeleteMessage(id: Id): string { "Error deleting order with ID: " + IdText(id) }

  // ---------------------------------------------------------------------------
  // Mapping between rows and orders

  /** toEntity: the seven fields, copied. */
  function DomainToEntity(o: OrderValue): (e: OrderEntity)
    ensures e.id == o.id && e.orderNumber == o.orderNumber && e.productName == o.productName
    ensures e.quantity == o.quantity && e.totalValue == o.totalValue
    ensures e.orderStatus == o.status && e.createdAt == o.createdAt
  {
    OrderEntity(o.id, o.orderNumber, o.productName, o.quantity, o.totalValue, o.status, o.createdAt)
  }

  /** toDomain as the source writes it: the stored total is handed to the
      constructor as the unit price, so the constructor multiplies it by the
      quantity once more. */
  function EntityToDomainAsWritten(e: OrderEntity): (r: Result<OrderValue>)
    ensures r.Ok? <==> e.quantity > 0 && e.totalValue > 0.0
    ensures r.Ok? ==> r.value.totalValue == e.totalValue * e.quantity as real
  {
    Construct(e.id, e.orderNumber, e.productName, e.quantity, e.totalValue, e.orderStatus, e.createdAt)
  }

  /** As written, a round trip through the table multiplies the total by the
      quantity, so it preserves the order exactly when the quantity is one. */
  lemma AsWrittenRoundTripScalesTotal(o: OrderValue)
    requires WellFormed(o)
    ensures EntityToDomainAsWritten(DomainToEntity(o)).Ok?
    ensures EntityToDomainAsWritten(DomainToEntity(o)).value.totalValue == o.totalValue * o.quantity as real
    ensures EntityToDomainAsWritten(DomainToEntity(o)) == Ok(o) <==> o.quantity == 1
  {
    var r := EntityToDomainAsWritten(DomainToEntity(o));
    assert r.value.totalValue == o.totalValue * o.quantity as real;
    if r == Ok(o) {
      assert r.value == o;
      assert r.value.totalValue == o.totalValue;
      assert o.totalValue * o.quantity as real == o.totalValue;
      UnitFactor(o.totalValue, o.quantity as real);
    }
  }

  lemma UnitFactor(x: real, y: real)
    requires x > 0.0 && x * y == x
    ensures y == 1.0
  {
    assert x * (y - 1.0) == 0.0;
  }

  /** The unit price that rebuilds the stored total. A row whose quantity is not
      positive is rejected by the quantity check before the price is used. */
  function UnitPriceOf(e: OrderEntity): Money {
    if e.quantity > 0 then e.totalValue / e.quantity as real else e.totalValue
  }

  /** toDomain, corrected: the constructor receives the unit price, so the
      restored order has the stored total. A row that fails the constructor's
      checks gives its DomainException. */
  function EntityToDomain(e: OrderEntity): (r: Result<OrderValue>)
    ensures r.Ok? <==> e.quantity > 0 && e.totalValue > 0.0
    ensures r.Err? ==> r.error.DomainError?
    ensures r.Ok? ==> DomainToEntity(r.value) == e
  {
    Construct(e.id, e.orderNumber, e.productName, e.quantity, UnitPriceOf(e), e.orderStatus, e.createdAt)
  }

  /** The corrected mapping is a round trip for every constructed order. */
  lemma RoundTrip(o: OrderValue)
    requires WellFormed(o)
    ensures EntityToDomain(DomainToEntity(o)) == Ok(o)
  {
    var e := DomainToEntity(o);
    assert UnitPriceOf(e) * o.quantity as real == o.totalValue;
  }

  // ---------------------------------------------------------------------------
  // The backing table and its operations, on values

  /** The table's rows by id and the next id the store will assign. */
  datatype StoreState = StoreState(rows: map<Id, OrderEntity>, nextId: nat)

  /** No two rows share an order number: the constraint whose violation the
      save method reports as "Order already exists". */
  predicate UniqueNumbers(rows: map<Id, OrderEntity>) {
    forall a, b :: a in rows && b in rows && rows[a].orderNumber == rows[b].orderNumber ==> a == b
  }

  predicate StoreInvariant(s: StoreState) {
    && (forall k :: k in s.rows ==> k < s.nextId && s.rows[k].id == Some(k))
    && UniqueNumbers(s.rows)
  }

  predicate HasNumber(rows: map<Id, OrderEntity>, orderNumber: string) {
    exists k :: k in rows && rows[k].orderNumber == orderNumber
  }

  /** A lookup's result with a DomainException of toDomain wrapped in a
      DatabaseException carrying the given message. */
  function Wrap(r: Result<OrderValue>, message: string): (w: Result<Option<OrderValue>>)
    ensures w.Err? <==> r.Err?
    ensures w.Err? ==> w.error == DatabaseError(message)
    ensures w.Ok? ==> w.value == Some(r.value)
  {
    match r
    case Ok(o) => Ok(Some(o))
    case Err(_) => Err(DatabaseError(message))
  }

  /** findById: empty exactly when no row has the id. */
  function FindByIdOutcome(rows: map<Id, OrderEntity>, available: bool, id: Id): (r: Result<Option<OrderValue>>)
    ensures r == Ok(None) <==> available && id !in rows
    ensures r.Err? ==> r.error == DatabaseError(FindByIdMessage(id))
    ensures r.Ok? && r.value.Some? ==> id in rows && DomainToEntity(r.value.value) == rows[id]
    ensures available && id in rows && EntityToDomain(rows[id]).Ok? ==> r == Ok(Some(EntityToDomain(rows[id]).value))
  {
    if !available then Err(DatabaseError(FindByIdMessage(id)))
    else if id !in rows then Ok(None)
    else Wrap(EntityToDomain(rows[id]), FindByIdMessage(id))
  }

  /** findByOrderNumber: empty exactly when no row has the number; a found
      order is a stored row with that number, read back. */
  ghost function FindByNumberOutcome(rows: map<Id, OrderEntity>, available: bool, orderNumber: string)
    : (r: Result<Option<OrderValue>>)
    ensures r == Ok(None) <==> available && !HasNumber(rows, orderNumber)
    ensures r.Err? ==> r.error == DatabaseError(FindByNumberMessage(orderNumber))
    ensures r.Ok? && r.value.Some? ==> r.value.value.orderNumber == orderNumber
    ensures r.Ok? && r.value.Some? ==> exists k :: k in rows && rows[k].orderNumber == orderNumber
                                                && EntityToDomain(rows[k]) == Ok(r.value.value)
    ensures available && UniqueNumbers(rows) ==>
              forall k :: k in rows && rows[k].orderNumber == orderNumber ==>
                r == Wrap(EntityToDomain(rows[k]), FindByNumberMessage(orderNumber))
  {
    if !available then Err(DatabaseError(FindByNumberMessage(orderNumber)))
    else if !HasNumber(rows, orderNumber) then Ok(None)
    else
      var k :| k in rows && rows[k].orderNumber == orderNumber;
      Wrap(EntityToDomain(rows[k]), FindByNumberMessage(orderNumber))
  }

  /** The id save writes under: an order's own id when a row has it, otherwise
      the next id of the store (a new row). */
  function TargetId(s: StoreState, e: OrderEntity): Id {
    if e.id.Some? && e.id.value in s.rows then e.id.value else s.nextId
  }

  predicate NumberTakenByOther(rows: map<Id, OrderEntity>, id: Id, orderNumber: string) {
    exists k :: k in rows && k != id && rows[k].orderNumber == orderNumber
  }

  datatype SaveEffect = SaveEffect(state: StoreState, result: Result<OrderValue>)

  /** save: write the row, then map the stored row back. A store that does not
      answer or refuses the write, or a taken order number, leaves the table
      as it was. */
  function SaveOutcome(s: StoreState, available: bool, writable: bool, e: OrderEntity): (r: SaveEffect)
    ensures r.result.Err? ==> r.result.error.DatabaseError?
    ensures !(available && writable) ==> r == SaveEffect(s, Err(DatabaseError(SaveMessage)))
    ensures available && writable && NumberTakenByOther(s.rows, TargetId(s, e), e.orderNumber)
            ==> r == SaveEffect(s, Err(DatabaseError(DuplicateNumberMessage(e.orderNumber))))
  {
    if !(available && writable) then SaveEffect(s, Err(DatabaseError(SaveMessage)))
    else
      var id := TargetId(s, e);
      if NumberTakenByOther(s.rows, id, e.orderNumber) then
        SaveEffect(s, Err(DatabaseError(DuplicateNumberMessage(e.orderNumber))))
      else
        var stored := e.(id := Some(id));
        var restored := match EntityToDomain(stored)
                        case Ok(o) => Ok(o)
                        case Err(_) => Err(DatabaseError(SaveMessage));
        SaveEffect(StoreState(s.rows[id := stored], if id == s.nextId then s.nextId + 1 else s.nextId), restored)
  }

  lemma SavePreservesInvariant(s: StoreState, available: bool, writable: bool, e: OrderEntity)
    requires StoreInvariant(s)
    ensures StoreInvariant(SaveOutcome(s, available, writable, e).state)
  {
    var id := TargetId(s, e);
    if available && writable && !NumberTakenByOther(s.rows, id, e.orderNumber) {
      var rows' := SaveOutcome(s, available, writable, e).state.rows;
      forall a, b | a in rows' && b in rows' && rows'[a].orderNumber == rows'[b].orderNumber
        ensures a == b
      {
      }
    }
  }

  /** Saving an order without an id whose number is free inserts one row under
      a fresh id and returns the order with that id. */
  lemma SaveInserts(s: StoreState, o: OrderValue)
    requires StoreInvariant(s) && WellFormed(o) && o.id.None? && !HasNumber(s.rows, o.orderNumber)
    ensures s.nextId !in s.rows
    ensures SaveOutcome(s, true, true, DomainToEntity(o))
            == SaveEffect(StoreState(s.rows[s.nextId := DomainToEntity(o.(id := Some(s.nextId)))], s.nextId + 1),
                          Ok(o.(id := Some(s.nextId))))
  {
    RoundTrip(o.(id := Some(s.nextId)));
  }

  /** Saving an order whose id is stored and whose number is its own replaces
      that row in full and returns the order unchanged. */
  lemma SaveReplaces(s: StoreState, o: OrderValue)
    requires StoreInvariant(s) && WellFormed(o) && o.id.Some? && o.id.value in s.rows
    requires s.rows[o.id.value].orderNumber == o.orderNumber
    ensures SaveOutcome(s, true, true, DomainToEntity(o))
            == SaveEffect(StoreState(s.rows[o.id.value := DomainToEntity(o)], s.nextId), Ok(o))
  {
    RoundTrip(o);
  }

  datatype DeleteEffect = DeleteEffect(rows: map<Id, OrderEntity>, outcome: Outcome)

  /** deleteById, as Spring Data JPA 3 implements it: the row with the id is
      removed if there is one, and a missing id is ignored. A store that does
      not answer or refuses the write fails and changes nothing. */
  function DeleteOutcome(rows: map<Id, OrderEntity>, available: bool, writable: bool, id: Id): (r: DeleteEffect)
    ensures r.outcome.Pass? <==> available && writable
    ensures r.outcome.Fail? ==> r.rows == rows && r.outcome == Fail(DatabaseError(DeleteMessage(id)))
    ensures r.outcome.Pass? ==> id !in r.rows && forall k :: k in rows && k != id ==> k in r.rows && r.rows[k] == rows[k]
    ensures r.rows.Keys <= rows.Keys
    ensures id !in rows ==> r.rows == rows
  {
    if !(available && writable) then DeleteEffect(rows, Fail(DatabaseError(DeleteMessage(id))))
    else DeleteEffect(rows - {id}, Pass)
  }

  /** The rows with an id below n, in increasing id order. The order of a page
      is up to the store; the model fixes this one. */
  function Listing(rows: map<Id, OrderEntity>, n: nat): (s: seq<OrderEntity>)
    ensures forall i :: 0 <= i < |s| ==> s[i] in rows.Values
  {
    if n == 0 then [] else Listing(rows, n - 1) + (if n - 1 in rows then [rows[n - 1]] else [])
  }

  ghost function KeysBelow(rows: map<Id, OrderEntity>, n: nat): set<Id> {
    set k | k in rows && k < n
  }

  lemma {:induction false} ListingLength(rows: map<Id, OrderEntity>, n: nat)
    ensures |Listing(rows, n)| == |KeysBelow(rows, n)|
  {
    if n > 0 {
      ListingLength(rows, n - 1);
      if n - 1 in rows {
        assert KeysBelow(rows, n) == KeysBelow(rows, n - 1) + {n - 1};
      } else {
        assert KeysBelow(rows, n) == KeysBelow(rows, n - 1);
      }
    }
  }

  /** Every element carries an id, and the ids strictly increase. */
  ghost predicate InIdOrder(s: seq<OrderEntity>) {
    && (forall i :: 0 <= i < |s| ==> s[i].id.Some?)
    && (forall i, j :: 0 <= i < j < |s| ==> s[i].id.value < s[j].id.value)
  }

  /** Every row is stored under its own id. */
  ghost predicate RowsUnderOwnIds(rows: map<Id, OrderEntity>) {
    forall k :: k in rows ==> rows[k].id == Some(k)
  }

  /** With every row stored under its own id, each element of the listing
      below n is the row stored under its id, and that id is below n. */
  lemma {:induction false} ListingIds(rows: map<Id, OrderEntity>, n: nat)
    requires RowsUnderOwnIds(rows)
    ensures forall i :: 0 <= i < |Listing(rows, n)| ==>
              var e := Listing(rows, n)[i]; e.id.Some? && e.id.value < n && e.id.value in rows && rows[e.id.value] == e
  {
    if n > 0 {
      ListingIds(rows, n - 1);
      if n - 1 in rows {
        assert Listing(rows, n) == Listing(rows, n - 1) + [rows[n - 1]];
      } else {
        assert Listing(rows, n) == Listing(rows, n - 1);
      }
    }
  }

  /** With every row stored under its own id, the listing is in increasing
      id order. */
  lemma {:induction false} ListingInIdOrder(rows: map<Id, OrderEntity>, n: nat)
    requires RowsUnderOwnIds(rows)
    ensures InIdOrder(Listing(rows, n))
  {
    if n > 0 {
      ListingInIdOrder(rows, n - 1);
      ListingIds(rows, n - 1);
      var prefix := Listing(rows, n - 1);
      if n - 1 in rows {
        var l := prefix + [rows[n - 1]];
        assert Listing(rows, n) == l;
        forall i, j | 0 <= i < j < |l| ensures l[i].id.value < l[j].id.value {
          if j == |prefix| {
            assert l[i] == prefix[i];
          } else {
            assert l[i] == prefix[i] && l[j] == prefix[j];
          }
        }
      } else {
        assert Listing(rows, n) == prefix;
      }
    }
  }

  /** Every row with an id below n is in the listing below n. */
  lemma {:induction false} ListingComplete(rows: map<Id, OrderEntity>, n: nat)
    ensures forall k :: k in rows && k < n ==> rows[k] in Listing(rows, n)
  {
    if n > 0 {
      ListingComplete(rows, n - 1);
      if n - 1 in rows {
        assert Listing(rows, n) == Listing(rows, n - 1) + [rows[n - 1]];
      } else {
        assert Listing(rows, n) == Listing(rows, n - 1);
      }
    }
  }

  /** The listing holds every row once, in increasing id order. */
  lemma ListingHoldsAllRows(s: StoreState)
    requires StoreInvariant(s)
    ensures |Listing(s.rows, s.nextId)| == |s.rows|
    ensures forall k :: k in s.rows ==> s.rows[k] in Listing(s.rows, s.nextId)
    ensures InIdOrder(Listing(s.rows, s.nextId))
  {
    ListingLength(s.rows, s.nextId);
    assert KeysBelow(s.rows, s.nextId) == s.rows.Keys;
    ListingInIdOrder(s.rows, s.nextId);
    ListingComplete(s.rows, s.nextId);
  }

  /** The elements of page number page, pages having size elements. */
  function PageSlice<T>(s: seq<T>, page: nat, size: nat): (r: seq<T>)
    requires size > 0
    ensures |r| <= size
    ensures |r| > 0 <==> page * size < |s|
    ensures forall i :: 0 <= i < |r| ==> page * size + i < |s| && r[i] == s[page * size + i]
  {
    if page * size >= |s| then []
    else if page * size + size <= |s| then s[page * size .. page * size + size]
    else s[page * size ..]
  }

  /** toDomain over a page, failing as a whole if one row fails. */
  function MapToDomain(es: seq<OrderEntity>): (r: Result<seq<OrderValue>>)
    ensures r.Ok? <==> forall i :: 0 <= i < |es| ==> EntityToDomain(es[i]).Ok?
    ensures r.Err? ==> r.error == DatabaseError(FindAllMessage)
    ensures r.Ok? ==> |r.value| == |es| && forall i :: 0 <= i < |es| ==> EntityToDomain(es[i]) == Ok(r.value[i])
  {
    if es == [] then Ok([])
    else
      match (EntityToDomain(es[0]), MapToDomain(es[1..]))
      case (Ok(o), Ok(os)) => Ok([o] + os)
      case _ => Err(DatabaseError(FindAllMessage))
  }

  /** findAll(page, size): PageRequest.of rejects a negative page or a size
      below one, and that rejection is caught like every other failure. */
  function FindAllOutcome(s: StoreState, available: bool, page: int, size: int): (r: Result<Page<OrderValue>>)
    ensures r.Err? ==> r.error == DatabaseError(FindAllMessage)
    ensures r.Err? <==> !available || page < 0 || size < 1
                        || MapToDomain(PageSlice(Listing(s.rows, s.nextId), page, size)).Err?
    ensures r.Ok? ==> Consistent(r.value) && r.value.pageNumber == page && r.value.pageSize == size
                      && r.value.totalElements == |s.rows| && |r.value.content| <= size
    ensures r.Ok? ==> MapToDomain(PageSlice(Listing(s.rows, s.nextId), page, size)) == Ok(r.value.content)
  {
    if !available || page < 0 || size < 1 then Err(DatabaseError(FindAllMessage))
    else
      match MapToDomain(PageSlice(Listing(s.rows, s.nextId), page, size))
      case Err(e) => Err(e)
      case Ok(os) => MakePage(os, page, size, |s.rows|)
  }

  /** A successful page holds elements exactly when its number is below the
      number of pages it reports. */
  lemma FindAllPageFilledBelowTotal(s: StoreState, available: bool, page: int, size: int)
    requires StoreInvariant(s)
    requires FindAllOutcome(s, available, page, size).Ok?
    ensures var p := FindAllOutcome(s, available, page, size).value;
            |p.content| > 0 <==> page < p.totalPages
  {
    ListingHoldsAllRows(s);
    PageBelowTotal(|s.rows|, size, page);
  }

  // ---------------------------------------------------------------------------
  // The repository object

  class OrderRepositoryImpl {
    /** The table, as the Spring Data repository sees it. */
    var rows: map<Id, OrderEntity>
    var nextId: nat
    /** Whether the database answers; when it does not, every call on it throws. */
    var available: bool
    /** Whether the database accepts writes; when it refuses one, save and
        deleteById throw. */
    var writable: bool
    ghost var calls: seq<RepositoryCall>

    function State(): StoreState
      reads this
    {
      StoreState(rows, nextId)
    }

    ghost predicate Valid()
      reads this
    {
      StoreInvariant(State())
    }

    constructor (initial: StoreState, available: bool, writable: bool)
      requires StoreInvariant(initial)
      ensures Valid() && State() == initial && this.available == available && this.writable == writable
      ensures calls == []
    {
      rows, nextId := initial.rows, initial.nextId;
      this.available, this.writable := available, writable;
      calls := [];
    }

    /** toDomain, building the order object. */
    static method ToDomain(e: OrderEntity) returns (r: Result<Order>)
      ensures r.Ok? ==> fresh(r.value)
      ensures EntityToDomain(e) == if r.Ok? then Ok(r.value.Value()) else Err(r.error)
    {
      r := Order.New(e.id, e.orderNumber, e.productName, e.quantity, UnitPriceOf(e), e.orderStatus, e.createdAt);
    }

    method FindByOrderNumber(orderNumber: string) returns (r: Result<Option<Order>>)
      requires Valid()
      modifies this`calls
      ensures calls == old(calls) + [FindByOrderNumberCall(orderNumber)]
      ensures r.Ok? && r.value.Some? ==> fresh(r.value.value)
      ensures FindByNumberOutcome(rows, available, orderNumber) == Observed(r)
    {
      calls := calls + [FindByOrderNumberCall(orderNumber)];
      if !available {
        return Err(DatabaseError(FindByNumberMessage(orderNumber)));
      }
      if k :| k in rows && rows[k].orderNumber == orderNumber {
        var d := ToDomain(rows[k]);
        if d.Err? {
          return Err(DatabaseError(FindByNumberMessage(orderNumber)));
        }
        return Ok(Some(d.value));
      }
      return Ok(None);
    }

    method FindById(id: Id) returns (r: Result<Option<Order>>)
      requires Valid()
      modifies this`calls
      ensures calls == old(calls) + [FindByIdCall(id)]
      ensures r.Ok? && r.value.Some? ==> fresh(r.value.value)
      ensures FindByIdOutcome(rows, available, id) == Observed(r)
    {
      calls := calls + [FindByIdCall(id)];
      if !available {
        return Err(DatabaseError(FindByIdMessage(id)));
      }
      if id !in rows {
        return Ok(None);
      }
      var d := ToDomain(rows[id]);
      if d.Err? {
        return Err(DatabaseError(FindByIdMessage(id)));
      }
      return Ok(Some(d.value));
    }

    method FindAll(page: int, size: int) returns (r: Result<PaginatedResult<Order>>)
      requires Valid()
      modifies this`calls
      ensures calls == old(calls) + [FindAllCall(page, size)]
      ensures r.Ok? ==> fresh(r.value)
      ensures FindAllOutcome(State(), available, page, size) == if r.Ok? then Ok(PageValues(r.value)) else Err(r.error)
    {
      calls := calls + [FindAllCall(page, size)];
      if !available || page < 0 || size < 1 {
        return Err(DatabaseError(FindAllMessage));
      }
      var orders := ToDomainAll(PageSlice(Listing(rows, nextId), page, size));
      if orders.Err? {
        return Err(orders.error);
      }
      var p := PaginatedResult<Order>.New(orders.value, page, size, |rows|);
      match p
      case Ok(result) =>
        r := Ok(result);
      case Err(e) =>
        assert false;
        r := Err(e);
    }

    /** toDomain over the rows of a page, stopping at the first that fails. */
    static method ToDomainAll(entities: seq<OrderEntity>) returns (r: Result<seq<Order>>)
      ensures MapToDomain(entities) == if r.Ok? then Ok(Values(r.value)) else Err(r.error)
    {
      var orders: seq<Order> := [];
      var i := 0;
      while i < |entities|
        invariant 0 <= i <= |entities| && |orders| == i
        invariant forall j :: 0 <= j < i ==> EntityToDomain(entities[j]) == Ok(orders[j].Value())
      {
        var d := ToDomain(entities[i]);
        if d.Err? {
          return Err(DatabaseError(FindAllMessage));
        }
        orders := orders + [d.value];
        i := i + 1;
      }
      assert Values(orders) == MapToDomain(entities).value;
      r := Ok(orders);
    }

    method Save(order: Order) returns (r: Result<Order>)
      requires Valid()
      modifies this`rows, this`nextId, this`calls
      ensures Valid()
      ensures calls == old(calls) + [SaveCall(order.Value())]
      ensures r.Ok? ==> fresh(r.value)
      ensures SaveOutcome(old(State()), available, writable, DomainToEntity(order.Value())) == SaveEffect(State(), ObservedOrder(r))
    {
      calls := calls + [SaveCall(order.Value())];
      SavePreservesInvariant(State(), available, writable, DomainToEntity(order.Value()));
      var entity := DomainToEntity(order.Value());
      if !available || !writable {
        return Err(DatabaseError(SaveMessage));
      }
      var id := TargetId(State(), entity);
      if k :| k in rows && k != id && rows[k].orderNumber == entity.orderNumber {
        return Err(DatabaseError(DuplicateNumberMessage(order.orderNumber)));
      }
      var stored := entity.(id := Some(id));
      rows := rows[id := stored];
      if id == nextId {
        nextId := nextId + 1;
      }
      var d := ToDomain(stored);
      if d.Err? {
        return Err(DatabaseError(SaveMessage));
      }
      return Ok(d.value);
    }

    method DeleteById(id: Id) returns (r: Outcome)
      requires Valid()
      modifies this`rows, this`calls
      ensures Valid()
      ensures calls == old(calls) + [DeleteByIdCall(id)]
      ensures DeleteOutcome(old(rows), available, writable, id) == DeleteEffect(rows, r)
    {
      calls := calls + [DeleteByIdCall(id)];
      if !available || !writable {
        return Fail(DatabaseError(DeleteMessage(id)));
      }
      rows := rows - {id};
      return Pass;
    }
  }

  /** An order object's fields, or the error instead. */
  ghost function ObservedOrder(r: Result<Order>): Result<OrderValue>
    reads if r.Ok? then {r.value} else {}
  {
    match r
    case Ok(o) => Ok(o.Value())
    case Err(e) => Err(e)
  }

  /** A lookup's result, with the found order object read as a value. */
  ghost function Observed(r: Result<Option<Order>>): Result<Option<OrderValue>>
    reads if r.Ok? && r.value.Some? then {r.value.value} else {}
  {
    match r
    case Ok(None) => Ok(None)
    case Ok(Some(o)) => Ok(Some(o.Value()))
    case Err(e) => Err(e)
  }

  function Values(os: seq<Order>): (vs: seq<OrderValue>)
    reads os
    ensures |vs| == |os| && forall i :: 0 <= i < |os| ==> vs[i] == os[i].Value()
  {
    if os == [] then [] else [os[0].Value()] + Values(os[1..])
  }

  /** A page of order objects, read as a page of values. */
  function PageValues(p: PaginatedResult<Order>): Page<OrderValue>
    reads p, p.content
  {
    Page(Values(p.content), p.pageNumber, p.pageSize, p.totalElements, p.totalPages)
  }
}
