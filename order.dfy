/** The Order entity: a validating constructor, the derived total value and an
    in-place status update (domain/model/Order.java). */
module OrderModel {
  import opened Common

  /** The statuses the service uses. The enum's own file is not part of this
      model; these are the values its callers and tests name. */
  datatype OrderStatus = Received | Processed | Delivered

  /** The seven fields of an order, as a value. */
  datatype OrderValue = OrderValue(
    id: Option<Id>,
    orderNumber: string,
    productName: string,
    quantity: int,
    totalValue: Money,
    status: OrderStatus,
    createdAt: Timestamp)

  const QuantityMessage := "A quantidade do pedido deve ser maior que zero."
  const UnitPriceMessage := "O preço unitário deve ser maior que zero."

  /** calculateTotalValue: the unit price times the quantity. For a positive
      quantity the total is positive exactly when the price is, and the price
      can be recovered from it. */
  function TotalValue(unitPrice: Money, quantity: int): (total: Money)
    ensures quantity > 0 ==> (total > 0.0 <==> unitPrice > 0.0)
    ensures quantity > 0 ==> total / quantity as real == unitPrice
  {
    unitPrice * quantity as real
  }

  /** What a constructed order satisfies: both constructor checks passed. */
  predicate WellFormed(v: OrderValue) {
    v.quantity > 0 && v.totalValue > 0.0
  }

  /** The constructor Order(id, orderNumber, productName, quantity, unitPrice,
      status, createdAt): the quantity check comes first, then the price check;
      on success every argument is stored and the total is derived. */
  function Construct(id: Option<Id>, orderNumber: string, productName: string, quantity: int,
                     unitPrice: Money, status: OrderStatus, createdAt: Timestamp): (r: Result<OrderValue>)
    ensures r.Ok? <==> quantity > 0 && unitPrice > 0.0
    ensures quantity <= 0 ==> r == Err(DomainError(QuantityMessage))
    ensures quantity > 0 && unitPrice <= 0.0 ==> r == Err(DomainError(UnitPriceMessage))
    ensures r.Ok? ==> WellFormed(r.value) && r.value.totalValue == unitPrice * quantity as real
    ensures r.Ok? ==> && r.value.id == id && r.value.orderNumber == orderNumber
                      && r.value.productName == productName && r.value.quantity == quantity
                      && r.value.status == status && r.value.createdAt == createdAt
  {
    if quantity <= 0 then Err(DomainError(QuantityMessage))
    else if unitPrice <= 0.0 then Err(DomainError(UnitPriceMessage))
    else Ok(OrderValue(id, orderNumber, productName, quantity, TotalValue(unitPrice, quantity), status, createdAt))
  }

  /** updateStatus on values: the status is replaced and nothing else changes. */
  function WithStatus(v: OrderValue, newStatus: OrderStatus): (r: OrderValue)
    ensures r.status == newStatus
    ensures r.(status := v.status) == v
    ensures WellFormed(r) <==> WellFormed(v)
  {
    v.(status := newStatus)
  }

  /** The field values of the no-argument Order() the builders start from. The
      source relies on that constructor without declaring it; here the id is
      absent and the other fields hold placeholders every build step overwrites. */
  const BlankValue := OrderValue(None, "", "", 0, 0.0, Received, 0)

  class Order {
    var id: Option<Id>
    var orderNumber: string
    var productName: string
    var quantity: int
    var totalValue: Money
    var orderStatus: OrderStatus
    var createdAt: Timestamp

    /** The getters, together. */
    function Value(): OrderValue
      reads this
    {
      OrderValue(id, orderNumber, productName, quantity, totalValue, orderStatus, createdAt)
    }

    /** The no-argument constructor the builders use. */
    constructor Blank()
      ensures Value() == BlankValue
    {
      id, orderNumber, productName, quantity := None, "", "", 0;
      totalValue, orderStatus, createdAt := 0.0, Received, 0;
    }

    /** The field assignments of the constructor, after its checks. */
    constructor Init(v: OrderValue)
      ensures Value() == v
    {
      id, orderNumber, productName, quantity := v.id, v.orderNumber, v.productName, v.quantity;
      totalValue, orderStatus, createdAt := v.totalValue, v.status, v.createdAt;
    }

    /** new Order(...): throws DomainException instead of building an invalid order. */
    static method New(id: Option<Id>, orderNumber: string, productName: string, quantity: int,
                      unitPrice: Money, status: OrderStatus, createdAt: Timestamp) returns (r: Result<Order>)
      ensures r.Ok? ==> fresh(r.value)
      ensures Construct(id, orderNumber, productName, quantity, unitPrice, status, createdAt)
              == if r.Ok? then Ok(r.value.Value()) else Err(r.error)
    {
      if quantity <= 0 {
        return Err(DomainError(QuantityMessage));
      }
      if unitPrice <= 0.0 {
        return Err(DomainError(UnitPriceMessage));
      }
      var o := new Order.Init(OrderValue(id, orderNumber, productName, quantity,
                                         TotalValue(unitPrice, quantity), status, createdAt));
      return Ok(o);
    }

    /** Order.of: the static factory, which only calls the constructor. */
    static method Of(id: Option<Id>, orderNumber: string, productName: string, quantity: int,
                     unitPrice: Money, status: OrderStatus, createdAt: Timestamp) returns (r: Result<Order>)
      ensures r.Ok? ==> fresh(r.value)
      ensures Construct(id, orderNumber, productName, quantity, unitPrice, status, createdAt)
              == if r.Ok? then Ok(r.value.Value()) else Err(r.error)
    {
      r := New(id, orderNumber, productName, quantity, unitPrice, status, createdAt);
    }

    /** updateStatus: any status is accepted from any status. */
    method UpdateStatus(newStatus: OrderStatus)
      modifies this
      ensures Value() == WithStatus(old(Value()), newStatus)
    {
      orderStatus := newStatus;
    }
  }
}
