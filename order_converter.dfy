/** Conversions between requests, orders and responses (domain/model/OrderConverter.java). */
module Converter {
  import opened Common
  import opened OrderModel
  import opened Dto

  /** fromDto: an order built from a request without the constructor's checks,
      with no id, status RECEIVED and the given creation time. The source builds
      it through an Order.Builder that Order.java does not declare. */
  function FromDto(dto: OrderRequestDto, now: Timestamp): (o: OrderValue)
    ensures o.id == None && o.status == Received && o.createdAt == now
    ensures o.orderNumber == dto.orderNumber && o.productName == dto.productName
    ensures o.quantity == dto.quantity
    ensures o.totalValue == dto.unitPrice * dto.quantity as real
  {
    OrderValue(None, dto.orderNumber, dto.productName, dto.quantity,
               TotalValue(dto.unitPrice, dto.quantity), Received, now)
  }

  /** On a valid request fromDto agrees with the validating constructor. */
  lemma FromDtoMatchesConstructor(dto: OrderRequestDto, now: Timestamp)
    requires IsValid(dto)
    ensures Construct(None, dto.orderNumber, dto.productName, dto.quantity, dto.unitPrice, Received, now)
            == Ok(FromDto(dto, now))
  {
  }

  /** toDto: every field of the order, copied. */
  function ToDto(o: OrderValue): (d: OrderResponseDto)
    ensures d.id == o.id && d.orderNumber == o.orderNumber && d.productName == o.productName
    ensures d.quantity == o.quantity && d.totalValue == o.totalValue
    ensures d.status == o.status && d.createdAt == o.createdAt
  {
    OrderResponseDto(o.id, o.orderNumber, o.productName, o.quantity, o.totalValue, o.status, o.createdAt)
  }

  /** Nothing is lost by toDto: two orders give equal responses exactly when
      they are equal. */
  lemma ToDtoInjective(a: OrderValue, b: OrderValue)
    ensures ToDto(a) == ToDto(b) <==> a == b
  {
  }

  /** toDto over a list, element by element and in order. */
  function ToDtos(os: seq<OrderValue>): (ds: seq<OrderResponseDto>)
    ensures |ds| == |os|
    ensures forall i :: 0 <= i < |os| ==> ds[i] == ToDto(os[i])
  {
    if os == [] then [] else [ToDto(os[0])] + ToDtos(os[1..])
  }
}
