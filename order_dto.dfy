/** The request and response shapes of the use cases
    (application/dto/OrderRequestDto.java, application/dto/OrderResponseDto.java). */
module Dto {
  import opened Common
  import opened OrderModel

  /** The creation request. Its fields are never null here: the null case of
      @NotNull and @NotBlank is ruled out by the types. */
  datatype OrderRequestDto = OrderRequestDto(
    orderNumber: string,
    productName: string,
    quantity: int,
    unitPrice: Money)

  /** The response: the seven fields of an order. */
  datatype OrderResponseDto = OrderResponseDto(
    id: Option<Id>,
    orderNumber: string,
    productName: string,
    quantity: int,
    totalValue: Money,
    status: OrderStatus,
    createdAt: Timestamp)

  /** One broken constraint: the property it is declared on and its message. */
  datatype Violation = Violation(property: string, message: string)

  /** The constraints declared on the request, as one predicate. A valid
      request has a number and a name holding a character above the space,
      and a positive quantity and price. */
  predicate IsValid(r: OrderRequestDto): (b: bool)
    ensures b ==> (exists i :: 0 <= i < |r.orderNumber| && r.orderNumber[i] > ' ')
                  && (exists i :: 0 <= i < |r.productName| && r.productName[i] > ' ')
    ensures b ==> r.quantity > 0 && r.unitPrice > 0.0
  {
    && !IsBlank(r.orderNumber)
    && !IsBlank(r.productName)
    && r.quantity >= 1
    && r.unitPrice >= 0.01
  }

  /** What a bean validator reports for the request: one violation per broken
      constraint, with the message the annotation declares. */
  function Violations(r: OrderRequestDto): (vs: set<Violation>)
    ensures Violation("quantity", "A quantidade deve ser no mínimo 1.") in vs <==> r.quantity < 1
    ensures Violation("unitPrice", "O preço unitário deve ser maior que zero.") in vs <==> r.unitPrice < 0.01
  {
    (if IsBlank(r.orderNumber) then {Violation("orderNumber", "O número do pedido é obrigatório.")} else {})
    + (if IsBlank(r.productName) then {Violation("productName", "O nome do produto é obrigatório.")} else {})
    + (if r.quantity < 1 then {Violation("quantity", "A quantidade deve ser no mínimo 1.")} else {})
    + (if r.unitPrice < 0.01 then {Violation("unitPrice", "O preço unitário deve ser maior que zero.")} else {})
  }

  /** The validator finds nothing exactly when the request is valid. */
  lemma ValidIffNoViolations(r: OrderRequestDto)
    ensures IsValid(r) <==> Violations(r) == {}
  {
    if !IsValid(r) {
      if IsBlank(r.orderNumber) {
        assert Violation("orderNumber", "O número do pedido é obrigatório.") in Violations(r);
      } else if IsBlank(r.productName) {
        assert Violation("productName", "O nome do produto é obrigatório.") in Violations(r);
      }
    }
  }

  /** A valid request passes both checks of the Order constructor, whatever the
      id, status and time it is combined with. */
  lemma ValidRequestConstructs(r: OrderRequestDto, id: Option<Id>, status: OrderStatus, createdAt: Timestamp)
    requires IsValid(r)
    ensures Construct(id, r.orderNumber, r.productName, r.quantity, r.unitPrice, status, createdAt).Ok?
  {
  }
}
