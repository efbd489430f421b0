/** The builder and director that assemble a new order in place
    (domain/builder/objectbuild/CreateOrderBuilder.java, domain/builder/OrderDirector.java,
    and the held order of domain/builder/OrderBuilder.java). */
module Builder {
  import opened Common
  import opened OrderModel

  /** The build steps, recorded in the order they are called. */
  datatype BuildStep = IdStep | OrderNumberStep | ProductNameStep | QuantityStep
                     | TotalValueStep | StatusStep | CreatedAtStep

  /** The seven steps in the order the director calls them. */
  const DirectorSteps := [IdStep, OrderNumberStep, ProductNameStep, QuantityStep,
                          TotalValueStep, StatusStep, CreatedAtStep]

  class CreateOrderBuilder {
    /** The order under construction, inherited from OrderBuilder. */
    var orderBuilder: Order
    /** The build steps called so far. */
    ghost var steps: seq<BuildStep>

    constructor ()
      ensures fresh(orderBuilder) && orderBuilder.Value() == BlankValue && steps == []
    {
      orderBuilder := new Order.Blank();
      steps := [];
    }

    /** getOrderBuilder: the held object itself, not a copy. */
    method GetOrderBuilder() returns (o: Order)
      ensures o == orderBuilder
    {
      o := orderBuilder;
    }

    /** Ignores its argument: the id of the order is left as it is. */
    method BuildId(id: Option<Id>)
      modifies this`steps
      ensures steps == old(steps) + [IdStep]
    {
      steps := steps + [IdStep];
    }

    method BuildOrderNumber(orderNumber: string)
      modifies this`steps, orderBuilder
      ensures orderBuilder.Value() == old(orderBuilder.Value()).(orderNumber := orderNumber)
      ensures steps == old(steps) + [OrderNumberStep]
    {
      orderBuilder.orderNumber := orderNumber;
      steps := steps + [OrderNumberStep];
    }

    method BuildProductName(productName: string)
      modifies this`steps, orderBuilder
      ensures orderBuilder.Value() == old(orderBuilder.Value()).(productName := productName)
      ensures steps == old(steps) + [ProductNameStep]
    {
      orderBuilder.productName := productName;
      steps := steps + [ProductNameStep];
    }

    /** Stores the quantity with no positivity check. */
    method BuildQuantity(quantity: int)
      modifies this`steps, orderBuilder
      ensures orderBuilder.Value() == old(orderBuilder.Value()).(quantity := quantity)
      ensures steps == old(steps) + [QuantityStep]
    {
      orderBuilder.quantity := quantity;
      steps := steps + [QuantityStep];
    }

    /** Stores the total as given: no multiplication, no check. */
    method BuildTotalValue(totalValue: Money)
      modifies this`steps, orderBuilder
      ensures orderBuilder.Value() == old(orderBuilder.Value()).(totalValue := totalValue)
      ensures steps == old(steps) + [TotalValueStep]
    {
      orderBuilder.totalValue := totalValue;
      steps := steps + [TotalValueStep];
    }

    method BuildOrderStatus(status: OrderStatus)
      modifies this`steps, orderBuilder
      ensures orderBuilder.Value() == old(orderBuilder.Value()).(status := status)
      ensures steps == old(steps) + [StatusStep]
    {
      orderBuilder.orderStatus := status;
      steps := steps + [StatusStep];
    }

    method BuildCreatedAt(createdAt: Timestamp)
      modifies this`steps, orderBuilder
      ensures orderBuilder.Value() == old(orderBuilder.Value()).(createdAt := createdAt)
      ensures steps == old(steps) + [CreatedAtStep]
    {
      orderBuilder.createdAt := createdAt;
      steps := steps + [CreatedAtStep];
    }
  }

  class OrderDirector {
    var builder: CreateOrderBuilder

    constructor (builder: CreateOrderBuilder)
      ensures this.builder == builder
    {
      this.builder := builder;
    }

    /** getBuilder: the seven steps, once each and in a fixed order, with no
        validation of what they store. */
    method GetBuilder(id: Option<Id>, orderNumber: string, productName: string, quantity: int,
                      totalValue: Money, status: OrderStatus, createdAt: Timestamp)
      modifies builder`steps, builder.orderBuilder
      ensures builder.orderBuilder.Value()
              == old(builder.orderBuilder.Value()).(orderNumber := orderNumber, productName := productName,
                                                   quantity := quantity, totalValue := totalValue,
                                                   status := status, createdAt := createdAt)
      ensures builder.steps == old(builder.steps) + DirectorSteps
    {
      builder.BuildId(id);
      builder.BuildOrderNumber(orderNumber);
      builder.BuildProductName(productName);
      builder.BuildQuantity(quantity);
      builder.BuildTotalValue(totalValue);
      builder.BuildOrderStatus(status);
      builder.BuildCreatedAt(createdAt);
    }

    /** getOrderBuilder: the very object the builder holds. */
    method GetOrderBuilder() returns (o: Order)
      ensures o == builder.orderBuilder
    {
      o := builder.GetOrderBuilder();
    }
  }
}
