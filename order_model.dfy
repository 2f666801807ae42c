/** The warehouse order schema. Its records are plain values; the smart
    constructors check the schema's field constraints and validators and either
    return the record or name the first constraint it breaks, so a caller only
    ever holds orders that satisfy `WarehouseOrder.IsValid`. */
module OrderModel {
  import opened Wrappers
  import opened Text
  import opened Calendar
  import opened Money

  /** Largest difference allowed between a line's total and quantity times unit price. */
  const PriceTolerance: real := 0.01

  const DefaultCurrency: string := "USD"
  const DefaultShippingMethod: string := "standard"
  const DefaultPriority: string := "normal"

  datatype CustomerNotification = CustomerNotification(enabled: bool, value: Option<string>)

  datatype ShippingAddress = ShippingAddress(
    customerNumber: string,
    name: string,
    address1: Option<string>,
    address2: Option<string>,
    postalCode: string,
    city: string,
    countryCode: string,
    phoneNotification: CustomerNotification,
    emailNotification: CustomerNotification)

  datatype OrderLineItem = OrderLineItem(
    lineNumber: int,
    productSku: string,
    quantity: int,
    productName: string,
    unitPrice: real,
    totalPrice: real)
  {
    /** Positive quantity, non-negative prices, and a total that matches
        quantity times unit price up to the tolerance. */
    predicate IsValid() {
      && quantity > 0
      && unitPrice >= 0.0
      && totalPrice >= 0.0
      && Abs(totalPrice - quantity as real * unitPrice) <= PriceTolerance
    }
  }

  datatype WarehouseOrder = WarehouseOrder(
    warehouseId: string,
    orderNumber: string,
    deliveryDate: Date,
    orderNotes: Option<string>,
    totalValue: Option<real>,
    currency: string,
    shippingAddress: ShippingAddress,
    lineItems: seq<OrderLineItem>,
    shippingMethod: string,
    priority: string)
  {
    /** A three-character upper-case currency and at least one line, every line valid. */
    predicate IsValid() {
      && |currency| == 3
      && Upper(currency) == currency
      && |lineItems| >= 1
      && forall i :: 0 <= i < |lineItems| ==> lineItems[i].IsValid()
    }
  }

  /** Validation of one line item, its constraints checked in field order. */
  function ValidateLineItem(item: OrderLineItem): (r: Result<OrderLineItem, string>)
    ensures r.Success? <==> item.IsValid()
    ensures r.Success? ==> r.value == item
    ensures item.quantity <= 0 ==> r == Failure("Quantity must be greater than 0")
    ensures item.quantity > 0 && item.unitPrice < 0.0 ==> r == Failure("Unit price must be non-negative")
    ensures item.quantity > 0 && item.unitPrice >= 0.0 && item.totalPrice < 0.0
      ==> r == Failure("Total price must be non-negative")
    ensures item.quantity > 0 && item.unitPrice >= 0.0 && item.totalPrice >= 0.0 && !item.IsValid()
      ==> r == Failure("Total price doesn't match quantity * unit price")
  {
    if item.quantity <= 0 then Failure("Quantity must be greater than 0")
    else if item.unitPrice < 0.0 then Failure("Unit price must be non-negative")
    else if item.totalPrice < 0.0 then Failure("Total price must be non-negative")
    else if Abs(item.totalPrice - item.quantity as real * item.unitPrice) > PriceTolerance then
      Failure("Total price doesn't match quantity * unit price")
    else Success(item)
  }

  /** Validation of a list of line items: the first invalid line's error, or the list unchanged. */
  function ValidateLineItems(items: seq<OrderLineItem>): (r: Result<seq<OrderLineItem>, string>)
    ensures r.Success? <==> forall i :: 0 <= i < |items| ==> items[i].IsValid()
    ensures r.Success? ==> r.value == items
  {
    if items == [] then Success([])
    else
      match ValidateLineItem(items[0])
      case Failure(e) => Failure(e)
      case Success(first) =>
        match ValidateLineItems(items[1..])
        case Failure(e) => Failure(e)
        case Success(rest) =>
          assert items == [first] + rest;
          Success(items)
  }

  /** Construction of a warehouse order: the currency must have exactly three
      characters and is then upper-cased, and the lines must be a non-empty
      list of valid line items. Every other field is taken as given. */
  function NewWarehouseOrder(
    warehouseId: string, orderNumber: string, deliveryDate: Date, orderNotes: Option<string>,
    totalValue: Option<real>, currency: string, shippingAddress: ShippingAddress,
    lineItems: seq<OrderLineItem>, shippingMethod: string, priority: string
  ): (r: Result<WarehouseOrder, string>)
    ensures r.Success? <==>
      |currency| == 3 && |lineItems| >= 1 && forall i :: 0 <= i < |lineItems| ==> lineItems[i].IsValid()
    ensures |currency| != 3 ==> r == Failure("currency must have exactly 3 characters")
    ensures |currency| == 3 && lineItems == [] ==> r == Failure("Order must have at least one item")
    ensures r.Success? ==> r.value.IsValid()
    ensures r.Success? ==> r.value == WarehouseOrder(warehouseId, orderNumber, deliveryDate,
      orderNotes, totalValue, Upper(currency), shippingAddress, lineItems, shippingMethod, priority)
  {
    if |currency| != 3 then Failure("currency must have exactly 3 characters")
    else if lineItems == [] then Failure("Order must have at least one item")
    else
      match ValidateLineItems(lineItems)
      case Failure(e) => Failure(e)
      case Success(validated) =>
        UpperIdempotent(currency);
        Success(WarehouseOrder(warehouseId, orderNumber, deliveryDate, orderNotes, totalValue,
          Upper(currency), shippingAddress, validated, shippingMethod, priority))
  }
}
