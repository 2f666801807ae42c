/** The transformation of an e-commerce order document into a validated
    warehouse order. `Transform` is its specification as a function of the
    document, the current date and the warehouse id; `MapOrderToWmsPayload`
    builds the line items with a loop, as the service does, and is proved to
    compute `Transform`. */
module Transformer {
  import opened Wrappers
  import opened Text
  import opened Money
  import opened Calendar
  import opened CountryCodes
  import opened EcommerceOrder
  import opened OrderModel

  const OrderNumberPrefix: string := "ECOM-"
  const CustomerNumberPrefix: string := "CUSTOMER-"
  const DefaultProductName: string := "Unknown Product"
  const DefaultPostalCode: string := "00000"
  const DefaultCity: string := "Unknown City"
  const DefaultQuantity: int := 1

  /** Python's truth value of an optional string: present and non-empty. */
  predicate IsTruthy(s: Option<string>) {
    s.Some? && s.value != ""
  }

  /** How an f-string renders an optional value: the string itself, or `None`. */
  function Render(s: Option<string>): string {
    s.GetOr("None")
  }

  /** The item's SKU, absent when the item has no price block or the block no SKU. */
  function SkuOf(item: Item): Option<string> {
    match item.price
    case None => None
    case Some(p) => p.sku
  }

  /** An item that becomes a line item: one whose SKU is present and non-empty. */
  predicate HasSku(item: Item) {
    IsTruthy(SkuOf(item))
  }

  function QuantityOf(item: Item): int {
    item.qty.GetOr(DefaultQuantity)
  }

  function UnitPriceOf(item: Item): real {
    match item.price
    case None => 0.0
    case Some(p) => p.amount.GetOr(0.0)
  }

  /** A line's total: unit price times quantity, rounded to the cent. */
  function LineTotal(unitPrice: real, quantity: int): real {
    Round2(unitPrice * quantity as real)
  }

  /** The line item an item with a SKU becomes, before validation. */
  function RawLineItem(item: Item, lineNumber: int): OrderLineItem
    requires HasSku(item)
  {
    OrderLineItem(lineNumber, SkuOf(item).value, QuantityOf(item), item.name.GetOr(DefaultProductName),
      UnitPriceOf(item), LineTotal(UnitPriceOf(item), QuantityOf(item)))
  }

  /** The line items of `items`, in order: items without a SKU are dropped and
      every kept item is numbered by its 1-based position in `items`. */
  function LineItemsOf(items: seq<Item>): seq<OrderLineItem> {
    if items == [] then []
    else
      var last := items[|items| - 1];
      LineItemsOf(items[..|items| - 1])
      + (if HasSku(last) then [RawLineItem(last, |items|)] else [])
  }

  /** The number of items that carry a SKU. */
  function SkuCount(items: seq<Item>): nat {
    if items == [] then 0
    else (if HasSku(items[0]) then 1 else 0) + SkuCount(items[1..])
  }

  /** A notification preference: enabled exactly when the contact value is present
      and non-empty, and carrying the value as it came. */
  function Notification(contactValue: Option<string>): (n: CustomerNotification)
    ensures n.enabled <==> contactValue.Some? && contactValue.value != ""
    ensures n.value == contactValue
  {
    CustomerNotification(IsTruthy(contactValue), contactValue)
  }

  /** First and last name joined by a space and stripped; a missing part is empty. */
  function FullName(contact: ContactSnapshot): string {
    Strip(contact.firstName.GetOr("") + " " + contact.lastName.GetOr(""))
  }

  /** For name parts without surrounding whitespace, the full name is the parts
      present joined by one space: a missing part leaves no stray space. */
  lemma FullNameOfParts(contact: ContactSnapshot)
    requires IsTrimmed(contact.firstName.GetOr("")) && IsTrimmed(contact.lastName.GetOr(""))
    ensures var first, last := contact.firstName.GetOr(""), contact.lastName.GetOr("");
      FullName(contact) == if first == "" then last else if last == "" then first else first + " " + last
  {
    var first, last := contact.firstName.GetOr(""), contact.lastName.GetOr("");
    var joined := first + " " + last;
    if first == "" {
      assert joined[1..] == last;
      StripKeepsTrimmed(last);
    } else if last == "" {
      assert joined[0] == first[0];
      assert joined[..|joined| - 1] == first;
      StripKeepsTrimmed(first);
    } else {
      assert joined[0] == first[0] && joined[|joined| - 1] == last[|last| - 1];
      StripKeepsTrimmed(joined);
    }
  }

  function BuildShippingAddress(contact: ContactSnapshot): ShippingAddress {
    ShippingAddress(
      CustomerNumberPrefix + Render(contact.id),
      FullName(contact),
      contact.address1,
      contact.address2,
      contact.postalCode.GetOr(DefaultPostalCode),
      contact.city.GetOr(DefaultCity),
      GetCountryCode(contact.country),
      Notification(contact.phone),
      Notification(contact.email))
  }

  /** The guarded part of the transformation: the delivery date, which fails on the
      last representable date, and the construction of the validated order. */
  function BuildOrder(doc: OrderDocument, orderId: string, contact: ContactSnapshot,
                      lineItems: seq<OrderLineItem>, today: Date, warehouseId: string): Option<WarehouseOrder>
    requires IsValid(today)
  {
    match AddOneDay(today)
    case None => None
    case Some(deliveryDate) =>
      NewWarehouseOrder(
        warehouseId,
        OrderNumberPrefix + orderId,
        deliveryDate,
        Some(doc.notes.GetOr("E-commerce order: " + orderId)),
        doc.amount,
        Upper(doc.currency.GetOr(DefaultCurrency)),
        BuildShippingAddress(contact),
        lineItems,
        DefaultShippingMethod,
        DefaultPriority).ToOption()
  }

  /** The transformation: no order for an absent document, a missing or empty id,
      no items, or no item with a SKU; otherwise the order built from the line
      items, or no order when building it fails. */
  function Transform(orderData: Option<OrderDocument>, today: Date, warehouseId: string): Option<WarehouseOrder>
    requires IsValid(today)
  {
    if orderData.None? || !IsTruthy(orderData.value.id) then None
    else
      var doc := orderData.value;
      var items := doc.items.GetOr([]);
      if items == [] then None
      else
        var lineItems := LineItemsOf(items);
        if lineItems == [] then None
        else BuildOrder(doc, doc.id.value, doc.contactSnapshot.GetOr(EmptyContact), lineItems, today, warehouseId)
  }

  /** The service's transformation. */
  method MapOrderToWmsPayload(orderData: Option<OrderDocument>, today: Date, warehouseId: string)
    returns (r: Option<WarehouseOrder>)
    requires IsValid(today)
    ensures r == Transform(orderData, today, warehouseId)
  {
    if orderData.None? || orderData.value.id.None? || orderData.value.id.value == "" {
      return None;
    }
    var doc := orderData.value;
    var orderId := doc.id.value;
    var customerInfo := doc.contactSnapshot.GetOr(EmptyContact);
    var items := doc.items.GetOr([]);
    if items == [] {
      return None;
    }
    var lineItems := TransformLineItems(items);
    if lineItems == [] {
      return None;
    }
    r := BuildOrder(doc, orderId, customerInfo, lineItems, today, warehouseId);
  }

  /** The service's loop over the items: an item without a SKU is skipped, every
      other one appended as a line numbered by its 1-based position. */
  method TransformLineItems(items: seq<Item>) returns (lineItems: seq<OrderLineItem>)
    ensures lineItems == LineItemsOf(items)
  {
    lineItems := [];
    for index := 0 to |items|
      invariant lineItems == LineItemsOf(items[..index])
    {
      var item := items[index];
      assert items[..index + 1][..index] == items[..index];
      assert LineItemsOf(items[..index + 1])
        == lineItems + (if HasSku(item) then [RawLineItem(item, index + 1)] else []);
      var sku := SkuOf(item);
      if sku.None? || sku.value == "" {
        continue;
      }
      var quantity := item.qty.GetOr(DefaultQuantity);
      var unitPrice := UnitPriceOf(item);
      var totalPrice := LineTotal(unitPrice, quantity);
      lineItems := lineItems + [OrderLineItem(index + 1, sku.value, quantity,
        item.name.GetOr(DefaultProductName), unitPrice, totalPrice)];
    }
    assert items[..|items|] == items;
  }

  // ---------------------------------------------------------------------------
  // Line numbering and filtering

  /** Every line item comes from an item with a SKU, numbered by that item's
      1-based position, with the item's SKU, quantity, name and prices. */
  lemma {:induction false} LineItemsComeFromSkuItems(items: seq<Item>)
    ensures forall k {:trigger LineItemsOf(items)[k]} :: 0 <= k < |LineItemsOf(items)| ==>
      var line := LineItemsOf(items)[k];
      1 <= line.lineNumber <= |items| && HasSku(items[line.lineNumber - 1])
      && line == RawLineItem(items[line.lineNumber - 1], line.lineNumber)
  {
    if items != [] {
      var prefix := items[..|items| - 1];
      LineItemsComeFromSkuItems(prefix);
      var out := LineItemsOf(items);
      forall k | 0 <= k < |out|
        ensures 1 <= out[k].lineNumber <= |items| && HasSku(items[out[k].lineNumber - 1])
        ensures out[k] == RawLineItem(items[out[k].lineNumber - 1], out[k].lineNumber)
      {
        if k < |LineItemsOf(prefix)| {
          assert out[k] == LineItemsOf(prefix)[k];
          assert items[out[k].lineNumber - 1] == prefix[out[k].lineNumber - 1];
        }
      }
    }
  }

  /** Line numbers strictly increase along the order's lines, so no two are equal. */
  lemma {:induction false} LineNumbersIncrease(items: seq<Item>)
    ensures forall j, k :: 0 <= j < k < |LineItemsOf(items)| ==>
      LineItemsOf(items)[j].lineNumber < LineItemsOf(items)[k].lineNumber
  {
    if items != [] {
      var prefix := items[..|items| - 1];
      LineNumbersIncrease(prefix);
      LineItemsComeFromSkuItems(prefix);
      var out := LineItemsOf(items);
      var before := LineItemsOf(prefix);
      forall j, k | 0 <= j < k < |out| ensures out[j].lineNumber < out[k].lineNumber {
        assert out[j] == before[j];
        if k < |before| {
          assert out[k] == before[k];
        } else {
          assert before[j].lineNumber <= |prefix|;
          assert out[k].lineNumber == |items|;
        }
      }
    }
  }

  /** Every item with a SKU gives the line numbered by its position. */
  lemma {:induction false} SkuItemsAreKept(items: seq<Item>, i: int)
    requires 0 <= i < |items| && HasSku(items[i])
    ensures exists k :: 0 <= k < |LineItemsOf(items)| && LineItemsOf(items)[k].lineNumber == i + 1
  {
    var prefix := items[..|items| - 1];
    var out := LineItemsOf(items);
    if i == |items| - 1 {
      assert out[|out| - 1].lineNumber == i + 1;
    } else {
      SkuItemsAreKept(prefix, i);
      var k :| 0 <= k < |LineItemsOf(prefix)| && LineItemsOf(prefix)[k].lineNumber == i + 1;
      assert out[k] == LineItemsOf(prefix)[k];
    }
  }

  /** Skipped items leave gaps: the line numbers are exactly the positions of the
      items with a SKU. */
  lemma LineNumbersArePositionsOfSkuItems(items: seq<Item>, n: int)
    ensures (exists k :: 0 <= k < |LineItemsOf(items)| && LineItemsOf(items)[k].lineNumber == n)
      <==> 1 <= n <= |items| && HasSku(items[n - 1])
  {
    LineItemsComeFromSkuItems(items);
    if 1 <= n <= |items| && HasSku(items[n - 1]) {
      SkuItemsAreKept(items, n - 1);
    }
  }

  lemma {:induction false} SkuCountAppend(items: seq<Item>, item: Item)
    ensures SkuCount(items + [item]) == SkuCount(items) + (if HasSku(item) then 1 else 0)
  {
    if items != [] {
      assert (items + [item])[1..] == items[1..] + [item];
      SkuCountAppend(items[1..], item);
    }
  }

  /** There are as many line items as items with a SKU. */
  lemma {:induction false} LineItemCountIsSkuCount(items: seq<Item>)
    ensures |LineItemsOf(items)| == SkuCount(items)
  {
    if items != [] {
      var prefix := items[..|items| - 1];
      LineItemCountIsSkuCount(prefix);
      assert items == prefix + [items[|items| - 1]];
      SkuCountAppend(prefix, items[|items| - 1]);
    }
  }

  /** No line item survives exactly when no item has a SKU. */
  lemma NoLineItemsIffNoSku(items: seq<Item>)
    ensures LineItemsOf(items) == [] <==> forall i :: 0 <= i < |items| ==> !HasSku(items[i])
  {
    LineItemsComeFromSkuItems(items);
    if i :| 0 <= i < |items| && HasSku(items[i]) {
      SkuItemsAreKept(items, i);
    }
  }

  // ---------------------------------------------------------------------------
  // Prices

  /** A line the transformation builds passes validation exactly when its quantity
      is positive and its unit price non-negative: the total it computes, rounded
      to the cent, always lies within the tolerance. */
  lemma RawLineItemValidity(item: Item, lineNumber: int)
    requires HasSku(item)
    ensures RawLineItem(item, lineNumber).IsValid() <==> QuantityOf(item) > 0 && UnitPriceOf(item) >= 0.0
  {
    var q, u := QuantityOf(item), UnitPriceOf(item);
    if q > 0 && u >= 0.0 {
      assert u * q as real >= 0.0;
      assert q as real * u == u * q as real;
    }
  }

  /** Every line is valid exactly when every item with a SKU has a positive
      quantity and a non-negative unit price. */
  lemma LineItemsValidity(items: seq<Item>)
    ensures (forall k :: 0 <= k < |LineItemsOf(items)| ==> LineItemsOf(items)[k].IsValid())
      <==> (forall i :: 0 <= i < |items| && HasSku(items[i]) ==> QuantityOf(items[i]) > 0 && UnitPriceOf(items[i]) >= 0.0)
  {
    var out := LineItemsOf(items);
    LineItemsComeFromSkuItems(items);
    forall k | 0 <= k < |out| ensures out[k].IsValid() <==>
      QuantityOf(items[out[k].lineNumber - 1]) > 0 && UnitPriceOf(items[out[k].lineNumber - 1]) >= 0.0
    {
      RawLineItemValidity(items[out[k].lineNumber - 1], out[k].lineNumber);
    }
    forall i | 0 <= i < |items| && HasSku(items[i])
      ensures exists k :: 0 <= k < |out| && out[k].lineNumber == i + 1
    {
      SkuItemsAreKept(items, i);
    }
  }

  // ---------------------------------------------------------------------------
  // The whole transformation

  /** The cases in which there is no order whatever the rest of the document says. */
  lemma TransformRejectsInvalidInput(doc: OrderDocument, today: Date, warehouseId: string)
    requires IsValid(today)
    ensures Transform(None, today, warehouseId) == None
    ensures !IsTruthy(doc.id) ==> Transform(Some(doc), today, warehouseId) == None
    ensures doc.items == None || doc.items == Some([]) ==> Transform(Some(doc), today, warehouseId) == None
    ensures doc.items.Some? && (forall i :: 0 <= i < |doc.items.value| ==> !HasSku(doc.items.value[i]))
      ==> Transform(Some(doc), today, warehouseId) == None
    ensures today == LastDate ==> Transform(Some(doc), today, warehouseId) == None
  {
    NoLineItemsIffNoSku(doc.items.GetOr([]));
  }

  /** The transformation yields an order exactly when the id is present and
      non-empty, some item has a SKU, every item with a SKU has a positive quantity
      and a non-negative unit price, the currency has three characters, and
      tomorrow is a representable date. */
  lemma TransformSucceedsIff(doc: OrderDocument, today: Date, warehouseId: string)
    requires IsValid(today)
    ensures var items := doc.items.GetOr([]);
      Transform(Some(doc), today, warehouseId).Some? <==>
        && IsTruthy(doc.id)
        && (exists i :: 0 <= i < |items| && HasSku(items[i]))
        && (forall i :: 0 <= i < |items| && HasSku(items[i]) ==> QuantityOf(items[i]) > 0 && UnitPriceOf(items[i]) >= 0.0)
        && |doc.currency.GetOr(DefaultCurrency)| == 3
        && today != LastDate
  {
    var items := doc.items.GetOr([]);
    NoLineItemsIffNoSku(items);
    LineItemsValidity(items);
  }

  /** An order the transformation produces is the record the mapping assembles
      from the document, its line items, tomorrow's date and the warehouse id. */
  lemma TransformedOrderShape(doc: OrderDocument, today: Date, warehouseId: string, order: WarehouseOrder)
    requires IsValid(today)
    requires Transform(Some(doc), today, warehouseId) == Some(order)
    ensures order.IsValid()
    ensures IsTruthy(doc.id) && AddOneDay(today).Some?
    ensures order == WarehouseOrder(warehouseId, OrderNumberPrefix + doc.id.value, AddOneDay(today).value,
      Some(doc.notes.GetOr("E-commerce order: " + doc.id.value)), doc.amount,
      Upper(doc.currency.GetOr(DefaultCurrency)), BuildShippingAddress(doc.contactSnapshot.GetOr(EmptyContact)),
      LineItemsOf(doc.items.GetOr([])), DefaultShippingMethod, DefaultPriority)
  {
    UpperIdempotent(doc.currency.GetOr(DefaultCurrency));
  }

  /** The order-level fields of a produced order: the prefixed order number,
      delivery the day after `today`, the currency upper-cased with three
      characters, and the fixed shipping method and priority. */
  lemma TransformedOrderHeader(doc: OrderDocument, today: Date, warehouseId: string, order: WarehouseOrder)
    requires IsValid(today)
    requires Transform(Some(doc), today, warehouseId) == Some(order)
    ensures order.IsValid()
    ensures doc.id.Some? && order.orderNumber == OrderNumberPrefix + doc.id.value
    ensures order.warehouseId == warehouseId
    ensures IsValid(order.deliveryDate) && ToOrdinal(order.deliveryDate) == ToOrdinal(today) + 1
    ensures order.orderNotes == Some(doc.notes.GetOr("E-commerce order: " + doc.id.value))
    ensures order.totalValue == doc.amount
    ensures order.currency == Upper(doc.currency.GetOr(DefaultCurrency)) && |order.currency| == 3
    ensures order.shippingMethod == DefaultShippingMethod && order.priority == DefaultPriority
  {
    TransformedOrderShape(doc, today, warehouseId, order);
  }

  /** The shipping address of a produced order: the prefixed customer number, the
      stripped full name, the address with its defaults, the resolved country, and
      notifications enabled exactly for the contact values present and non-empty. */
  lemma TransformedShippingAddress(doc: OrderDocument, today: Date, warehouseId: string, order: WarehouseOrder)
    requires IsValid(today)
    requires Transform(Some(doc), today, warehouseId) == Some(order)
    ensures var contact, address := doc.contactSnapshot.GetOr(EmptyContact), order.shippingAddress;
      && address.customerNumber == CustomerNumberPrefix + Render(contact.id)
      && address.name == FullName(contact)
      && address.address1 == contact.address1 && address.address2 == contact.address2
      && address.postalCode == contact.postalCode.GetOr(DefaultPostalCode)
      && address.city == contact.city.GetOr(DefaultCity)
      && address.countryCode == GetCountryCode(contact.country) && IsAlpha2Code(address.countryCode)
      && (address.phoneNotification.enabled <==> IsTruthy(contact.phone))
      && address.phoneNotification.value == contact.phone
      && (address.emailNotification.enabled <==> IsTruthy(contact.email))
      && address.emailNotification.value == contact.email
  {
    TransformedOrderShape(doc, today, warehouseId, order);
  }

  /** The lines of a produced order are the line items of the document's items. */
  lemma LinesOfTransform(doc: OrderDocument, today: Date, warehouseId: string, order: WarehouseOrder)
    requires IsValid(today)
    requires Transform(Some(doc), today, warehouseId) == Some(order)
    ensures order.lineItems == LineItemsOf(doc.items.GetOr([]))
  {
    TransformedOrderShape(doc, today, warehouseId, order);
  }

  /** `lines` describes `items` as the transformation numbers them: one line per
      item with a SKU, line numbers strictly increasing, and each line the one its
      item gives at its 1-based position, its total the unit price times the
      quantity rounded to the cent. */
  predicate LinesDescribeItems(items: seq<Item>, lines: seq<OrderLineItem>) {
    && |lines| == SkuCount(items)
    && (forall j, k :: 0 <= j < k < |lines| ==> lines[j].lineNumber < lines[k].lineNumber)
    && forall k :: 0 <= k < |lines| ==>
         var n := lines[k].lineNumber;
         && 1 <= n <= |items| && HasSku(items[n - 1])
         && lines[k] == RawLineItem(items[n - 1], n)
         && lines[k].totalPrice == LineTotal(lines[k].unitPrice, lines[k].quantity)
  }

  /** The line items of any list of items describe it. */
  lemma LineItemsDescribeItems(items: seq<Item>)
    ensures LinesDescribeItems(items, LineItemsOf(items))
  {
    LineItemCountIsSkuCount(items);
    LineNumbersIncrease(items);
    LineItemsComeFromSkuItems(items);
  }

  /** The lines of a produced order describe the document's items. */
  lemma TransformedLineItems(doc: OrderDocument, today: Date, warehouseId: string, order: WarehouseOrder)
    requires IsValid(today)
    requires Transform(Some(doc), today, warehouseId) == Some(order)
    ensures LinesDescribeItems(doc.items.GetOr([]), order.lineItems)
  {
    LinesOfTransform(doc, today, warehouseId, order);
    LineItemsDescribeItems(doc.items.GetOr([]));
  }

  /** The transformation is deterministic: the same document, date and warehouse
      give the same order, and the date only moves the delivery date. */
  lemma TransformDependsOnDateOnlyThroughDeliveryDate(doc: OrderDocument, d1: Date, d2: Date, warehouseId: string)
    requires IsValid(d1) && IsValid(d2) && d1 != LastDate && d2 != LastDate
    ensures Transform(Some(doc), d1, warehouseId).Some? <==> Transform(Some(doc), d2, warehouseId).Some?
    ensures Transform(Some(doc), d1, warehouseId).Some? ==>
      Transform(Some(doc), d2, warehouseId).value
        == Transform(Some(doc), d1, warehouseId).value.(deliveryDate := AddOneDay(d2).value)
  {
  }

  /** An order whose first item lacks a SKU and whose second has one gets a
      single line, numbered 2: the gap is kept, not renumbered. */
  lemma SkippedItemLeavesGap()
    ensures var items := [
        Item(Some("No SKU"), Some(1), Some(PriceBlock(None, Some(5.0)))),
        Item(Some("Widget"), Some(2), Some(PriceBlock(Some("A"), Some(10.0))))];
      LineItemsOf(items) == [OrderLineItem(2, "A", 2, "Widget", 10.0, 20.0)]
  {
    var items := [
        Item(Some("No SKU"), Some(1), Some(PriceBlock(None, Some(5.0)))),
        Item(Some("Widget"), Some(2), Some(PriceBlock(Some("A"), Some(10.0))))];
    assert items[..1][..0] == [];
    assert Round2(10.0 * 2 as real) == 20.0 by {
      assert IsCents(20.0);
    }
  }
}
