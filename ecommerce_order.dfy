/** The order document the e-commerce platform returns, with the fields the
    transformation reads. Every key the document may lack is an `Option`, `None`
    standing for the key being absent. */
module EcommerceOrder {
  import opened Wrappers

  /** An item's price block: the SKU and the unit amount. */
  datatype PriceBlock = PriceBlock(sku: Option<string>, amount: Option<real>)

  datatype Item = Item(name: Option<string>, qty: Option<int>, price: Option<PriceBlock>)

  /** The customer as the order recorded them. */
  datatype ContactSnapshot = ContactSnapshot(
    id: Option<string>,
    firstName: Option<string>,
    lastName: Option<string>,
    email: Option<string>,
    phone: Option<string>,
    address1: Option<string>,
    address2: Option<string>,
    city: Option<string>,
    postalCode: Option<string>,
    country: Option<string>)

  /** The snapshot read when the document has none: every key absent. */
  const EmptyContact: ContactSnapshot :=
    ContactSnapshot(None, None, None, None, None, None, None, None, None, None)

  /** The order document; `id` is the document's `_id` key. */
  datatype OrderDocument = OrderDocument(
    id: Option<string>,
    contactSnapshot: Option<ContactSnapshot>,
    items: Option<seq<Item>>,
    amount: Option<real>,
    currency: Option<string>,
    notes: Option<string>)
}
