/** Values exchanged by the blanket-order wizard: the wizard lines it reads and the
    sale-order values it would hand to the ORM's create. */
module WizardTypes {

  /** A record id. 0 stands for an empty Many2one, which the host framework reads as False. */
  type Id = nat

  /** One wizard line, with the related fields of its blanket-order line already resolved.
      `currency` is the currency of the blanket order the line belongs to; `pricelist`,
      `salesman` and `paymentTerm` are those of the blanket-order line. */
  datatype WizardLine = WizardLine(
    blanketLine: Id,
    product: Id,
    productName: string,
    uom: Id,
    sequence: int,
    priceUnit: real,
    remaining: real,
    qty: real,
    partner: Id,
    currency: Id,
    pricelist: Id,
    salesman: Id,
    paymentTerm: Id,
    taxes: seq<Id>)

  /** The values of one sale-order line (the `vals` of a `(0, 0, vals)` command). */
  datatype OrderLineVals = OrderLineVals(
    product: Id,
    name: string,
    productUom: Id,
    sequence: int,
    priceUnit: real,
    blanketOrderLine: Id,
    productUomQty: real,
    taxIds: seq<Id>)

  /** The four header fields that are folded over the counted lines. */
  datatype Header = Header(user: Id, currency: Id, pricelist: Id, paymentTerm: Id)

  /** The values of one sale order, as passed to create. */
  datatype OrderVals = OrderVals(
    partner: Id,
    origin: string,
    user: Id,
    currency: Id,
    pricelist: Id,
    paymentTerm: Id,
    orderLine: seq<OrderLineVals>)

  /** The three user errors the wizard can raise. */
  datatype Error =
    | ExceedsRemaining     // "can't order more than the remaining quantities"
    | EmptyOrder           // "an order can't be empty"
    | DifferentCurrencies  // "different currencies"

  datatype Result = Ok(orders: seq<OrderVals>) | Err(error: Error)
}
