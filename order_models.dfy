/** The order records the payment and orders packages exchange with the
    marketplace and store in the `"Order"` table, as far as the modelled
    code reads or writes them. Money amounts are copied through unchanged
    and kept as `real`. */
module OrderModels {

  /** An order line; `orderId` is the order it belongs to. */
  datatype Item = Item(orderId: int, name: string, trackingCode: string)

  /** One element of the item-list response: the items of one order. */
  datatype OrderItem = OrderItem(orderItems: seq<Item>)

  /** The inner item lists of an item-list response, in order. */
  function ItemLists(xs: seq<OrderItem>): seq<seq<Item>>
  {
    seq(|xs|, i requires 0 <= i < |xs| => xs[i].orderItems)
  }

  datatype Address = Address(firstName: string, phone: string, address1: string)

  /** A return or refund line of an order. */
  datatype ReturnRefund = ReturnRefund(productSku: string, reasonText: string, tradeOrderLineId: int, refundAmount: int)

  datatype Order = Order(
    orderId: int, customerFirstName: string, customerLastName: string, addressShipping: Address,
    deliveryInfo: string, shippingFee: real, voucherSeller: real, voucherPlatform: real,
    shippingFeeDiscountSeller: real, price: real, itemsCount: int, items: seq<Item>, statuses: seq<string>,
    createdAt: string, updatedAt: string, totalReleasedAmount: real, refundStatus: seq<ReturnRefund>)
}
