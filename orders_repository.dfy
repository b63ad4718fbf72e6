/** The orders package's repository: the record stored in the `"Order"`
    table's `data` column and the insert-if-absent `SaveOrder`. */
module OrdersRepository {

  import opened Wrappers
  import opened OrderModels

  /** The `data` column written by this package (it has no order id, no
      released amount and no status list). */
  datatype SQLData = SQLData(
    customerName: string, customerPhone: string, customerAddress: string, courierService: string,
    transactionFee: real, shippingFee: real, processFee: real, serviceFee: real, sellerDiscount: real,
    platformDiscount: real, shippingFeeDiscountSeller: real, totalPrice: real, currency: string,
    refundAmount: int, refundReason: string, createdAt: string, systemUpdateTime: string)

  /** `ConvertOrderToSQLData`. The floating-point rounding of the first
      refund amount is the parameter `roundRefund`. */
  function ConvertOrderToSQLData(order: Order, roundRefund: int -> int): (d: SQLData)
    ensures d.customerName == order.customerFirstName + " " + order.customerLastName
    ensures d.currency == "MYR" && d.transactionFee == 0.0 && d.processFee == 0.0 && d.serviceFee == 0.0
    ensures order.refundStatus == [] ==> d.refundAmount == 0 && d.refundReason == ""
    ensures order.refundStatus != [] ==>
              d.refundAmount == roundRefund(order.refundStatus[0].refundAmount)
              && d.refundReason == order.refundStatus[0].reasonText
    ensures d.customerPhone == order.addressShipping.phone && d.customerAddress == order.addressShipping.address1
    ensures d.createdAt == order.createdAt && d.systemUpdateTime == order.updatedAt
  {
    var refundAmount := if |order.refundStatus| > 0 then roundRefund(order.refundStatus[0].refundAmount) else 0;
    var refundReason := if |order.refundStatus| > 0 then order.refundStatus[0].reasonText else "";
    SQLData(order.customerFirstName + " " + order.customerLastName,
            order.addressShipping.phone, order.addressShipping.address1, order.deliveryInfo,
            0.0, order.shippingFee, 0.0, 0.0, order.voucherSeller, order.voucherPlatform,
            order.shippingFeeDiscountSeller, order.price, "MYR", refundAmount, refundReason,
            order.createdAt, order.updatedAt)
  }

  /** A row of `"Order"`, keyed by `(id, company_id)`; `store_id` receives
      the item count. */
  datatype OrderRow = OrderRow(storeId: int, trackingId: string, status: string, itemList: seq<Item>, data: SQLData)

  datatype OrderKey = OrderKey(id: int, companyId: string)

  function StoredRow(order: Order, roundRefund: int -> int): (row: OrderRow)
    requires |order.items| > 0 && |order.statuses| > 0
    ensures row.trackingId == order.items[0].trackingCode && row.status == order.statuses[0]
    ensures row.storeId == order.itemsCount && row.itemList == order.items
  {
    OrderRow(order.itemsCount, order.items[0].trackingCode, order.statuses[0], order.items,
             ConvertOrderToSQLData(order, roundRefund))
  }

  /** The calls of `SaveOrder` that can fail. */
  datatype SaveStep = ExistsCheck | MarshalItems | MarshalData | Insert

  /** `SaveOrder` returns nil (`Done`) both after inserting and after
      finding the order already stored; `IndexPanic` is the panic of
      `Statuses[0]` on an order without statuses. */
  datatype SaveOutcome = Done | Failed(msg: string) | IndexPanic

  function Save(table: map<OrderKey, OrderRow>, order: Order, companyId: string, roundRefund: int -> int,
                saveError: SaveStep -> Option<string>): (SaveOutcome, map<OrderKey, OrderRow>)
  {
    var key := OrderKey(order.orderId, companyId);
    if |order.items| == 0 then (Failed("order has no items"), table)
    else if saveError(ExistsCheck).Some? then (Failed(saveError(ExistsCheck).value), table)
    else if key in table then (Done, table)
    else if saveError(MarshalItems).Some? then (Failed(saveError(MarshalItems).value), table)
    else if saveError(MarshalData).Some? then (Failed(saveError(MarshalData).value), table)
    else if |order.statuses| == 0 then (IndexPanic, table)
    else if saveError(Insert).Some? then (Failed(saveError(Insert).value), table)
    else (Done, table[key := StoredRow(order, roundRefund)])
  }

  /** An order without items is refused before the table is read; an order
      already stored under its key is reported as saved and left alone. */
  lemma SaveGuards(table: map<OrderKey, OrderRow>, order: Order, companyId: string, roundRefund: int -> int,
                   saveError: SaveStep -> Option<string>)
    ensures order.items == [] ==> Save(table, order, companyId, roundRefund, saveError) == (Failed("order has no items"), table)
    ensures order.items != [] && saveError(ExistsCheck).None? && OrderKey(order.orderId, companyId) in table ==>
              Save(table, order, companyId, roundRefund, saveError) == (Done, table)
  {
  }

  /** A save never overwrites or removes a row: it either leaves the table
      as it was or adds exactly the order's row under its new key. */
  lemma SaveOnlyInserts(table: map<OrderKey, OrderRow>, order: Order, companyId: string, roundRefund: int -> int,
                        saveError: SaveStep -> Option<string>)
    ensures var after := Save(table, order, companyId, roundRefund, saveError).1;
            var key := OrderKey(order.orderId, companyId);
            after == table
            || (key !in table && |order.items| > 0 && |order.statuses| > 0
                && after == table[key := StoredRow(order, roundRefund)])
  {
  }

  /** A second save of the same order changes nothing. */
  lemma SaveIdempotent(table: map<OrderKey, OrderRow>, order: Order, companyId: string, roundRefund: int -> int,
                       saveError: SaveStep -> Option<string>)
    ensures var once := Save(table, order, companyId, roundRefund, saveError).1;
            Save(once, order, companyId, roundRefund, saveError).1 == once
  {
  }

  /** The `"Order"` table of the orders service. */
  class OrdersTable {
    var orders: map<OrderKey, OrderRow>

    constructor ()
      ensures orders == map[]
    {
      orders := map[];
    }

    /** `SaveOrder`: insert the order unless a row with its key exists. */
    method SaveOrder(order: Order, companyId: string, roundRefund: int -> int, saveError: SaveStep -> Option<string>)
      returns (outcome: SaveOutcome)
      modifies this
      ensures (outcome, orders) == Save(old(orders), order, companyId, roundRefund, saveError)
    {
      if |order.items| == 0 {
        return Failed("order has no items");
      }
      if saveError(ExistsCheck).Some? {
        return Failed(saveError(ExistsCheck).value);
      }
      var found := OrderKey(order.orderId, companyId) in orders;
      if found {
        return Done;
      }
      if saveError(MarshalItems).Some? {
        return Failed(saveError(MarshalItems).value);
      }
      var sqlData := ConvertOrderToSQLData(order, roundRefund);
      if saveError(MarshalData).Some? {
        return Failed(saveError(MarshalData).value);
      }
      if |order.statuses| == 0 {
        return IndexPanic;
      }
      if saveError(Insert).Some? {
        return Failed(saveError(Insert).value);
      }
      orders := orders[OrderKey(order.orderId, companyId) :=
                       OrderRow(order.itemsCount, order.items[0].trackingCode, order.statuses[0], order.items, sqlData)];
      outcome := Done;
    }
  }
}
