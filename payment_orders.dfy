/** The payment package's orders repository: the record stored in the
    `"Order"` table's `data` column, the upsert that writes it, and the
    rebuilding of orders from the stored rows. */
module PaymentOrders {

  import opened Wrappers
  import opened Text
  import opened OrderModels

  /** The `data` column. */
  datatype SQLData = SQLData(
    orderId: int, customerName: string, customerPhone: string, customerAddress: string, courierService: string,
    transactionFee: real, shippingFee: real, processFee: real, serviceFee: real, sellerDiscount: real,
    platformDiscount: real, shippingFeeDiscountSeller: real, totalPrice: real, currency: string,
    totalReleasedAmount: real, status: seq<string>, refundAmount: int, refundReason: string,
    createdAt: string, systemUpdateTime: string)

  /** `ConvertOrderToSQLData`. The refund comes from the first refund entry,
      if there is one. */
  function ConvertOrderToSQLData(order: Order): (d: SQLData)
    ensures d.orderId == order.orderId
    ensures d.customerName == order.customerFirstName + " " + order.customerLastName
    ensures d.currency == "MYR" && d.transactionFee == 0.0 && d.processFee == 0.0 && d.serviceFee == 0.0
    ensures order.refundStatus == [] ==> d.refundAmount == 0 && d.refundReason == ""
    ensures order.refundStatus != [] ==>
              d.refundAmount == order.refundStatus[0].refundAmount && d.refundReason == order.refundStatus[0].reasonText
  {
    var refundAmount := if |order.refundStatus| > 0 then order.refundStatus[0].refundAmount else 0;
    var refundReason := if |order.refundStatus| > 0 then order.refundStatus[0].reasonText else "";
    SQLData(order.orderId, order.customerFirstName + " " + order.customerLastName,
            order.addressShipping.phone, order.addressShipping.address1, order.deliveryInfo,
            0.0, order.shippingFee, 0.0, 0.0, order.voucherSeller, order.voucherPlatform,
            order.shippingFeeDiscountSeller, order.price, "MYR", order.totalReleasedAmount, order.statuses,
            refundAmount, refundReason, order.createdAt, order.updatedAt)
  }

  // ---- the "Order" table ----

  /** A row of `"Order"`, keyed by `(platform_order_id, company_id)`. The
      `store_id` column receives the order's item count. */
  datatype OrderRow = OrderRow(storeId: int, trackingId: string, status: string, itemList: seq<Item>,
                               data: SQLData, orderDate: string)

  datatype OrderKey = OrderKey(platformOrderId: int, companyId: string)

  /** The row `SaveOrder` writes, by insert or by update alike. */
  function StoredRow(order: Order): (row: OrderRow)
    requires |order.items| > 0 && |order.statuses| > 0
    ensures row.trackingId == order.items[0].trackingCode && row.status == order.statuses[0]
    ensures row.storeId == order.itemsCount && row.itemList == order.items && row.orderDate == order.createdAt
    ensures row.data == ConvertOrderToSQLData(order)
  {
    OrderRow(order.itemsCount, order.items[0].trackingCode, order.statuses[0], order.items,
             ConvertOrderToSQLData(order), order.createdAt)
  }

  /** The calls of `SaveOrder` that can fail. */
  datatype SaveStep = ExistsCheck | MarshalItems | MarshalData | Write

  /** How `SaveOrder` ends: nil, an error, or the index panic of
      `Statuses[0]` on an order without statuses. */
  datatype SaveOutcome = Saved | Failed(msg: string) | IndexPanic

  /** The outcome of `SaveOrder` and the table after it. */
  function Save(table: map<OrderKey, OrderRow>, order: Order, companyId: string,
                saveError: SaveStep -> Option<string>): (SaveOutcome, map<OrderKey, OrderRow>)
  {
    if |order.items| == 0 then (Failed("order has no items"), table)
    else if saveError(ExistsCheck).Some? then (Failed(saveError(ExistsCheck).value), table)
    else if saveError(MarshalItems).Some? then (Failed(saveError(MarshalItems).value), table)
    else if saveError(MarshalData).Some? then (Failed(saveError(MarshalData).value), table)
    else if |order.statuses| == 0 then (IndexPanic, table)
    else if saveError(Write).Some? then (Failed(saveError(Write).value), table)
    else (Saved, table[OrderKey(order.orderId, companyId) := StoredRow(order)])
  }

  /** An order without items is refused before the table is touched; any
      outcome other than `Saved` leaves the table as it was. */
  lemma SaveFailuresChangeNothing(table: map<OrderKey, OrderRow>, order: Order, companyId: string,
                                  saveError: SaveStep -> Option<string>)
    ensures order.items == [] ==> Save(table, order, companyId, saveError) == (Failed("order has no items"), table)
    ensures Save(table, order, companyId, saveError).0 != Saved ==> Save(table, order, companyId, saveError).1 == table
  {
  }

  /** A successful save leaves exactly one row for the order's key, holding
      the order, whether or not the key was there before; every other row
      is as it was. */
  lemma SaveUpserts(table: map<OrderKey, OrderRow>, order: Order, companyId: string,
                    saveError: SaveStep -> Option<string>)
    requires Save(table, order, companyId, saveError).0 == Saved
    ensures var after := Save(table, order, companyId, saveError).1;
            var key := OrderKey(order.orderId, companyId);
            key in after && after[key] == StoredRow(order)
            && after.Keys == table.Keys + {key}
            && forall k :: k in table && k != key ==> after[k] == table[k]
  {
  }

  /** Saving the same order twice leaves the table as saving it once. */
  lemma SaveIdempotent(table: map<OrderKey, OrderRow>, order: Order, companyId: string,
                       saveError: SaveStep -> Option<string>)
    requires Save(table, order, companyId, saveError).0 == Saved
    ensures var once := Save(table, order, companyId, saveError).1;
            Save(once, order, companyId, saveError) == (Saved, once)
  {
    var once := Save(table, order, companyId, saveError).1;
    var key := OrderKey(order.orderId, companyId);
    assert once[key := StoredRow(order)] == once;
  }

  // ---- rebuilding orders from rows ----

  /** The name split of `FetchOrdersByCompanyID`: the first piece of
      `strings.Split(name, " ")` and the remaining pieces joined back with
      spaces (empty when there is only one piece). */
  function SplitName(name: string): (string, string) {
    var names := Split(name, ' ');
    (names[0], if |names| > 1 then Join(names[1..], " ") else "")
  }

  /** Joining a first name without a space and any last name, then
      splitting, gives both names back. */
  lemma SplitJoinedName(first: string, last: string)
    requires ' ' !in first
    ensures SplitName(first + " " + last) == (first, last)
  {
    SplitAfterFirst(first, last, ' ');
    assert first + " " + last == first + [' '] + last;
    var names := Split(first + " " + last, ' ');
    assert names[1..] == Split(last, ' ');
    JoinSplit(last, ' ');
  }

  /** The other direction: a name holding a space splits into two parts
      that join back to it. */
  lemma JoinSplitName(name: string)
    requires ' ' in name
    ensures SplitName(name).0 + " " + SplitName(name).1 == name
  {
    var names := Split(name, ' ');
    JoinSplit(name, ' ');
    SplitPiecesFree(name, ' ');
    if |names| == 1 {
      assert false;
    }
    assert names == [names[0]] + names[1..];
    JoinCons(names[0], names[1..], " ");
  }

  /** The order rebuilt from a stored row: names split from
      `CustomerName`, the full name as the shipping first name, items from
      `item_list`, statuses from the stored array, and one refund entry
      only when the stored refund amount is positive. */
  function Reconstruct(platformOrderId: int, row: OrderRow): Order {
    var d := row.data;
    var (first, last) := SplitName(d.customerName);
    Order(platformOrderId, first, last, Address(d.customerName, d.customerPhone, d.customerAddress),
          d.courierService, d.shippingFee, d.sellerDiscount, d.platformDiscount, d.shippingFeeDiscountSeller,
          d.totalPrice, 0, row.itemList, d.status, d.createdAt, d.systemUpdateTime, d.totalReleasedAmount,
          if d.refundAmount > 0 then [ReturnRefund("", d.refundReason, 0, d.refundAmount)] else [])
  }

  /** What survives a save followed by a fetch: everything but the item
      count, the shipping first name (which becomes the full name) and the
      refund entries (of which only the first survives, reduced to its
      amount and reason, and only when the amount is positive). */
  function Restored(order: Order): Order {
    var refunds := if |order.refundStatus| > 0 && order.refundStatus[0].refundAmount > 0
                   then [ReturnRefund("", order.refundStatus[0].reasonText, 0, order.refundStatus[0].refundAmount)]
                   else [];
    order.(itemsCount := 0,
           addressShipping := order.addressShipping.(firstName := order.customerFirstName + " " + order.customerLastName),
           refundStatus := refunds)
  }

  /** Save then fetch is a round trip up to `Restored`, provided the first
      name holds no space. */
  lemma FetchAfterSave(order: Order)
    requires |order.items| > 0 && |order.statuses| > 0 && ' ' !in order.customerFirstName
    ensures Reconstruct(order.orderId, StoredRow(order)) == Restored(order)
  {
    SplitJoinedName(order.customerFirstName, order.customerLastName);
  }

  // ---- fetching a company's orders ----

  /** The keys of one company's rows. */
  function CompanyKeys(table: map<OrderKey, OrderRow>, companyId: string): set<OrderKey>
  {
    set k | k in table && k.companyId == companyId
  }

  /** The calls of `FetchOrdersByCompanyID` that can fail; the per-row
      steps are keyed by the row they read. */
  datatype FetchStep = Query | Scan(row: OrderKey) | DecodeData(row: OrderKey) | DecodeItems(row: OrderKey) | RowsErr

  /** The first per-row failure of a row, if any: scanning, then decoding
      `data`, then decoding `item_list`. */
  function RowError(fetchError: FetchStep -> Option<string>, k: OrderKey): (e: Option<string>)
    ensures e.None? <==> fetchError(Scan(k)).None? && fetchError(DecodeData(k)).None? && fetchError(DecodeItems(k)).None?
  {
    if fetchError(Scan(k)).Some? then fetchError(Scan(k))
    else if fetchError(DecodeData(k)).Some? then fetchError(DecodeData(k))
    else fetchError(DecodeItems(k))
  }

  /** The orders rebuilt from the rows under `ks`, in that order. */
  function Rebuilt(table: map<OrderKey, OrderRow>, ks: seq<OrderKey>): (r: seq<Order>)
    requires forall i :: 0 <= i < |ks| ==> ks[i] in table
    ensures |r| == |ks|
  {
    seq(|ks|, i requires 0 <= i < |ks| => Reconstruct(ks[i].platformOrderId, table[ks[i]]))
  }

  /** `ks` lists each key of `keys` exactly once. */
  ghost predicate Enumerates(ks: seq<OrderKey>, keys: set<OrderKey>) {
    (forall i, j :: 0 <= i < j < |ks| ==> ks[i] != ks[j])
    && (forall i :: 0 <= i < |ks| ==> ks[i] in keys)
    && (forall k :: k in keys ==> k in ks)
  }

  /** The result lists the company's orders, one per row, in some order;
      it is a nil slice exactly when the company has no rows. */
  ghost predicate ListsCompanyOrders(r: GoSlice<Order>, table: map<OrderKey, OrderRow>, companyId: string) {
    (r.Nil? <==> CompanyKeys(table, companyId) == {})
    && exists ks :: Enumerates(ks, CompanyKeys(table, companyId)) && r.Elems() == Rebuilt(table, ks)
  }

  /** Every row of the company appears, rebuilt, in a listing of its
      orders. */
  lemma ListedKey(r: GoSlice<Order>, table: map<OrderKey, OrderRow>, companyId: string, key: OrderKey)
    requires ListsCompanyOrders(r, table, companyId)
    requires key in table && key.companyId == companyId
    ensures Reconstruct(key.platformOrderId, table[key]) in r.Elems()
  {
    var ks :| Enumerates(ks, CompanyKeys(table, companyId)) && r.Elems() == Rebuilt(table, ks);
    assert key in CompanyKeys(table, companyId);
    var i :| 0 <= i < |ks| && ks[i] == key;
    assert r.Elems()[i] == Reconstruct(key.platformOrderId, table[key]);
  }

  /** After a successful save, listing the company's orders includes the
      saved order, restored as `Restored` describes. */
  lemma SavedOrderIsListed(table: map<OrderKey, OrderRow>, order: Order, companyId: string,
                           saveError: SaveStep -> Option<string>, r: GoSlice<Order>)
    requires Save(table, order, companyId, saveError).0 == Saved
    requires ' ' !in order.customerFirstName
    requires ListsCompanyOrders(r, Save(table, order, companyId, saveError).1, companyId)
    ensures Restored(order) in r.Elems()
  {
    var after := Save(table, order, companyId, saveError).1;
    var key := OrderKey(order.orderId, companyId);
    SaveUpserts(table, order, companyId, saveError);
    ListedKey(r, after, companyId, key);
    FetchAfterSave(order);
  }

  /** Rebuilding one more row appends its order. */
  lemma RebuiltStep(table: map<OrderKey, OrderRow>, ks: seq<OrderKey>, k: OrderKey)
    requires forall i :: 0 <= i < |ks| ==> ks[i] in table
    requires k in table
    ensures Rebuilt(table, ks + [k]) == Rebuilt(table, ks) + [Reconstruct(k.platformOrderId, table[k])]
  {
  }

  /** Loop bookkeeping: the keys seen so far, each once, and the keys
      still to read, together make up `keys`. */
  ghost predicate Visiting(visited: seq<OrderKey>, remaining: set<OrderKey>, keys: set<OrderKey>) {
    remaining <= keys
    && (forall k :: k in visited ==> k in keys && k !in remaining)
    && (forall k :: k in keys ==> k in visited || k in remaining)
    && (forall i, j :: 0 <= i < j < |visited| ==> visited[i] != visited[j])
  }

  lemma VisitingStep(visited: seq<OrderKey>, remaining: set<OrderKey>, keys: set<OrderKey>, k: OrderKey)
    requires Visiting(visited, remaining, keys) && k in remaining
    ensures Visiting(visited + [k], remaining - {k}, keys)
  {
  }

  lemma VisitingDone(visited: seq<OrderKey>, keys: set<OrderKey>)
    requires Visiting(visited, {}, keys)
    ensures Enumerates(visited, keys)
    ensures visited == [] <==> keys == {}
  {
    if visited != [] {
      assert visited[0] in keys;
    }
  }

  /** The `"Order"` table of the payment service. */
  class OrdersTable {
    var orders: map<OrderKey, OrderRow>

    constructor ()
      ensures orders == map[]
    {
      orders := map[];
    }

    /** `SaveOrder`: insert the order's row, or update the row already
        stored under its key. */
    method SaveOrder(order: Order, companyId: string, saveError: SaveStep -> Option<string>) returns (outcome: SaveOutcome)
      modifies this
      ensures (outcome, orders) == Save(old(orders), order, companyId, saveError)
    {
      if |order.items| == 0 {
        return Failed("order has no items");
      }
      if saveError(ExistsCheck).Some? {
        return Failed(saveError(ExistsCheck).value);
      }
      if saveError(MarshalItems).Some? {
        return Failed(saveError(MarshalItems).value);
      }
      var sqlData := ConvertOrderToSQLData(order);
      if saveError(MarshalData).Some? {
        return Failed(saveError(MarshalData).value);
      }
      if |order.statuses| == 0 {
        return IndexPanic;
      }
      if saveError(Write).Some? {
        return Failed(saveError(Write).value);
      }
      // the UPDATE of an existing row and the INSERT of a new one write the same columns
      orders := orders[OrderKey(order.orderId, companyId) :=
                       OrderRow(order.itemsCount, order.items[0].trackingCode, order.statuses[0], order.items,
                                sqlData, order.createdAt)];
      outcome := Saved;
    }

    /** `FetchOrdersByCompanyID`: rebuild every order of the company; the
        first failing row, or a failure of the query or of the iteration,
        fails the whole call. */
    method FetchOrdersByCompanyID(companyId: string, fetchError: FetchStep -> Option<string>)
      returns (r: Result<GoSlice<Order>>)
      ensures fetchError(Query).Some? ==> r == Err(fetchError(Query).value)
      ensures r.Ok? <==> fetchError(Query).None? && fetchError(RowsErr).None?
                         && forall k :: k in CompanyKeys(orders, companyId) ==> RowError(fetchError, k).None?
      ensures r.Err? && fetchError(Query).None? ==>
                fetchError(RowsErr) == Some(r.msg)
                || exists k :: k in CompanyKeys(orders, companyId) && RowError(fetchError, k) == Some(r.msg)
      ensures r.Ok? ==> ListsCompanyOrders(r.value, orders, companyId)
    {
      if fetchError(Query).Some? {
        return Err(fetchError(Query).value);
      }
      var keys := CompanyKeys(orders, companyId);
      var remaining := keys;
      ghost var visited: seq<OrderKey> := [];
      var result: GoSlice<Order> := Nil;
      while remaining != {}
        invariant Visiting(visited, remaining, keys)
        invariant forall k :: k in visited ==> RowError(fetchError, k).None?
        invariant result.Nil? <==> visited == []
        invariant forall i :: 0 <= i < |visited| ==> visited[i] in orders
        invariant result.Elems() == Rebuilt(orders, visited)
        decreases |remaining|
      {
        if forall k :: k !in remaining {
          assert false;
        }
        var k :| k in remaining;
        if fetchError(Scan(k)).Some? {
          return Err(fetchError(Scan(k)).value);
        }
        if fetchError(DecodeData(k)).Some? {
          return Err(fetchError(DecodeData(k)).value);
        }
        if fetchError(DecodeItems(k)).Some? {
          return Err(fetchError(DecodeItems(k)).value);
        }
        var order := Reconstruct(k.platformOrderId, orders[k]);
        RebuiltStep(orders, visited, k);
        VisitingStep(visited, remaining, keys, k);
        result := Slice(result.Elems() + [order]);
        visited := visited + [k];
        remaining := remaining - {k};
      }
      if fetchError(RowsErr).Some? {
        return Err(fetchError(RowsErr).value);
      }
      VisitingDone(visited, keys);
      return Ok(result);
    }
  }
}
