/** The payment service's `GetOrders` HTTP handler: validates the company id
    and the sort direction, pages through the marketplace's orders, saves
    each one (padding an item-less order with a placeholder item), then asks
    the item-list service for the orders' items in batches of 50 ids. The
    marketplace, the save and the item-list call are function parameters. */
module OrdersHandler {

  import opened Wrappers
  import opened Text
  import opened Seqs
  import opened OrderModels
  import opened Pagination
  import OrdersService

  const DefaultCreatedAfter: string := "2024-02-01T22:44:30+08:00"
  /** Orders asked for per call (the API's maximum). */
  const PageLimit: int := 100
  /** Orders gathered at most. */
  const TotalLimit: nat := 100
  const BatchSize: nat := 50

  /** The arguments of one call to the upstream orders service. */
  datatype OrdersQuery = OrdersQuery(
    createdAfter: string, createdBefore: string, offset: int, limit: int, status: string, sortDirection: string)

  /** The JSON body and status the handler answers with: 400, 500 with an
      error, or 200 with the orders. */
  datatype Response =
    | BadRequest(message: string)
    | Failure(message: string, error: string)
    | OrdersList(countTotal: int, count: int, orders: seq<Order>)

  /** The `sort_direction` query parameter: empty means "DESC", "ASC" and
      "DESC" are kept, anything else is rejected (`None`). */
  function SortDirection(param: string): (r: Option<string>)
    ensures r.Some? ==> r.value == "ASC" || r.value == "DESC"
    ensures param == "" ==> r == Some("DESC")
    ensures param != "" ==> (r.Some? <==> param == "ASC" || param == "DESC")
    ensures param != "" && r.Some? ==> r.value == param
  {
    if param == "" then Some("DESC")
    else if param == "ASC" || param == "DESC" then Some(param)
    else None
  }

  /** The `created_after` query parameter, defaulted when empty. */
  function CreatedAfter(param: string): (r: string)
    ensures r != ""
    ensures param != "" ==> r == param
  {
    if param == "" then DefaultCreatedAfter else param
  }

  /** The upstream call for a given offset, the other arguments fixed. */
  function OrdersFetch(fetch: OrdersQuery -> Result<Page<Order>>, createdAfter: string, createdBefore: string,
                       status: string, sortDirection: string): int -> Result<Page<Order>>
  {
    offset => fetch(OrdersQuery(createdAfter, createdBefore, offset, PageLimit, status, sortDirection))
  }

  // ---- placeholder padding and the save loop ----

  const Placeholder: Item := Item(0, "No Item", "")

  /** The copy of an order handed to the save: an order without items gets
      the single placeholder item; nothing else changes. */
  function Padded(o: Order): (p: Order)
    ensures |p.items| >= 1
    ensures p.(items := o.items) == o
    ensures o.items != [] ==> p.items == o.items
    ensures o.items == [] ==> p.items == [Placeholder]
  {
    if |o.items| == 0 then o.(items := o.items + [Placeholder]) else o
  }

  function PaddedAll(orders: seq<Order>): (r: seq<Order>)
    ensures |r| == |orders|
    ensures forall k :: 0 <= k < |orders| ==> r[k] == Padded(orders[k]) && |r[k].items| >= 1
  {
    seq(|orders|, k requires 0 <= k < |orders| => Padded(orders[k]))
  }

  /** Saving the padded copy of an order for the company. */
  function SavePadded(save: (Order, string) -> Option<string>, companyId: string): Order -> Option<string> {
    o => save(Padded(o), companyId)
  }

  /** The save loop's answer: the padded copies of the orders up to and
      including the first whose save failed, with that save's error, or
      every order padded and no error when none failed. */
  ghost predicate SavedUpToFirstError(orders: seq<Order>, companyId: string, save: (Order, string) -> Option<string>,
                                      attempted: seq<Order>, err: Option<string>) {
    var outcomes := Outcomes(orders, SavePadded(save, companyId));
    match FirstError(outcomes)
    case Some(k) => attempted == PaddedAll(orders[..k + 1]) && err == outcomes[k]
    case None => attempted == PaddedAll(orders) && err.None?
  }

  /** The save loop: each order, padded, is saved in turn; the first
      failure stops the loop. Returns the copies handed to the save. */
  method SaveAll(orders: seq<Order>, companyId: string, save: (Order, string) -> Option<string>)
    returns (attempted: seq<Order>, err: Option<string>)
    ensures SavedUpToFirstError(orders, companyId, save, attempted, err)
  {
    attempted := [];
    for i := 0 to |orders|
      invariant attempted == PaddedAll(orders[..i])
      invariant forall k :: 0 <= k < i ==> SavePadded(save, companyId)(orders[k]).None?
    {
      var order := orders[i];
      if |order.items| == 0 {
        order := order.(items := order.items + [Placeholder]);
      }
      assert order == Padded(orders[i]);
      var e := save(order, companyId);
      assert SavePadded(save, companyId)(orders[i]) == e;
      attempted := attempted + [order];
      assert orders[..i + 1] == orders[..i] + [orders[i]];
      if e.Some? {
        StoppedAt(orders, SavePadded(save, companyId), i + 1);
        return attempted, e;
      }
    }
    assert orders[..|orders|] == orders;
    NoneFailed(orders, SavePadded(save, companyId));
    err := None;
  }

  // ---- batches of 50 ids ----

  /** Consecutive slices of at most 50 elements covering the list in order;
      all but the last hold exactly 50. */
  function Chunks<T>(xs: seq<T>): seq<seq<T>>
    decreases |xs|
  {
    if xs == [] then []
    else if |xs| <= BatchSize then [xs]
    else [xs[..BatchSize]] + Chunks(xs[BatchSize..])
  }

  /** Batch sizes: between 1 and 50, all but the last exactly 50, and as
      many batches as 50-element groups needed to hold the list. */
  lemma {:induction false} ChunksSizes<T>(xs: seq<T>)
    ensures forall i :: 0 <= i < |Chunks(xs)| ==> 1 <= |Chunks(xs)[i]| <= BatchSize
    ensures forall i :: 0 <= i < |Chunks(xs)| - 1 ==> |Chunks(xs)[i]| == BatchSize
    ensures |Chunks(xs)| == (|xs| + BatchSize - 1) / BatchSize
    decreases |xs|
  {
    if |xs| > BatchSize {
      var rest := xs[BatchSize..];
      ChunksSizes(rest);
      assert Chunks(xs) == [xs[..BatchSize]] + Chunks(rest);
      forall i | 1 <= i < |Chunks(xs)|
        ensures Chunks(xs)[i] == Chunks(rest)[i - 1]
      {
      }
    }
  }

  /** The batches cover the list exactly once, in order. */
  lemma {:induction false} ChunksConcat<T>(xs: seq<T>)
    ensures Concat(Chunks(xs)) == xs
    decreases |xs|
  {
    if xs == [] {
    } else if |xs| <= BatchSize {
      ConcatCons(xs, []);
    } else {
      ChunksConcat(xs[BatchSize..]);
      ConcatCons(xs[..BatchSize], Chunks(xs[BatchSize..]));
      assert xs[..BatchSize] + xs[BatchSize..] == xs;
    }
  }

  /** The k-th batch starts at index 50·k. */
  lemma {:induction false} ChunkAt<T>(xs: seq<T>, k: nat)
    requires k < |Chunks(xs)|
    ensures k * BatchSize < |xs|
    ensures Chunks(xs)[k] == xs[k * BatchSize .. if (k + 1) * BatchSize <= |xs| then (k + 1) * BatchSize else |xs|]
    decreases |xs|
  {
    if k > 0 {
      var rest := xs[BatchSize..];
      ChunkAt(rest, k - 1);
      assert rest[(k - 1) * BatchSize .. if k * BatchSize <= |rest| then k * BatchSize else |rest|]
          == xs[k * BatchSize .. if (k + 1) * BatchSize <= |xs| then (k + 1) * BatchSize else |xs|];
    }
  }

  /** What the batch loop still has to send once its index is `i`. */
  function Rest<T>(xs: seq<T>, i: nat): seq<T> {
    if i <= |xs| then xs[i..] else []
  }

  lemma ChunksStep<T>(xs: seq<T>, i: nat, end: nat)
    requires i < |xs| && end == (if i + BatchSize > |xs| then |xs| else i + BatchSize)
    ensures Chunks(Rest(xs, i)) == [xs[i..end]] + Chunks(Rest(xs, i + BatchSize))
  {
    var rest := xs[i..];
    if |rest| <= BatchSize {
      assert rest == xs[i..end];
      assert Rest(xs, i + BatchSize) == [];
    } else {
      assert rest[..BatchSize] == xs[i..end];
      assert rest[BatchSize..] == Rest(xs, i + BatchSize);
    }
  }

  /** The loop's state: `sent` followed by what is left is the whole batch
      list, and every batch sent so far succeeded. */
  ghost predicate SentSoFar(ids: seq<string>, itemList: seq<string> -> Option<string>, sent: seq<seq<string>>, i: nat) {
    sent + Chunks(Rest(ids, i)) == Chunks(ids)
    && forall k :: 0 <= k < |sent| ==> itemList(sent[k]).None?
  }

  /** The batch at index `i` is the next one of the batch list. */
  lemma NextChunk<T>(xs: seq<T>, done: seq<seq<T>>, i: nat, end: nat)
    requires done + Chunks(Rest(xs, i)) == Chunks(xs)
    requires i < |xs| && end == (if i + BatchSize > |xs| then |xs| else i + BatchSize)
    ensures (done + [xs[i..end]]) + Chunks(Rest(xs, i + BatchSize)) == Chunks(xs)
    ensures |done| < |Chunks(xs)| && Chunks(xs)[..|done| + 1] == done + [xs[i..end]]
  {
    ChunksStep(xs, i, end);
    var rest := Chunks(Rest(xs, i + BatchSize));
    assert done + ([xs[i..end]] + rest) == (done + [xs[i..end]]) + rest;
  }

  /** Sending the batch at index `i` keeps the loop's state. */
  lemma SendStep(ids: seq<string>, itemList: seq<string> -> Option<string>, sent: seq<seq<string>>, i: nat, end: nat)
    requires SentSoFar(ids, itemList, sent, i)
    requires i < |ids| && end == (if i + BatchSize > |ids| then |ids| else i + BatchSize)
    ensures |sent| < |Chunks(ids)| && Chunks(ids)[..|sent| + 1] == sent + [ids[i..end]]
    ensures itemList(ids[i..end]).None? ==> SentSoFar(ids, itemList, sent + [ids[i..end]], i + BatchSize)
  {
    NextChunk(ids, sent, i, end);
    var next := sent + [ids[i..end]];
    assert forall k :: 0 <= k < |sent| ==> next[k] == sent[k];
  }

  /** The batch loop's answer: the batches up to and including the first
      whose call failed, with that call's error, or every batch and no
      error when none failed. */
  ghost predicate SentUpToFirstError(ids: seq<string>, itemList: seq<string> -> Option<string>,
                                     sent: seq<seq<string>>, err: Option<string>) {
    var outcomes := Outcomes(Chunks(ids), itemList);
    match FirstError(outcomes)
    case Some(j) => sent == Chunks(ids)[..j + 1] && err == outcomes[j]
    case None => sent == Chunks(ids) && err.None?
  }

  /** The loop's answer when the last batch sent failed. */
  lemma SendStopped(ids: seq<string>, itemList: seq<string> -> Option<string>, sent: seq<seq<string>>, err: Option<string>)
    requires 0 < |sent| <= |Chunks(ids)| && Chunks(ids)[..|sent|] == sent
    requires forall k :: 0 <= k < |sent| - 1 ==> itemList(sent[k]).None?
    requires err == itemList(sent[|sent| - 1]) && err.Some?
    ensures SentUpToFirstError(ids, itemList, sent, err)
  {
    StoppedAt(Chunks(ids), itemList, |sent|);
  }

  /** The loop's answer when every batch was sent and succeeded. */
  lemma SendDone(ids: seq<string>, itemList: seq<string> -> Option<string>, sent: seq<seq<string>>, i: nat)
    requires SentSoFar(ids, itemList, sent, i) && i >= |ids|
    ensures SentUpToFirstError(ids, itemList, sent, None)
  {
    assert Rest(ids, i) == [];
    assert sent == Chunks(ids);
    NoneFailed(Chunks(ids), itemList);
  }

  /** The batch loop `for i := 0; i < len(ids); i += 50`: each batch goes to
      the item-list call; the first failure stops the loop. Returns the
      batches sent. */
  method SendBatches(ids: seq<string>, itemList: seq<string> -> Option<string>)
    returns (sent: seq<seq<string>>, err: Option<string>)
    ensures SentUpToFirstError(ids, itemList, sent, err)
  {
    sent := [];
    var i := 0;
    while i < |ids|
      invariant SentSoFar(ids, itemList, sent, i)
      decreases |ids| - i
    {
      var end := i + BatchSize;
      if end > |ids| {
        end := |ids|;
      }
      var batch := ids[i..end];
      var e := itemList(batch);
      SendStep(ids, itemList, sent, i, end);
      sent := sent + [batch];
      if e.Some? {
        SendStopped(ids, itemList, sent, e);
        return sent, e;
      }
      i := i + BatchSize;
    }
    SendDone(ids, itemList, sent, i);
    err := None;
  }

  // ---- the handler ----

  /** The handler's answer once the pages are in: 500 on a fetch error;
      an empty list when nothing came back; otherwise the save loop over the
      padded orders, then the batch loop over their ids, each stopping the
      handler with 500 at its first failure; the success answer reports the
      count of the last page fetched and the unpadded orders. */
  ghost predicate AfterFetch(pages: Result<Page<Order>>, companyId: string, save: (Order, string) -> Option<string>,
                             itemList: seq<string> -> Option<string>,
                             resp: Response, attempted: seq<Order>, batches: seq<seq<string>>)
  {
    match pages
    case Err(e) => resp == Failure("Failed to retrieve orders", e) && attempted == [] && batches == []
    case Ok(page) =>
      if page.items == [] then resp == OrdersList(0, 0, []) && attempted == [] && batches == []
      else
        var saves := Outcomes(page.items, SavePadded(save, companyId));
        match FirstError(saves)
        case Some(k) =>
          attempted == PaddedAll(page.items[..k + 1]) && batches == []
          && resp == Failure("Failed to save order with ID " + IntToDecimal(page.items[k].orderId), saves[k].value)
        case None =>
          var chunks := Chunks(OrdersService.OrderIds(page.items));
          var sends := Outcomes(chunks, itemList);
          attempted == PaddedAll(page.items)
          && match FirstError(sends)
             case Some(j) => batches == chunks[..j + 1] && resp == Failure("Failed to retrieve item lists", sends[j].value)
             case None => batches == chunks && resp == OrdersList(page.count, |page.items|, page.items)
  }

  /** The handler after the pages are in. */
  method Respond(pages: Result<Page<Order>>, companyId: string, save: (Order, string) -> Option<string>,
                 itemList: seq<string> -> Option<string>)
    returns (resp: Response, attempted: seq<Order>, batches: seq<seq<string>>)
    ensures AfterFetch(pages, companyId, save, itemList, resp, attempted, batches)
    ensures resp.OrdersList? ==> resp.count == |resp.orders| && (resp.orders == [] || (pages.Ok? && resp.orders == pages.value.items))
    ensures forall k :: 0 <= k < |attempted| ==> |attempted[k].items| >= 1
  {
    attempted, batches := [], [];
    if pages.Err? {
      return Failure("Failed to retrieve orders", pages.msg), attempted, batches;
    }
    var allOrders := pages.value.items;
    if |allOrders| == 0 {
      return OrdersList(0, 0, []), attempted, batches;
    }
    var saveErr;
    attempted, saveErr := SaveAll(allOrders, companyId, save);
    if saveErr.Some? {
      var failed := attempted[|attempted| - 1];
      return Failure("Failed to save order with ID " + IntToDecimal(failed.orderId), saveErr.value), attempted, batches;
    }
    var orderIds := OrdersService.OrderIds(allOrders);
    var batchErr;
    batches, batchErr := SendBatches(orderIds, itemList);
    if batchErr.Some? {
      return Failure("Failed to retrieve item lists", batchErr.value), attempted, batches;
    }
    resp := OrdersList(pages.value.count, |allOrders|, allOrders);
  }

  /** `GetOrders`. Returns the answer, the order copies handed to the save,
      and the id batches handed to the item-list call. */
  method GetOrders(companyId: string, status: string, createdAfterParam: string, createdBefore: string, sortParam: string,
                   fetch: OrdersQuery -> Result<Page<Order>>, save: (Order, string) -> Option<string>,
                   itemList: seq<string> -> Option<string>)
    returns (resp: Response, attempted: seq<Order>, batches: seq<seq<string>>)
    ensures companyId == "" ==> resp == BadRequest("Company ID is required") && attempted == [] && batches == []
    ensures companyId != "" && SortDirection(sortParam).None? ==>
              resp == BadRequest("sort_direction must be either ASC or DESC") && attempted == [] && batches == []
    ensures companyId != "" && SortDirection(sortParam).Some? ==>
              AfterFetch(Paginate(OrdersFetch(fetch, CreatedAfter(createdAfterParam), createdBefore, status, SortDirection(sortParam).value),
                                  PageLimit, TotalLimit, 0, [], 0),
                         companyId, save, itemList, resp, attempted, batches)
    ensures resp.OrdersList? ==> resp.count == |resp.orders| <= TotalLimit
    ensures forall k :: 0 <= k < |attempted| ==> |attempted[k].items| >= 1
  {
    if companyId == "" {
      return BadRequest("Company ID is required"), [], [];
    }
    var createdAfter := CreatedAfter(createdAfterParam);
    var sortDirection := SortDirection(sortParam);
    if sortDirection.None? {
      return BadRequest("sort_direction must be either ASC or DESC"), [], [];
    }
    var query := OrdersFetch(fetch, createdAfter, createdBefore, status, sortDirection.value);
    var pages := FetchAllPages(query, PageLimit, TotalLimit);
    PaginateBound(query, PageLimit, TotalLimit, 0, [], 0);
    resp, attempted, batches := Respond(pages, companyId, save, itemList);
  }
}
