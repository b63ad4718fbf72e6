/** The orders package's services: `GetItemList`, which flattens the
    item-list response, and `GetOrders`, which attaches the fetched items to
    the fetched orders by order id. */
module OrdersService {

  import opened Wrappers
  import opened Text
  import opened Seqs
  import opened OrderModels
  import opened ItemList

  /** `GetItemList`: the repository's error with a nil list, or all inner
      item lists appended in order to an empty non-nil list. */
  method GetItemList(ids: seq<string>, execute: string -> Result<string>, decode: string -> Option<seq<OrderItem>>)
    returns (items: GoSlice<Item>, err: Option<string>)
    ensures var fetched := FetchItemList(ids, execute, decode);
            (fetched.Err? ==> items == Nil && err == Some(fetched.msg))
            && (fetched.Ok? ==> err == None && items == Slice(Concat(ItemLists(fetched.value))))
  {
    var fetched := FetchItemList(ids, execute, decode);
    if fetched.Err? {
      return Nil, Some(fetched.msg);
    }
    var flat := Flatten(ItemLists(fetched.value));
    return Slice(flat), None;
  }

  /** The ids handed to the item service: each order id rendered with
      `%d`, in order. */
  function OrderIds(orders: seq<Order>): seq<string>
  {
    seq(|orders|, i requires 0 <= i < |orders| => IntToDecimal(orders[i].orderId))
  }

  /** Each rendered id reads back as its order's id, so distinct orders
      never share an id string. */
  lemma OrderIdsReadBack(orders: seq<Order>, i: int)
    requires 0 <= i < |orders|
    ensures ParseInt(OrderIds(orders)[i]) == Some(orders[i].orderId)
  {
    IntToDecimalRoundTrip(orders[i].orderId);
  }

  /** The items, in order, that belong to order `id`. */
  function MatchingItems(items: seq<Item>, id: int): seq<Item> {
    if items == [] then []
    else MatchingItems(items[..|items| - 1], id) + (if items[|items| - 1].orderId == id then [items[|items| - 1]] else [])
  }

  lemma {:induction false} MatchingItemsMembers(items: seq<Item>, id: int, x: Item)
    ensures x in MatchingItems(items, id) <==> x in items && x.orderId == id
  {
    if items != [] {
      MatchingItemsMembers(items[..|items| - 1], id, x);
      assert items == items[..|items| - 1] + [items[|items| - 1]];
    }
  }

  /** Matching keeps the fetched order: the items of a concatenation are
      those of its first part followed by those of its second. */
  lemma {:induction false} MatchingItemsAppend(a: seq<Item>, b: seq<Item>, id: int)
    ensures MatchingItems(a + b, id) == MatchingItems(a, id) + MatchingItems(b, id)
  {
    if b == [] {
      assert a + b == a;
    } else {
      var init := b[..|b| - 1];
      assert (a + b)[..|a + b| - 1] == a + init;
      assert (a + b)[|a + b| - 1] == b[|b| - 1];
      MatchingItemsAppend(a, init, id);
    }
  }

  /** Each fetched item of the order is matched as many times as it was
      fetched, and no other item is matched at all. */
  lemma {:induction false} MatchingItemsCount(items: seq<Item>, id: int, x: Item)
    ensures multiset(MatchingItems(items, id))[x] == if x.orderId == id then multiset(items)[x] else 0
  {
    if items != [] {
      var init, last := items[..|items| - 1], items[|items| - 1];
      MatchingItemsCount(init, id, x);
      assert items == init + [last];
      assert multiset(items) == multiset(init) + multiset{last};
    }
  }

  /** The orders with their matching items appended. */
  function Attached(orders: seq<Order>, items: seq<Item>): (r: seq<Order>)
    ensures |r| == |orders|
  {
    seq(|orders|, i requires 0 <= i < |orders| =>
      orders[i].(items := orders[i].items + MatchingItems(items, orders[i].orderId)))
  }

  /** Attaching keeps the number and order of the orders and every field but
      the item list, and extends each item list by exactly the fetched items
      of that order. */
  lemma AttachedOrders(orders: seq<Order>, items: seq<Item>, i: int, x: Item)
    requires 0 <= i < |orders|
    ensures Attached(orders, items)[i].(items := orders[i].items) == orders[i]
    ensures Attached(orders, items)[i].items[..|orders[i].items|] == orders[i].items
    ensures x in Attached(orders, items)[i].items[|orders[i].items|..] <==> x in items && x.orderId == orders[i].orderId
    ensures multiset(Attached(orders, items)[i].items[|orders[i].items|..])[x]
            == if x.orderId == orders[i].orderId then multiset(items)[x] else 0
  {
    var extended := Attached(orders, items)[i].items;
    assert extended[|orders[i].items|..] == MatchingItems(items, orders[i].orderId);
    MatchingItemsMembers(items, orders[i].orderId, x);
    MatchingItemsCount(items, orders[i].orderId, x);
  }

  /** The nested loop of `GetOrders` that appends each fetched item to
      every order with its id. */
  method AttachItems(orders: seq<Order>, items: seq<Item>) returns (r: seq<Order>)
    ensures r == Attached(orders, items)
  {
    r := orders;
    for i := 0 to |orders|
      invariant |r| == |orders|
      invariant forall j :: 0 <= j < i ==> r[j] == Attached(orders, items)[j]
      invariant forall j :: i <= j < |orders| ==> r[j] == orders[j]
    {
      var id := orders[i].orderId;
      for k := 0 to |items|
        invariant |r| == |orders|
        invariant r[i] == orders[i].(items := orders[i].items + MatchingItems(items[..k], id))
        invariant forall j :: 0 <= j < i ==> r[j] == Attached(orders, items)[j]
        invariant forall j :: i < j < |orders| ==> r[j] == orders[j]
      {
        assert items[..k + 1][..k] == items[..k];
        if items[k].orderId == id {
          r := r[i := r[i].(items := r[i].items + [items[k]])];
        }
      }
      assert items[..|items|] == items;
    }
  }

  /** `GetOrders`: the upstream error unchanged with a nil list; no orders
      give `(nil, nil)` without asking for items; otherwise the items of all
      orders are fetched with their rendered ids and attached. */
  method GetOrders(upstream: Result<seq<Order>>, execute: string -> Result<string>,
                   decode: string -> Option<seq<OrderItem>>)
    returns (r: GoSlice<Order>, err: Option<string>)
    ensures upstream.Err? ==> r == Nil && err == Some(upstream.msg)
    ensures upstream == Ok([]) ==> r == Nil && err == None
    ensures upstream.Ok? && upstream.value != [] ==>
              var fetched := FetchItemList(OrderIds(upstream.value), execute, decode);
              (fetched.Err? ==> r == Nil && err == Some(fetched.msg))
              && (fetched.Ok? ==> err == None && r == Slice(Attached(upstream.value, Concat(ItemLists(fetched.value)))))
  {
    if upstream.Err? {
      return Nil, Some(upstream.msg);
    }
    var orders := upstream.value;
    if |orders| == 0 {
      return Nil, None;
    }
    var ids: seq<string> := [];
    for i := 0 to |orders|
      invariant ids == OrderIds(orders[..i])
    {
      ids := ids + [IntToDecimal(orders[i].orderId)];
    }
    assert orders[..|orders|] == orders;
    var items, itemErr := GetItemList(ids, execute, decode);
    if itemErr.Some? {
      return Nil, itemErr;
    }
    var attached := AttachItems(orders, items.Elems());
    return Slice(attached), None;
  }
}
