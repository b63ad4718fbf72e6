/** The payment package's list services: `GetItemList` flattens the
    item-list response and `ProcessReturn` flattens the reverse order lines
    of a return response. The repository calls behind them are given as
    their results. */
module PaymentLists {

  import opened Wrappers
  import opened Seqs
  import opened OrderModels

  /** `GetItemList`: the repository's error with a nil list, or the inner
      item lists appended in order to an empty non-nil list. */
  method GetItemList(fetched: Result<seq<OrderItem>>) returns (items: GoSlice<Item>, err: Option<string>)
    ensures fetched.Err? ==> items == Nil && err == Some(fetched.msg)
    ensures fetched.Ok? ==> err == None && items == Slice(Concat(ItemLists(fetched.value)))
  {
    if fetched.Err? {
      return Nil, Some(fetched.msg);
    }
    var flat := Flatten(ItemLists(fetched.value));
    return Slice(flat), None;
  }

  /** The flattened list holds exactly the items of the response, in order,
      and as many as the inner lists together; no elements give an empty
      list. */
  lemma ItemListShape(fetched: seq<OrderItem>, x: Item)
    ensures |Concat(ItemLists(fetched))| == TotalLength(ItemLists(fetched))
    ensures x in Concat(ItemLists(fetched)) <==> exists i :: 0 <= i < |fetched| && x in fetched[i].orderItems
    ensures fetched == [] ==> Concat(ItemLists(fetched)) == []
  {
    var parts := ItemLists(fetched);
    assert |parts| == |fetched| && forall i :: 0 <= i < |fetched| ==> parts[i] == fetched[i].orderItems;
    ConcatLength(parts);
    ConcatMembers(parts, x);
  }

  datatype ReturnItem = ReturnItem(reverseOrderLines: seq<ReturnRefund>)

  /** A page of the return response. */
  datatype ReturnData = ReturnData(total: int, success: bool, pageNo: int, items: seq<ReturnItem>)

  function LineLists(items: seq<ReturnItem>): seq<seq<ReturnRefund>>
  {
    seq(|items|, i requires 0 <= i < |items| => items[i].reverseOrderLines)
  }

  /** `ProcessReturn`: the repository's error with a nil list, or every
      item's reverse order lines appended in order. */
  method ProcessReturn(fetched: Result<ReturnData>) returns (lines: GoSlice<ReturnRefund>, err: Option<string>)
    ensures fetched.Err? ==> lines == Nil && err == Some(fetched.msg)
    ensures fetched.Ok? ==> err == None && lines == Slice(Concat(LineLists(fetched.value.items)))
  {
    if fetched.Err? {
      return Nil, Some(fetched.msg);
    }
    var flat := Flatten(LineLists(fetched.value.items));
    return Slice(flat), None;
  }

  /** Only the items matter: the page header (`Total`, `Success`,
      `PageNo`) does not change the lines, and their number is the sum of
      the per-item counts. */
  lemma ReturnLinesShape(data: ReturnData, total: int, success: bool, pageNo: int, x: ReturnRefund)
    ensures LineLists(data.(total := total, success := success, pageNo := pageNo).items) == LineLists(data.items)
    ensures |Concat(LineLists(data.items))| == TotalLength(LineLists(data.items))
    ensures x in Concat(LineLists(data.items)) <==>
              exists i :: 0 <= i < |data.items| && x in data.items[i].reverseOrderLines
  {
    var parts := LineLists(data.items);
    assert |parts| == |data.items| && forall i :: 0 <= i < |data.items| ==> parts[i] == data.items[i].reverseOrderLines;
    ConcatLength(parts);
    ConcatMembers(parts, x);
  }
}
