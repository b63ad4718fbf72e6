/** The orders package's `FetchItemList`: the `order_ids` parameter built
    from the order ids, and the outcome of the marketplace call, which is
    given as functions of that parameter. */
module ItemList {

  import opened Wrappers
  import opened Text
  import opened OrderModels

  /** `"[" + strings.Join(orderIDs, ",") + "]"`; a single id `x` is sent
      as `"[x]"`. */
  function OrderIdsParam(ids: seq<string>): (p: string)
    ensures |p| >= 2 && p[0] == '[' && p[|p| - 1] == ']'
    ensures |ids| == 1 ==> p == "[" + ids[0] + "]"
  {
    "[" + Join(ids, ",") + "]"
  }

  /** The text between the brackets. */
  function Inner(p: string): string
    requires |p| >= 2
  {
    p[1..|p| - 1]
  }

  /** n ids without commas put exactly n - 1 commas into the parameter. */
  lemma OrderIdsParamCommas(ids: seq<string>)
    requires |ids| > 0
    requires forall i :: 0 <= i < |ids| ==> ',' !in ids[i]
    ensures CountChar(OrderIdsParam(ids), ',') == |ids| - 1
  {
    forall i | 0 <= i < |ids|
      ensures CountChar(ids[i], ',') == 0
    {
      CountCharAbsent(ids[i], ',');
    }
    JoinSeparatorCount(ids, ',');
    assert OrderIdsParam(ids) == "[" + Join(ids, [',']) + "]";
    CountCharAppend("[", Join(ids, [',']), ',');
    CountCharAppend("[" + Join(ids, [',']), "]", ',');
    CountCharAbsent("[", ',');
    CountCharAbsent("]", ',');
  }

  /** Ids without commas can be read back from the parameter: splitting
      the text between the brackets at the commas gives the ids. */
  lemma OrderIdsParamRoundTrip(ids: seq<string>)
    requires |ids| > 0
    requires forall i :: 0 <= i < |ids| ==> ',' !in ids[i]
    ensures Split(Inner(OrderIdsParam(ids)), ',') == ids
  {
    assert Inner(OrderIdsParam(ids)) == Join(ids, [',']);
    SplitJoin(ids, ',');
  }

  /** `FetchItemList`. `execute` is the marketplace call for a given
      `order_ids` parameter (its error, or the raw response), `decode` the
      JSON decoding of a response. */
  function FetchItemList(ids: seq<string>, execute: string -> Result<string>,
                         decode: string -> Option<seq<OrderItem>>): (r: Result<seq<OrderItem>>)
    ensures ids == [] ==> r == Err("no order IDs provided")
    ensures ids != [] && execute(OrderIdsParam(ids)).Err? ==> r == Err(execute(OrderIdsParam(ids)).msg)
    ensures ids != [] && execute(OrderIdsParam(ids)).Ok? && decode(execute(OrderIdsParam(ids)).value).None? ==>
              r == Err("failed to parse item list")
    ensures r.Ok? ==> ids != [] && execute(OrderIdsParam(ids)).Ok?
                      && decode(execute(OrderIdsParam(ids)).value) == Some(r.value)
  {
    if |ids| == 0 then Err("no order IDs provided")
    else
      var resp := execute(OrderIdsParam(ids));
      if resp.Err? then Err(resp.msg)
      else match decode(resp.value)
        case None => Err("failed to parse item list")
        case Some(items) => Ok(items)
  }
}
