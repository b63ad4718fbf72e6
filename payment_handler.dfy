/** The payment service's transaction and payout HTTP handlers: paging
    through the finance transactions up to a cap, listing payouts, and
    listing payouts with their transactions attached. The marketplace
    calls behind the payment service are function parameters. */
module PaymentHandler {

  import opened Wrappers
  import opened Seqs
  import opened Pagination
  import PaymentService

  type Transaction = PaymentService.Transaction
  type Payout = PaymentService.Payout

  /** Transactions asked for per call. */
  const TransactionsLimit: int := 500
  /** Transactions gathered at most. */
  const TransactionsCap: nat := 5000
  const TransactionsStart: string := "2024-12-01T22:44:30+08:00"
  const TransactionsEnd: string := "2025-2-20T22:44:30+08:00"
  const DefaultPayoutsCreatedAfter: string := "2024-10-01T22:44:30+08:00"
  const DefaultPayoutCreatedAfter: string := "2024-10-15T22:44:30+08:00"
  const PayoutTransactionsStart: string := "2024-10-10T22:44:30+08:00"
  const PayoutTransactionsEnd: string := "2024-10-30T22:44:30+08:00"

  /** The arguments of one transactions query. */
  datatype TransactionsQuery = TransactionsQuery(startTime: string, endTime: string, orderId: string, offset: int, limit: int)

  /** The repository's answer to a transactions query: an error, no
      response, or a (possibly nil) list. */
  type FetchTransactions = TransactionsQuery -> Result<Option<GoSlice<Transaction>>>
  /** The repository's answer to a payouts query by creation date. */
  type FetchPayouts = string -> Result<Option<GoSlice<Payout>>>

  datatype TransactionsResponse =
    | TransactionsFailure(message: string, error: string)
    | NoTransactions(message: string)
    | TransactionList(transactions: seq<Transaction>)

  datatype PayoutsResponse =
    | PayoutsFailure(message: string, error: string)
    | NoPayouts(message: string)
    | PayoutList(payouts: seq<Payout>)

  /** The transactions page at an offset, through the payment service's
      normalisation; the service reports no total count. */
  function TransactionsPage(repo: FetchTransactions, orderId: string): int -> Result<Page<Transaction>> {
    offset =>
      match PaymentService.GetTransactions(repo(TransactionsQuery(TransactionsStart, TransactionsEnd, orderId, offset, TransactionsLimit)))
      case Err(e) => Err(e)
      case Ok(list) => Ok(Page(list.Elems(), 0))
  }

  /** `GetTransactions`: pages through the transactions of `orderId` (the
      `order_id` query parameter) until an empty page or 5000 entries;
      500 on a fetch error, a message when nothing came back. */
  method GetTransactions(orderId: string, repo: FetchTransactions) returns (resp: TransactionsResponse)
    ensures var all := Paginate(TransactionsPage(repo, orderId), TransactionsLimit, TransactionsCap, 0, [], 0);
            && (all.Err? ==> resp == TransactionsFailure("Failed to retrieve transactions", all.msg))
            && (all.Ok? && all.value.items == [] ==> resp == NoTransactions("No transactions found"))
            && (all.Ok? && all.value.items != [] ==> resp == TransactionList(all.value.items))
    ensures resp.TransactionList? ==> 0 < |resp.transactions| <= TransactionsCap
  {
    var page := TransactionsPage(repo, orderId);
    var all := FetchAllPages(page, TransactionsLimit, TransactionsCap);
    PaginateBound(page, TransactionsLimit, TransactionsCap, 0, [], 0);
    if all.Err? {
      return TransactionsFailure("Failed to retrieve transactions", all.msg);
    }
    if |all.value.items| == 0 {
      return NoTransactions("No transactions found");
    }
    resp := TransactionList(all.value.items);
  }

  /** The gathered transactions are n consecutive non-empty pages at offsets
      0, 500, 1000, ..., cut to at most 5000 entries; the loop stopped at
      the cap or at the empty page that followed. */
  lemma TransactionsPaged(orderId: string, repo: FetchTransactions)
    ensures var page := TransactionsPage(repo, orderId);
            var all := Paginate(page, TransactionsLimit, TransactionsCap, 0, [], 0);
            all.Ok? ==> exists n: nat ::
              FullPages(page, 0, TransactionsLimit, n)
              && all.value.items <= Concat(Pages(page, 0, TransactionsLimit, n))
              && |all.value.items| <= TransactionsCap
              && (|all.value.items| == TransactionsCap
                  || (page(n * TransactionsLimit).Ok? && page(n * TransactionsLimit).value.items == []
                      && all.value.items == Concat(Pages(page, 0, TransactionsLimit, n))))
  {
    PaginatePrefix(TransactionsPage(repo, orderId), TransactionsLimit, TransactionsCap);
  }

  /** `GetPayouts`: the payouts created after `created_after` (defaulted),
      500 on an error, a message when there are none. */
  function GetPayouts(createdAfterParam: string, repo: FetchPayouts): (resp: PayoutsResponse)
    ensures var fetched := repo(if createdAfterParam == "" then DefaultPayoutsCreatedAfter else createdAfterParam);
            && (fetched.Err? <==> resp.PayoutsFailure?)
            && (fetched.Err? ==> resp == PayoutsFailure("Failed to retrieve orders", fetched.msg))
            && (fetched.Ok? && (fetched.value.None? || fetched.value.value.Elems() == []) ==> resp == NoPayouts("No orders found"))
            && (fetched.Ok? && fetched.value.Some? && fetched.value.value.Elems() != [] ==> resp == PayoutList(fetched.value.value.Elems()))
  {
    var createdAfter := if createdAfterParam == "" then DefaultPayoutsCreatedAfter else createdAfterParam;
    match PaymentService.GetPayouts(repo(createdAfter))
    case Err(e) => PayoutsFailure("Failed to retrieve orders", e)
    case Ok(payouts) =>
      if |payouts.Elems()| == 0 then NoPayouts("No orders found") else PayoutList(payouts.Elems())
  }

  /** The single transactions query of `GetTransactionsByPayout`. */
  const PayoutTransactionsQuery: TransactionsQuery :=
    TransactionsQuery(PayoutTransactionsStart, PayoutTransactionsEnd, "", 0, TransactionsLimit)

  /** The transactions to attach: those of the query, or none when the
      query failed (the error is only logged). */
  function PayoutTransactions(repo: FetchTransactions): (ts: seq<Transaction>)
    ensures repo(PayoutTransactionsQuery).Err? ==> ts == []
    ensures repo(PayoutTransactionsQuery) == Ok(None) ==> ts == []
    ensures repo(PayoutTransactionsQuery).Ok? && repo(PayoutTransactionsQuery).value.Some? ==>
              ts == repo(PayoutTransactionsQuery).value.value.Elems()
  {
    match PaymentService.GetTransactions(repo(PayoutTransactionsQuery))
    case Err(_) => []
    case Ok(list) => list.Elems()
  }

  /** No transactions leave a payout as it was. */
  lemma AssignedNothing(p: Payout)
    ensures PaymentService.Assigned(p, []) == p
  {
    assert PaymentService.Matching([], PaymentService.ExtractDateFromStatementNumber(p.statementNumber)) == [];
    assert p.transactions + [] == p.transactions;
  }

  /** `GetTransactionsByPayout`: the payouts (as `GetPayouts`, with its own
      default date), each with the transactions of one query attached by
      statement key; a failed transactions query attaches nothing. */
  method GetTransactionsByPayout(createdAfterParam: string, payoutsRepo: FetchPayouts, transactionsRepo: FetchTransactions)
    returns (resp: PayoutsResponse)
    ensures var listed := GetPayouts(if createdAfterParam == "" then DefaultPayoutCreatedAfter else createdAfterParam, payoutsRepo);
            && (!listed.PayoutList? ==> resp == listed)
            && (listed.PayoutList? ==>
                  resp.PayoutList? && |resp.payouts| == |listed.payouts|
                  && (forall i :: 0 <= i < |listed.payouts| ==>
                        resp.payouts[i] == PaymentService.Assigned(listed.payouts[i], PayoutTransactions(transactionsRepo))))
    ensures resp.PayoutList? && transactionsRepo(PayoutTransactionsQuery).Err? ==>
              resp == GetPayouts(if createdAfterParam == "" then DefaultPayoutCreatedAfter else createdAfterParam, payoutsRepo)
  {
    var createdAfter := createdAfterParam;
    if createdAfter == "" {
      createdAfter := DefaultPayoutCreatedAfter;
    }
    var listed := GetPayouts(createdAfter, payoutsRepo);
    if !listed.PayoutList? {
      return listed;
    }
    var payouts := listed.payouts;
    var transactions := PayoutTransactions(transactionsRepo);
    var response := new Payout[|payouts|](i requires 0 <= i < |payouts| => payouts[i]);
    PaymentService.AssignPaymentDataToPayout(response, transactions);
    resp := PayoutList(response[..]);
    if transactionsRepo(PayoutTransactionsQuery).Err? {
      forall i | 0 <= i < |payouts| ensures response[i] == payouts[i] {
        AssignedNothing(payouts[i]);
      }
      assert response[..] == payouts;
    }
  }
}
