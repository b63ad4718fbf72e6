# Marketplace integration backend — a verified Dafny model

This project models the core of a Go backend that connects companies' Lazada
shops to their own stock and accounting records. The model covers:

- Lazada request signing: building the signed string from sorted parameters and encoding the HMAC as upper-case hex.
- Payment matching: the statement-date keys of transactions and payouts, and attaching each transaction to its payout.
- SKU mapping: splitting Lazada products into mapped and unmapped halves against a set of SKUs.
- The repositories:
  - orders, with insert-only saves;
  - payment orders, with upserts and reconstruction from stored rows;
  - products, with batch insert and duplicate detection, grouped listing and deletion by SKU;
  - stores, with store and token upserts and expiry deactivation.
- The payment HTTP handlers: capped pagination of orders and transactions, padding empty orders, and item-list batches of 50.
- The item-list services: the `order_ids` parameter, and flattening item and return-line lists.
- The gateway handlers that publish requests on the message broker and poll for a reply until a deadline.

Each Go file of the core has its own Dafny module in its own file:

| Dafny file | Go file |
|---|---|
| `lazada_sign.dfy` | `sdk/lazada-sign.go` |
| `payment_service.dfy` | `internal/payment/services/payment.go` |
| `products_service.dfy` | `internal/products/services/products.go` |
| `lazada_products.dfy` | `internal/products/services/lazada.go` |
| `products_repository.dfy` | `internal/products/repositories/products.go` |
| `payment_orders.dfy` | `internal/payment/repositories/orders.go` |
| `orders_repository.dfy` | `internal/orders/repositories/orders.go` |
| `stores_repository.dfy` | `internal/stores/repositories/stores.go` |
| `orders_service.dfy` | `internal/orders/services/orders.go` and `internal/orders/services/itemlist.go` |
| `orders_handler.dfy` | `internal/payment/handlers/orders.go` |
| `payment_handler.dfy` | `internal/payment/handlers/payment.go` |
| `pagination.dfy` | the page-gathering loop shared by both payment handlers |
| `gateway.dfy` | `internal/middleware/handlers/request.go` |
| `item_list.dfy` | `internal/orders/repositories/itemlist.go` |
| `payment_lists.dfy` | `internal/payment/services/itemlist.go` and `internal/payment/services/return.go` |
| `order_models.dfy`, `product_models.dfy` | the records under `internal/*/models` |
| `wrappers.dfy`, `text.dfy`, `seqs.dfy` | `Option`/`Result`, Go's `strconv`/`strings` helpers, sequence helpers |

How the Go code is turned into Dafny:

- Imperative Go becomes methods with loops.
  - Each loop is proved against a recursive specification function.
  - The properties the code promises are lemmas about that function.
- Each database table becomes a class.
  - Its rows are a `map` field when the code looks rows up by key, and a `seq` field when it scans them in order.
  - Each repository method names the fields it changes.
  - A database failure is chosen by a fault parameter that says which step fails, and with which message.
- A Go slice that can be `nil` is a `GoSlice` (`Nil` or `Slice(s)`), so a `nil` result stays distinct from an empty one.
- The broker is modelled only as the sequence of its fetch outcomes.
- The clock is modelled as a timestamp argument plus a budget of ticks.
- HMAC-SHA256, JSON encoding and the Lazada SDK's calls are function parameters.

## Model

| member | source | states |
|---|---|---|
| ItemList.OrderIdsParam | internal/orders/repositories/itemlist.go:38-39 | the `order_ids` parameter is bracketed, and a single id `x` is sent as `[x]` |
| ItemList.OrderIdsParamCommas | internal/orders/repositories/itemlist.go:39 | n comma-free ids put exactly n - 1 commas into the parameter |
| ItemList.OrderIdsParamRoundTrip | internal/orders/repositories/itemlist.go:39 | splitting the bracket contents on commas gives the ids back |
| ItemList.FetchItemList | internal/orders/repositories/itemlist.go:28-59 | no ids: "no order IDs provided"; a call error is passed through; an undecodable body: "failed to parse item list"; success only with the decoded body of the call made with the bracketed id list |
| OrdersService.GetItemList | internal/orders/services/itemlist.go:20-32 | a repository error gives a nil list and that error; otherwise the items of every element (`ItemLists`), concatenated in order |
| OrdersService.OrderIdsReadBack | internal/orders/services/orders.go:38 | the ids sent (`OrderIds`, one decimal string per order, in order) each parse back to their order's id |
| OrdersService.MatchingItemsMembers | internal/orders/services/orders.go:49-53 | an item is attached to an order exactly when its order id matches |
| OrdersService.Attached | internal/orders/services/orders.go:48-54 | as many orders come out as went in |
| OrdersService.MatchingItemsAppend | internal/orders/services/orders.go:49-53 | matching keeps the fetched order: the matches of two lists in a row are those of the first, then those of the second |
| OrdersService.MatchingItemsCount | internal/orders/services/orders.go:49-53 | an item of the order is matched as often as it was fetched, any other item never |
| OrdersService.AttachedOrders | internal/orders/services/orders.go:48-54 | only the items change; the old items stay first; the appended items are exactly the fetched items with that order's id, each as often as it was fetched |
| OrdersService.AttachItems | internal/orders/services/orders.go:48-54 | the nested loop computes `Attached` |
| OrdersService.GetOrders | internal/orders/services/orders.go:24-58 | a fetch error gives nil and the error; no orders gives nil and no error; an item-list error gives nil and that error; otherwise the orders with their items attached |
| OrdersRepository.ConvertOrderToSQLData | internal/orders/repositories/orders.go:109-138 | customer name is first + " " + last; currency "MYR"; zero fees; refund amount and reason from the first refund status, or 0 and "" without one; phone, address and times copied |
| OrdersRepository.StoredRow | internal/orders/repositories/orders.go:101 | the inserted row takes the first item's tracking code, the first status, the item count as store id and the item list |
| OrdersRepository.SaveGuards | internal/orders/repositories/orders.go:65-80 | an order without items is refused with "order has no items"; an order already stored for the company is skipped without error |
| OrdersRepository.SaveOnlyInserts | internal/orders/repositories/orders.go:64-107 | a save leaves the table as it was or adds exactly the new key with the stored row; existing rows are never overwritten |
| OrdersRepository.SaveIdempotent | internal/orders/repositories/orders.go:64-107 | saving the same order twice changes the table no more than saving it once |
| OrdersRepository.OrdersTable.constructor | internal/orders/repositories/orders.go:26-28 | a new repository starts with an empty table |
| OrdersRepository.OrdersTable.SaveOrder | internal/orders/repositories/orders.go:64-107 | the outcome and the new table are those of `Save` on the old table |
| PaymentOrders.ConvertOrderToSQLData | internal/payment/repositories/orders.go:123-156 | the `data` record keeps the order id; customer name is first + " " + last; currency "MYR"; zero fees; refund amount and reason from the first refund status, or 0 and "" without one |
| PaymentOrders.StoredRow | internal/payment/repositories/orders.go:107-112 | the written row takes the first item's tracking code, the first status, the item count as store id, the item list, the creation time as order date and the converted record |
| PaymentOrders.SaveFailuresChangeNothing | internal/payment/repositories/orders.go:79-121 | an order without items is refused with "order has no items"; any failed save leaves the table unchanged |
| PaymentOrders.SaveUpserts | internal/payment/repositories/orders.go:105-113 | a successful save stores the new row under (order id, company) whether it existed or not, and leaves every other row as it was |
| PaymentOrders.SaveIdempotent | internal/payment/repositories/orders.go:79-121 | repeating a successful save succeeds again and changes nothing |
| PaymentOrders.SplitJoinedName | internal/payment/repositories/orders.go:207-214 | a first name without a space and any last name are recovered from the stored full name |
| PaymentOrders.JoinSplitName | internal/payment/repositories/orders.go:207-214 | a stored name holding a space splits into two parts that join back to it |
| PaymentOrders.FetchAfterSave | internal/payment/repositories/orders.go:107-112 | a saved order read back is the order itself except for the item count, the shipping first name and the refund entries beyond what is stored |
| PaymentOrders.RowError | internal/payment/repositories/orders.go:182-205 | a row is read without error exactly when its scan and both JSON decodes succeed |
| PaymentOrders.Rebuilt | internal/payment/repositories/orders.go:172-239 | one order per row visited |
| PaymentOrders.ListedKey | internal/payment/repositories/orders.go:158-247 | every row of the company (`CompanyKeys`) appears, rebuilt, in a successful listing |
| PaymentOrders.SavedOrderIsListed | internal/payment/repositories/orders.go:79-247 | after a successful save, a listing of the company contains the saved order as read back |
| PaymentOrders.RebuiltStep | internal/payment/repositories/orders.go:238 | visiting one more row appends its rebuilt order |
| PaymentOrders.VisitingStep | internal/payment/repositories/orders.go:172 | visiting a not-yet-visited row keeps the rows visited and the rows left apart |
| PaymentOrders.VisitingDone | internal/payment/repositories/orders.go:172-246 | when no row is left every row of the company (`CompanyKeys`) was visited once; no rows means a nil result |
| PaymentOrders.OrdersTable.constructor | internal/payment/repositories/orders.go:27-29 | a new repository starts with an empty table |
| PaymentOrders.OrdersTable.SaveOrder | internal/payment/repositories/orders.go:79-121 | the outcome and the new table are those of `Save` on the old table |
| PaymentOrders.OrdersTable.FetchOrdersByCompanyID | internal/payment/repositories/orders.go:158-247 | a query error is returned as is; success exactly when the query, every row and the row iteration succeed; an error is the iteration's or some row's; on success the result lists every company row rebuilt, once each |
| PaymentLists.GetItemList | internal/payment/services/itemlist.go:20-32 | a repository error gives a nil list and that error; otherwise the items of every element (`ItemLists`), concatenated in order |
| PaymentLists.ItemListShape | internal/payment/services/itemlist.go:26-29 | the result's length is the total of the item counts, an item is in it exactly when some element holds it (`ItemLists`), and no elements give an empty (non-nil) list |
| PaymentLists.ProcessReturn | internal/payment/services/return.go:20-32 | a repository error gives a nil list and that error; otherwise the reverse order lines of every item, concatenated in order |
| PaymentLists.ReturnLinesShape | internal/payment/services/return.go:26-29 | the result depends only on the items, its length is the total line count and a line is in it exactly when some item holds it (`LineLists`) |
| PaymentService.SeparatorFrom | internal/payment/services/payment.go:171 | the first `" - "` at or after a position, or none at all |
| PaymentService.FirstField | internal/payment/services/payment.go:171-177 | the first piece of splitting on `" - "`: the whole statement, or the prefix before the first separator, with no separator inside |
| PaymentService.LookupMonthFrom | internal/payment/services/payment.go:178 | a month abbreviation, matched without regard to case, is found exactly when it names a month |
| PaymentService.StripSpaces | internal/payment/services/payment.go:178 | a suffix of the input with its leading spaces removed |
| PaymentService.ParseDay | internal/payment/services/payment.go:178 | a day of one or two digits, followed by the rest of the text |
| PaymentService.ParseMonth | internal/payment/services/payment.go:178 | a month number 1..12 taken from the first three characters |
| PaymentService.ParseYear | internal/payment/services/payment.go:178 | a four-digit year |
| PaymentService.ParseStatementDate | internal/payment/services/payment.go:178 | a parsed date is a real calendar date |
| PaymentService.Pad2 | internal/payment/services/payment.go:184 | two digits |
| PaymentService.Pad4 | internal/payment/services/payment.go:184 | four digits |
| PaymentService.ExtractDateFromStatement | internal/payment/services/payment.go:169-185 | the result is "" exactly when the first field is not a date, and otherwise has the `2006-0102` shape |
| PaymentService.DateKeyShaped | internal/payment/services/payment.go:184 | a formatted date has four digits, a dash and four digits |
| PaymentService.FindKeyFrom | internal/payment/services/payment.go:189-190 | the leftmost `\d{4}-\d{4}` match at or after a position, or "" when there is none |
| PaymentService.ExtractDateFromStatementNumber | internal/payment/services/payment.go:187-196 | "" exactly when the number holds no `\d{4}-\d{4}`; otherwise the leftmost such match |
| PaymentService.MatchIsKeyShaped | internal/payment/services/payment.go:189-195 | a regular-expression match has the same shape as a formatted statement date |
| PaymentService.StatementUsesFirstDate | internal/payment/services/payment.go:171-177 | only the part before the first `" - "` is parsed |
| PaymentService.MonthNameLetters | internal/payment/services/payment.go:178 | the month abbreviations are three letters |
| PaymentService.MonthNamesDistinct | internal/payment/services/payment.go:178 | no two month abbreviations match each other, even ignoring case |
| PaymentService.LookupRenderedMonth | internal/payment/services/payment.go:178 | every month abbreviation is looked up to its own month |
| PaymentService.StripOneSpace | internal/payment/services/payment.go:178 | the single space of the layout is consumed |
| PaymentService.ParseRenderedDay | internal/payment/services/payment.go:178 | a day written in decimal parses back |
| PaymentService.ParseRenderedMonth | internal/payment/services/payment.go:178 | a month abbreviation parses back |
| PaymentService.ParseRenderedYear | internal/payment/services/payment.go:178 | a four-digit year parses back |
| PaymentService.ParseRenderedDate | internal/payment/services/payment.go:178 | every valid date written in the `2 Jan 2006` layout parses back to itself |
| PaymentService.StatementKeyOfRenderedDate | internal/payment/services/payment.go:169-185 | a statement whose first field is a date yields that date's `2006-0102` key, whatever follows |
| PaymentService.ExampleYear | internal/payment/services/payment.go:184 | the year 2024 is written "2024" |
| PaymentService.ExampleDate | internal/payment/services/payment.go:146 | 21 Oct 2024 is valid, is written "21 Oct 2024" and has key "2024-1021" |
| PaymentService.DocumentedStatement | internal/payment/services/payment.go:146 | the documented transaction statement yields "2024-1021" |
| PaymentService.LeftmostMatch | internal/payment/services/payment.go:189-190 | the leftmost match is the one returned |
| PaymentService.DocumentedStatementNumber | internal/payment/services/payment.go:147 | the documented payout statement number yields "2024-1021" |
| PaymentService.DocumentedPairLinks | internal/payment/services/payment.go:144-148 | the documented statement and statement number produce the same key, so they are linked |
| PaymentService.UnmatchedGoNowhere | internal/payment/services/payment.go:152-164 | a transaction whose statement has no date is never assigned; a payout whose number has no match gets nothing |
| PaymentService.AssignedFromGrouping | internal/payment/services/payment.go:150-164 | a payout gains exactly the transactions grouped under its key, in order, or nothing when the key is absent |
| PaymentService.AssignPaymentDataToPayout | internal/payment/services/payment.go:143-166 | every payout in the array becomes `Assigned` to the transactions, and nothing else changes |
| PaymentService.AssignedGainsOnlyMatches | internal/payment/services/payment.go:143-166 | every transaction a payout gains is one of the transactions and has the payout's key |
| PaymentService.GetTransactions | internal/payment/services/payment.go:49-64 | an error is passed through; a missing or empty response gives an empty non-nil list; otherwise the transactions |
| PaymentService.GetPayouts | internal/payment/services/payment.go:67-80 | an error is passed through; a missing or empty response gives an empty non-nil list; otherwise the payouts |
| Pagination.OffsetOfLinear | internal/payment/handlers/orders.go:73 | the n-th fetch is made at offset + n * limit |
| Pagination.Pages | internal/payment/handlers/orders.go:57-79 | one page of items per fetch |
| Pagination.FullPagesCons | internal/payment/handlers/orders.go:68-73 | a non-empty page followed by n non-empty pages makes n + 1 non-empty pages |
| Pagination.PagesCons | internal/payment/handlers/orders.go:72-73 | appending one page and moving the offset on is the same as gathering one more page |
| Pagination.ShapeStep | internal/payment/handlers/orders.go:57-79 | one iteration of the loop keeps the shape of the final outcome |
| Pagination.PaginateShape | internal/payment/handlers/orders.go:57-79 | the loop ends after n non-empty pages in one of three ways: the cap is reached and the items are cut to it with the last count, an empty page ends it with that page's count, or a fetch error is returned |
| Pagination.PaginatePrefix | internal/payment/handlers/payment.go:35-56 | a successful result is a prefix of the concatenated non-empty pages, at most the cap long, and is either exactly the cap long or all pages up to the first empty one |
| Pagination.PaginateBound | internal/payment/handlers/orders.go:75-77 | a successful result never exceeds the cap |
| Pagination.FetchAllPages | internal/payment/handlers/orders.go:51-79 | the while loop computes `Paginate` from offset 0 with nothing gathered |
| OrdersHandler.SortDirection | internal/payment/handlers/orders.go:42-49 | empty means "DESC"; "ASC" and "DESC" are kept; anything else is refused |
| OrdersHandler.CreatedAfter | internal/payment/handlers/orders.go:36-39 | a given lower bound is kept; an empty one is replaced by a non-empty default |
| OrdersHandler.Padded | internal/payment/handlers/orders.go:90-97 | only the items change; an order without items gets the single "No Item" placeholder, any other order is unchanged |
| OrdersHandler.PaddedAll | internal/payment/handlers/orders.go:90-97 | every order is padded and has at least one item |
| OrdersHandler.SaveAll | internal/payment/handlers/orders.go:90-106 | the padded orders are saved in order up to and including the first failure, whose error is returned; with no failure all are saved |
| OrdersHandler.ChunksSizes | internal/payment/handlers/orders.go:114-119 | batches hold 1 to 50 ids, all but the last exactly 50, and there are ceil(n / 50) of them |
| OrdersHandler.ChunksConcat | internal/payment/handlers/orders.go:114-119 | the batches together are the ids, in order |
| OrdersHandler.ChunkAt | internal/payment/handlers/orders.go:114-119 | batch k is ids[50k .. min(50k + 50, n)] |
| OrdersHandler.ChunksStep | internal/payment/handlers/orders.go:114-119 | the batches from i are the batch at i followed by the batches from i + 50 |
| OrdersHandler.NextChunk | internal/payment/handlers/orders.go:114-119 | the batches sent so far plus the next one are a prefix of all batches |
| OrdersHandler.SendStep | internal/payment/handlers/orders.go:114-129 | a successful batch call extends the prefix of batches sent |
| OrdersHandler.SendStopped | internal/payment/handlers/orders.go:123-128 | a failing batch call ends the loop at the first failing batch with its error |
| OrdersHandler.SendDone | internal/payment/handlers/orders.go:114-129 | when every batch call succeeded all batches were sent |
| OrdersHandler.SendBatches | internal/payment/handlers/orders.go:113-129 | the batches are sent in order up to and including the first failing one, whose error is returned; with no failure all are sent |
| OrdersHandler.Respond | internal/payment/handlers/orders.go:59-142 | a fetch error gives "Failed to retrieve orders"; no orders gives an empty list with zero counts; a save failure gives "Failed to save order with ID" and the id; a batch failure gives "Failed to retrieve item lists"; otherwise the fetched orders, unpadded, with their count and the reported total |
| OrdersHandler.GetOrders | internal/payment/handlers/orders.go:27-143 | no company id: "Company ID is required"; a bad sort direction: "sort_direction must be either ASC or DESC"; otherwise `Respond` on the paginated fetch with the defaulted parameters; at most 100 orders; every saved order has an item |
| PaymentHandler.GetTransactions | internal/payment/handlers/payment.go:24-64 | a fetch error gives "Failed to retrieve transactions"; nothing gathered gives "No transactions found"; otherwise the gathered transactions, 1 to 5000 of them |
| PaymentHandler.TransactionsPaged | internal/payment/handlers/payment.go:29-56 | the transactions returned are the first of the pages of 500 fetched at offsets 0, 500, …, cut at 5000 or ended by an empty page |
| PaymentHandler.GetPayouts | internal/payment/handlers/payment.go:99-124 | the default lower bound replaces an empty one; a service error gives "Failed to retrieve orders"; no payouts gives "No orders found"; otherwise the payouts |
| PaymentHandler.PayoutTransactions | internal/payment/handlers/payment.go:211-225 | a failed transaction fetch or a missing response contributes no transactions; otherwise the fetched ones |
| PaymentHandler.AssignedNothing | internal/payment/handlers/payment.go:218-228 | assigning no transactions leaves a payout unchanged |
| PaymentHandler.GetTransactionsByPayout | internal/payment/handlers/payment.go:180-231 | with the later default date, a payout error or no payouts is answered like `GetPayouts`; otherwise every payout is assigned the transactions of the fixed window; a failed transaction fetch leaves the payouts as listed |
| Gateway.PageOrDefault | internal/middleware/handlers/request.go:63-65 | a page below 1 becomes 1; any other page is kept |
| Gateway.LimitOrDefault | internal/middleware/handlers/request.go:66-68 | a limit below 1 becomes 20; any other limit is kept |
| Gateway.RequestId | internal/middleware/handlers/request.go:71 | a request id starts with "req-" and has a timestamp after it |
| Gateway.RequestIdReadBack | internal/middleware/handlers/request.go:71 | the timestamp can be read back from the request id, so distinct timestamps give distinct ids |
| Gateway.RequestSubject | internal/middleware/handlers/request.go:89 | the request subject is the topic, ".request." and the action |
| Gateway.ResponseSubject | internal/middleware/handlers/request.go:96 | the response subject is the topic followed by ".response.*" |
| Gateway.Durable | internal/middleware/handlers/request.go:96 | the consumer name is the topic followed by "-replies" |
| Gateway.SubjectsDistinct | internal/middleware/handlers/request.go:89-96 | a request is never published on the response subject, and different actions get different request subjects |
| Gateway.Decide | internal/middleware/handlers/request.go:112-125 | a message with a valid body is relayed, an invalid body gives 500 "Invalid response format", a fetch error (strict handlers) gives 500 "Failed to fetch response"; the lenient handlers acknowledge every message they take |
| Gateway.AwaitTimeout | internal/middleware/handlers/request.go:102-106 | with no decisive fetch before the deadline the answer is 504 with the handler's timeout text |
| Gateway.AwaitFirst | internal/middleware/handlers/request.go:107-125 | the first decisive fetch before the deadline decides the answer |
| Gateway.AwaitOutcome | internal/middleware/handlers/request.go:102-127 | with nothing decisive before the deadline the answer is 504 with the handler's timeout text; otherwise the first decisive fetch decides |
| Gateway.LenientWaitEndsOnlyOnMessage | internal/middleware/handlers/request.go:108-111 | a lenient handler ends only on a timeout or on a message it fetched |
| Gateway.FirstDecisiveExists | internal/middleware/handlers/request.go:103-127 | any decisive fetch before the deadline has a first decisive fetch at or before it |
| Gateway.StrictWaitStopsOnError | internal/middleware/handlers/request.go:175-180 | in the strict handlers the first fetch error ends the wait with 500 "Failed to fetch response" and no acknowledgement |
| Gateway.ForeignReplyRelayed | internal/middleware/handlers/request.go:108-125 | the reply relayed need not carry the request's id: the first message on the shared subject is answered |
| Gateway.Poll | internal/middleware/handlers/request.go:102-127 | the polling loop computes `Await` |
| Gateway.Exchange | internal/middleware/handlers/request.go:88-127 | a publish failure gives 500 "Failed to publish request" with nothing subscribed; a subscribe failure gives 500 "Failed to subscribe for response"; otherwise the wait decides, and the trace records the publication and subscription made |
| Gateway.HandleGetRequest | internal/middleware/handlers/request.go:50-128 | publishes the query with the parsed company id, the request id and the defaulted page and limit on the method's subject, then waits leniently |
| Gateway.LinkStore | internal/middleware/handlers/request.go:131-195 | a missing code gives 400 "Authorization code is required" and talks to nobody; otherwise the link request goes to "linkstore" and the wait is strict |
| Gateway.GetStore | internal/middleware/handlers/request.go:197-251 | the store query goes to "getstore" and the wait is strict |
| Gateway.Stamped | internal/middleware/handlers/request.go:269-270 | the body keeps every other field and gains `company_id` and `request_id` |
| Gateway.PostObject | internal/middleware/handlers/request.go:253-316 | an unbindable body gives 400 with the handler's message and talks to nobody; otherwise the stamped body is published and the wait is lenient |
| Gateway.PostSQLItems | internal/middleware/handlers/request.go:253-316 | `PostObject` with "postsqlitem" and "Invalid response payload" |
| Gateway.DeleteProduct | internal/middleware/handlers/request.go:386-447 | `PostObject` with "deleteproduct" and "Invalid request payload" |
| Gateway.DeleteProductsBatch | internal/middleware/handlers/request.go:449-511 | `PostObject` with "deleteproductsbatch" and "Invalid request payload" |
| Gateway.StampedAll | internal/middleware/handlers/request.go:334-337 | every element is stamped, so each carries the company id and the request id |
| Gateway.StampEach | internal/middleware/handlers/request.go:334-337 | the loop stamps every element of the array in place |
| Gateway.PostProducts | internal/middleware/handlers/request.go:318-384 | an unbindable body gives 400 "Invalid response payload"; otherwise every element is stamped, the list goes to "insertproducts" and a timeout answers "aTimeout waiting for response" |
| LazadaSign.SortedHeadLeast | sdk/lazada-sign.go:24 | the first of a sorted key list sorts before every key in it |
| LazadaSign.TailMultiset | sdk/lazada-sign.go:24 | dropping the first key removes exactly one occurrence of it |
| LazadaSign.SortedSameHead | sdk/lazada-sign.go:24 | two sorted orderings of the same keys start with the same key |
| LazadaSign.SortedTail | sdk/lazada-sign.go:24 | a sorted key list stays sorted without its first key |
| LazadaSign.SortedUnique | sdk/lazada-sign.go:20-24 | two sorted orderings of the same keys are the same list, so the sorted key list is unique |
| LazadaSign.SignStringOrderIndependent | sdk/lazada-sign.go:20-38 | the string signed does not depend on the map's iteration order |
| LazadaSign.SignStringLayout | sdk/lazada-sign.go:27-38 | the string signed is the API name, then the parameter part, then the body, and it ends after the parameters exactly when the body is empty |
| LazadaSign.KeepNonEmptyPart | sdk/lazada-sign.go:29-33 | skipping empty parameters contributes the same text as signing `NonEmpty`, the map with empty keys and values dropped |
| LazadaSign.KeepNonEmptyCount | sdk/lazada-sign.go:29-33 | the keys kept are exactly the keys of non-empty parameters, with their multiplicities |
| LazadaSign.KeepNonEmptySorted | sdk/lazada-sign.go:29-33 | keeping only some keys of a sorted list leaves it sorted |
| LazadaSign.EmptyParamsContributeNothing | sdk/lazada-sign.go:20-38 | parameters with an empty key or value do not affect the string signed: it equals the string of `NonEmpty` |
| LazadaSign.SortedKeys | sdk/lazada-sign.go:20-24 | the keys gathered and sorted are every key of the map, once each, in byte order |
| LazadaSign.SortStrings | sdk/lazada-sign.go:24 | the array ends sorted and holds the same strings |
| LazadaSign.SwapLeft | sdk/lazada-sign.go:24 | a swap keeps the same strings |
| LazadaSign.InsertingSwap | sdk/lazada-sign.go:24 | moving an out-of-order key one place left keeps the insertion invariant |
| LazadaSign.InsertingDone | sdk/lazada-sign.go:24 | once the key being inserted is in order, the prefix is sorted |
| LazadaSign.InsertAt | sdk/lazada-sign.go:24 | inserting the next key into a sorted prefix extends the sorted prefix by one and keeps the same strings |
| LazadaSign.BuildQuery | sdk/lazada-sign.go:26-38 | the builder loop produces the string signed |
| LazadaSign.UpperHexValue | sdk/lazada-sign.go:70 | an upper-case hex digit has a value below 16 |
| LazadaSign.ToUpperAsciiAppend | sdk/lazada-sign.go:70 | upper-casing works character by character |
| LazadaSign.Byte2HexCons | sdk/lazada-sign.go:69-71 | each byte becomes its two upper-case hex digits, high nibble first |
| LazadaSign.HexDigitUpperValue | sdk/lazada-sign.go:70 | each upper-case hex digit stands for its own value |
| LazadaSign.DecodePair | sdk/lazada-sign.go:70 | two hex digits decode to the byte they encode |
| LazadaSign.Byte2HexRoundTrip | sdk/lazada-sign.go:69-71 | the hex text is twice as long as the bytes, is upper-case hex, and decodes back to the bytes |
| LazadaSign.Byte2HexInjective | sdk/lazada-sign.go:69-71 | different digests never give the same hex text |
| LazadaSign.HmacAndSha256Agree | sdk/lazada-sign.go:44-54 | "hmac" and "sha256" produce the same signature |
| LazadaSign.SignAPIRequest | sdk/lazada-sign.go:18-58 | the signature of the string signed for any sorted key order; an unknown method gives the empty signature; a known one gives upper-case hex of a digest |
| LazadaProducts.ToProduct | internal/products/services/lazada.go:80-85 | a product takes the item id, the store id, the name, the description and the images, and no SKUs yet |
| LazadaProducts.LazadaMappedStep | internal/products/services/lazada.go:79-99 | one more product adds exactly its own mapped part to the output |
| LazadaProducts.LazadaUnmappedStep | internal/products/services/lazada.go:142-163 | one more product adds exactly its own unmapped part to the output |
| LazadaProducts.KeepMappedSkus | internal/products/services/lazada.go:88-92 | the SKU loop keeps exactly the SKUs the set maps to true, in order |
| LazadaProducts.KeepUnmappedSkus | internal/products/services/lazada.go:150-156 | the SKU loop keeps exactly the SKUs the set does not map to true, in order |
| LazadaProducts.CollectMappedProducts | internal/products/services/lazada.go:77-99 | the product loop yields each product with mapped SKUs, reduced to them, in order, and leaves the list nil when there is none |
| LazadaProducts.FilterLazadaMappedProducts | internal/products/services/lazada.go:66-102 | a failed re-encoding gives "failed to marshal response: …" before anything else; an undecodable response gives "failed to unmarshal response: …"; otherwise each product with mapped SKUs, reduced to them, in order, as a nil list when there is none |
| LazadaProducts.CollectUnmappedProducts | internal/products/services/lazada.go:140-163 | the product loop yields each product with unmapped SKUs, reduced to them, in order, and leaves the list nil when there is none |
| LazadaProducts.FilterLazadaUnmappedProducts | internal/products/services/lazada.go:129-166 | a failed re-encoding gives "failed to marshal response: …" before anything else; an undecodable response gives "failed to unmarshal response: …"; otherwise each product with unmapped SKUs, reduced to them, in order, as a nil list when there is none |
| LazadaProducts.AsStoreProductsAppend | internal/products/services/lazada.go:79-99 | the conversion distributes over concatenation |
| LazadaProducts.FiltersAgreeWithPartition | internal/products/services/lazada.go:66-166 | the two filters are the two halves of the products service's partition, converted |
| LazadaProducts.MappedEmitted | internal/products/services/lazada.go:79-99 | every mapped product comes from an input product, has the store id, is non-empty and holds only mapped SKUs |
| LazadaProducts.UnmappedEmitted | internal/products/services/lazada.go:142-163 | every unmapped product comes from an input product, has the store id, is non-empty and holds only unmapped SKUs |
| LazadaProducts.AsStoreProductsSkus | internal/products/services/lazada.go:79-99 | conversion keeps every SKU, in order |
| LazadaProducts.FilterSkusPreserved | internal/products/services/lazada.go:66-166 | together the two filters keep every SKU exactly once |
| ProductsService.PartitionStep | internal/products/services/products.go:116-135 | one more product of the response adds exactly its own unmapped and mapped parts to the two outputs |
| ProductsService.SplitSkus | internal/products/services/products.go:117-125 | the inner loop puts each SKU of a product in the removed list when the set maps it to true and in the remaining list otherwise, in order |
| ProductsService.PartitionProducts | internal/products/services/products.go:114-136 | the product loop yields the unmapped and the mapped products of the partition, each list nil when no product contributes to it |
| ProductsService.ProcessApiResponse | internal/products/services/products.go:103-142 | a failed re-encoding gives "failed to marshal response: …" before anything else; an undecodable response gives "failed to unmarshal response: …"; otherwise the unmapped and mapped products of the partition, each nil when empty |
| ProductsService.SkuPartition | internal/products/services/products.go:119-125 | every SKU of a product goes to exactly one side |
| ProductsService.RemovedSkusMembers | internal/products/services/products.go:119-122 | the mapped side holds exactly the product's SKUs that are in the set |
| ProductsService.RemainingSkusMembers | internal/products/services/products.go:122-124 | the unmapped side holds exactly the product's SKUs that are not in the set |
| ProductsService.ProductSides | internal/products/services/products.go:127-135 | a product is emitted as unmapped exactly when one of its SKUs is not in the set, and as mapped exactly when one is |
| ProductsService.EmittedProducts | internal/products/services/products.go:116-135 | every emitted product is an input product with only its SKUs changed, to a non-empty side |
| ProductsService.PartSkus | internal/products/services/products.go:119-135 | the SKUs emitted for one product on each side are that side's SKUs, in order |
| ProductsService.SkusPreserved | internal/products/services/products.go:116-135 | across both sides every input SKU appears exactly once |
| ProductsService.SkusOfAppend | internal/products/services/products.go:116 | the SKUs of a concatenation are the SKUs of each part, in order |
| ProductsService.ParseProductRequest | internal/products/services/products.go:37-56 | a decode error is returned; a request without a store id or products is refused with "store_id and products are required"; otherwise the request |
| ProductsRepository.FirstScanError | internal/products/repositories/products.go:97-104 | no scan error exactly when every row scans |
| ProductsRepository.FirstStoreScanError | internal/products/repositories/products.go:64-70 | no scan error exactly when every store row scans |
| ProductsRepository.ScanErrorAt | internal/products/repositories/products.go:97-104 | the first failing row's error is the one returned |
| ProductsRepository.StoreScanErrorAt | internal/products/repositories/products.go:64-70 | the first failing store row's error is the one returned |
| ProductsRepository.StartBatch | internal/products/repositories/products.go:137-140 | a batch starts with nothing inserted, an empty duplicate list and no error |
| ProductsRepository.BatchCounts | internal/products/repositories/products.go:160-201 | without error, inserted plus duplicates grows by the number of products, the table grows by the rows inserted, and earlier rows and duplicates stay first |
| ProductsRepository.HasKeyGrows | internal/products/repositories/products.go:162-165 | a key present in the table stays present as rows are added |
| ProductsRepository.BatchKeysPresent | internal/products/repositories/products.go:160-201 | after a batch without error, every product's (stock item, SKU) key is in the table |
| ProductsRepository.RepeatIsDuplicate | internal/products/repositories/products.go:169-172 | a product repeating the key of an earlier product in the same batch is recorded as a duplicate and not inserted |
| ProductsRepository.BatchKeepsKeysUnique | internal/products/repositories/products.go:160-201 | a table without repeated keys keeps that property through a batch |
| ProductsRepository.BatchWithoutFaults | internal/products/repositories/products.go:160-201 | with no database fault the batch loop ends without error |
| ProductsRepository.JoinRows | internal/products/repositories/products.go:78-85 | every joined row belongs to one of the company's stores and carries its product's stock item |
| ProductsRepository.ImageUrls | internal/products/repositories/products.go:108-116 | an empty or undecodable `media_url` gives no images; otherwise the decoded list |
| ProductsRepository.FirstOf | internal/products/repositories/products.go:118-120 | the first row with a stock item id, or none exactly when no row has it |
| ProductsRepository.GroupedAppend | internal/products/repositories/products.go:118-122 | adding a row to its group (creating the group from that row when absent) keeps the grouping invariant |
| ProductsRepository.GroupOfKeys | internal/products/repositories/products.go:106-122 | every product in a group has the group's stock item id, and a group exists exactly when some row has that id |
| ProductsRepository.GroupsPartitionRows | internal/products/repositories/products.go:91-123 | each scanned product is in its own group as often as it was scanned |
| ProductsRepository.CompanyStoresMembers | internal/products/repositories/products.go:56 | the stores listed are exactly the company's |
| ProductsRepository.CompanyStoreIdsAgree | internal/products/repositories/products.go:56-70 | the ids used for the join are the ids of the company's stores, in order |
| ProductsRepository.PlatformIdsNonEmpty | internal/products/repositories/products.go:223-232 | a platform has a list exactly when some store row has that platform |
| ProductsRepository.PlatformMapStep | internal/products/repositories/products.go:231 | appending the next row's id to its platform's list keeps the platform map invariant |
| ProductsRepository.StoreSkusMembers | internal/products/repositories/products.go:244-258 | a SKU is reported exactly when some row of the store has it |
| ProductsRepository.RemoveRowsMembers | internal/products/repositories/products.go:264 | a delete removes exactly the rows of that store with that SKU |
| ProductsRepository.AffectedIffMatch | internal/products/repositories/products.go:264-270 | rows are affected exactly when some row of that store has that SKU |
| ProductsRepository.DeletesPartition | internal/products/repositories/products.go:279-297 | every requested SKU lands in exactly one of deleted and failed |
| ProductsRepository.DeletesOnlyRemove | internal/products/repositories/products.go:283-297 | deleting only removes rows, and never rows of another store |
| ProductsRepository.DeletedHadRow | internal/products/repositories/products.go:291-293 | a SKU is reported deleted only if a matching row existed |
| ProductsRepository.NoRowAfterDelete | internal/products/repositories/products.go:284-289 | after a successful delete no matching row remains |
| ProductsRepository.RepeatedSkuFails | internal/products/repositories/products.go:291-296 | a SKU repeated after a successful delete is reported as failed |
| ProductsRepository.BatchErrorSticks | internal/products/repositories/products.go:166-199 | the first error stops the batch; later products change nothing |
| ProductsRepository.CollectOne | internal/products/repositories/products.go:127-129 | taking one more group from the map keeps the collection invariant |
| ProductsRepository.CollectEntries | internal/products/repositories/products.go:126-131 | every group of the map is listed once; no groups gives a nil result |
| ProductsRepository.GroupedStep | internal/products/repositories/products.go:118-122 | one iteration of the row loop keeps the grouping invariant |
| ProductsRepository.GroupsListed | internal/products/repositories/products.go:91-131 | the listed groups are exactly the stock items of the rows, each with its products in row order |
| ProductsRepository.GroupedKeys | internal/products/repositories/products.go:118-119 | every group is stored under its own stock item id |
| ProductsRepository.ScanStoreIds | internal/products/repositories/products.go:63-70 | the first scan error is returned; otherwise the store ids in order |
| ProductsRepository.GroupRows | internal/products/repositories/products.go:91-131 | the first scan error is returned; otherwise the rows grouped by stock item |
| ProductsRepository.ProductRepository.constructor | internal/products/repositories/products.go:17-19 | the repository is over the given tables |
| ProductsRepository.ProductRepository.InsertProductBatch | internal/products/repositories/products.go:136-209 | a begin or prepare failure returns the empty result; any error inside the loop or at commit leaves the tables unchanged; otherwise the loop's rows are committed |
| ProductsRepository.ProductRepository.GetProductsByCompany | internal/products/repositories/products.go:54-132 | query and scan errors are returned; a company without stores gives an empty non-nil list; otherwise the joined rows grouped by stock item |
| ProductsRepository.ProductRepository.GetStoreByCompany | internal/products/repositories/products.go:212-240 | errors are wrapped with "failed to query database", "failed to scan row" or "error iterating rows"; otherwise each platform maps to its store ids in row order |
| ProductsRepository.ProductRepository.GetStoreSkus | internal/products/repositories/products.go:243-261 | query and scan errors are wrapped; otherwise every SKU of the store maps to true, returned with the iteration error if any |
| ProductsRepository.ProductRepository.DeleteMappedProductsBySKU | internal/products/repositories/products.go:263-272 | an exec error gives 0 and the error with the table unchanged; otherwise matching rows are removed and their number returned, or 0 when the count cannot be read |
| ProductsRepository.ProductRepository.DeleteMappedProductsBySKUs | internal/products/repositories/products.go:274-300 | an empty list gives "no SKUs provided" and changes nothing; otherwise the per-SKU deletes run in order, splitting the SKUs into deleted and failed |
| StoresRepository.SavedStoresEffect | internal/stores/repositories/stores.go:95-136 | after a save the store id is present; an existing store changes only its authorize time, expiry time and status; a new store is inserted whole; other stores are untouched |
| StoresRepository.SavedStoresIdempotent | internal/stores/repositories/stores.go:95-136 | saving the same store twice is the same as saving it once |
| StoresRepository.TokenIdFor | internal/stores/repositories/stores.go:141-142 | the id found is a token row of that store; none is found only when the store has no token row |
| StoresRepository.SaveTokenValid | internal/stores/repositories/stores.go:139-179 | a token save keeps every token id below the next id to be assigned |
| StoresRepository.SaveTokenUpdatesExisting | internal/stores/repositories/stores.go:148-158 | with a token row for the store, only its access and refresh tokens change and the id returned is that row's |
| StoresRepository.SaveTokenInsertsNew | internal/stores/repositories/stores.go:159-176 | with no token row for the store and id 0, one row is inserted under a fresh id, which is returned |
| StoresRepository.SaveTokenStaleId | internal/stores/repositories/stores.go:142-158 | with no token row for the store, an incoming id of an existing row is kept and that other store's row is overwritten |
| StoresRepository.Refreshed | internal/stores/repositories/stores.go:235-237 | only the status changes, and it becomes false when the expiry is before now |
| StoresRepository.Deactivated | internal/stores/repositories/stores.go:239-240 | no store is added or removed |
| StoresRepository.Listed | internal/stores/repositories/stores.go:216-247 | one store per row |
| StoresRepository.ListedStores | internal/stores/repositories/stores.go:196-254 | the stores listed belong to the company, are in descending authorize time, expired ones are inactive and the rest are as stored |
| StoresRepository.DeactivatedStores | internal/stores/repositories/stores.go:234-244 | exactly the company's expired stores become inactive, nothing else changes, and doing it again changes nothing |
| StoresRepository.FirstFailure | internal/stores/repositories/stores.go:230-243 | every row before the first failing one scanned and updated without error |
| StoresRepository.FirstFailureAt | internal/stores/repositories/stores.go:230-243 | the first failing row is the one the loop stops at |
| StoresRepository.RowSetStep | internal/stores/repositories/stores.go:216 | each row visited adds a new store id |
| StoresRepository.ListedStep | internal/stores/repositories/stores.go:246 | visiting one more row appends its refreshed store |
| StoresRepository.DeactivatedStep | internal/stores/repositories/stores.go:235-244 | visiting one more row refreshes that store in the table |
| StoresRepository.ListRows | internal/stores/repositories/stores.go:216-247 | the rows before the first failure are deactivated as needed; a failure is that row's error; with none the stores are listed |
| StoresRepository.StoreRepository.constructor | internal/stores/repositories/stores.go:23-25 | a new repository starts with empty tables |
| StoresRepository.StoreRepository.GetAccountByUserID | internal/stores/repositories/stores.go:30-54 | a query error is wrapped with "failed to get account by user ID"; a missing account gives none and no error; otherwise the stored account |
| StoresRepository.StoreRepository.SaveStore | internal/stores/repositories/stores.go:95-136 | a check error or a write error leaves the table unchanged with the matching message; otherwise the table becomes `SavedStores` |
| StoresRepository.StoreRepository.SaveAccessToken | internal/stores/repositories/stores.go:139-179 | the id, error and token table are those of `SaveToken` |
| StoresRepository.StoreRepository.UpdateStore | internal/stores/repositories/stores.go:181-193 | an error leaves the table unchanged; otherwise only the store's access token id changes |
| StoresRepository.StoreRepository.GetStoresByCompany | internal/stores/repositories/stores.go:196-254 | a query error is wrapped with "failed to fetch stores"; rows before the first failure are deactivated as needed; an iteration error is wrapped; otherwise the company's stores, nil when there are none |
| StoresRepository.LinkedTokenEffect | internal/stores/repositories/stores.go:181-188 | only the access token id of the given store changes |
| Seqs.ConcatLength | internal/payment/services/itemlist.go:27-29 | a concatenation is as long as its parts together |
| Seqs.ConcatAppend | internal/payment/services/itemlist.go:27-29 | concatenation distributes over appending lists of parts |
| Seqs.ConcatMembers | internal/payment/services/itemlist.go:27-29 | an element is in a concatenation exactly when some part holds it |
| Seqs.Flatten | internal/payment/services/itemlist.go:26-29 | the append loop computes the concatenation |
| Seqs.WithKeyMembers | internal/payment/services/payment.go:152-159 | the transactions grouped under a key are exactly those with that non-empty key |
| Seqs.WithEmptyKey | internal/payment/services/payment.go:154-157 | nothing is grouped under the empty key |
| Seqs.GroupingAppend | internal/payment/services/payment.go:158 | appending an element to its key's group keeps the grouping invariant |
| Seqs.GroupByKey | internal/payment/services/payment.go:150-159 | the loop builds a map whose groups are the elements with each non-empty key, in order |
| Seqs.ConcatCons | internal/payment/handlers/orders.go:72 | concatenating one part first puts its elements first |
| Seqs.FirstError | internal/payment/handlers/orders.go:99-105 | the first failing call, or none exactly when every call succeeded |
| Seqs.OutcomesAt | internal/payment/handlers/orders.go:99-105 | `Outcomes`, defined element by element, holds the handler's result for each element at that element's index |
| Seqs.StoppedAt | internal/payment/handlers/orders.go:100-105 | a loop that stopped at its first failing call found the first error of `Outcomes`, the handler's result for each element in order, and that error is the failing call's |
| Seqs.NoneFailed | internal/payment/handlers/orders.go:90-106 | a loop whose every call succeeded finds no error among `Outcomes`, the handler's result for each element in order |
| Text.DigitChar | internal/orders/services/orders.go:38 | a decimal digit character |
| Text.DigitValue | internal/middleware/handlers/request.go:51 | a digit's value is below 10 |
| Text.DigitRoundTrip | internal/orders/services/orders.go:38 | a digit character stands for its own value |
| Text.NatToDecimalDigits | internal/orders/services/orders.go:38 | the decimal text of a natural number is non-empty digits with that value |
| Text.IntToDecimalRoundTrip | internal/orders/services/orders.go:38 | the decimal text of a number parses back to it |
| Text.IntToDecimalInjective | internal/orders/services/orders.go:37-39 | two numbers with the same decimal text are equal |
| Text.CountCharAppend | internal/orders/repositories/itemlist.go:39 | occurrences add up over concatenation |
| Text.JoinSeparatorCount | internal/orders/repositories/itemlist.go:39 | joining n separator-free parts puts n - 1 separators in |
| Text.Split | internal/payment/repositories/orders.go:208 | splitting always gives at least one piece |
| Text.JoinCons | internal/payment/repositories/orders.go:212 | joining peels off the first part and a separator |
| Text.SplitPiecesFree | internal/payment/repositories/orders.go:208 | no piece holds the separator |
| Text.JoinSplit | internal/payment/repositories/orders.go:208-212 | joining the pieces back gives the string |
| Text.SplitAfterFirst | internal/payment/repositories/orders.go:208-212 | a separator-free first part followed by the separator is the first piece |
| Text.SplitFree | internal/payment/repositories/orders.go:208 | a string without the separator is one piece |
| Text.SplitJoin | internal/orders/repositories/itemlist.go:39 | splitting a join of separator-free parts gives the parts back |
| Text.CountCharAbsent | internal/orders/repositories/itemlist.go:39 | no occurrences exactly when the character is absent |
| Text.LessEqReflexive | sdk/lazada-sign.go:24 | the string order is reflexive |
| Text.LessEqTotal | sdk/lazada-sign.go:24 | any two strings are ordered one way or the other |
| Text.LessEqAntisymmetric | sdk/lazada-sign.go:24 | strings ordered both ways are equal |
| Text.LessEqTransitive | sdk/lazada-sign.go:24 | the string order is transitive |

## Left out

- Broker and HTTP wiring are not modelled. This covers stream and consumer creation (`internal/middleware/handlers/request.go:20-47`), the connection handles, and Echo's request binding and JSON writing. The broker appears only as the outcomes of one publish, one subscribe and a sequence of fetches.
- Several requests waiting on the shared reply consumer at the same time are not modelled. Each handler is modelled alone.
- Wall-clock time is a parameter:
  - the request id's nanoseconds and the `now` of the store expiry check are arguments;
  - the five-minute, 15-second and one-minute deadlines are numbers of polling rounds.
- HMAC-SHA256 (RFC 2104 over SHA-256) is an uninterpreted function parameter. The model proves what is signed and how the digest is rendered, not the digest itself.
- JSON encoding and decoding are parameters:
  - the Lazada SDK calls;
  - the decoding of responses and stored JSON columns, which is a fault step or an `Option`-valued function.
- Decoding the stored item list into the one-element `Items` slice is modelled as replacing it. In Go, fields absent from the JSON would keep the scanned tracking code (`internal/payment/repositories/orders.go:184,202`).
- Floating-point money is not modelled. Prices and fees are `real` values that the model only copies. Three computations are left out:
  - `CalculateTotalAmountByOrder` (`internal/payment/services/payment.go:114-140`);
  - the per-order sums of `GetTransactionsByOrder` (`internal/payment/handlers/orders.go:203-230`);
  - the refund rounding (`internal/orders/repositories/orders.go:115`), whose rounded amount is a parameter.
- Go's general `time.Parse` is not modelled. Only the layout "2 Jan 2006" is parsed. Like Go's reader for that layout, the model takes a year of exactly four digits.
- `strconv.Atoi` is modelled on unbounded integers. Its out-of-range error for values beyond 64 bits is not modelled.
- The thin wrappers over the Lazada SDK client are not modelled:
  - `FetchLazadaMappedProducts` and `FetchLazadaUnmappedProducts` (`internal/products/services/lazada.go:43-63,105-126`);
  - `FetchFilteredProducts` (`internal/products/services/products.go:64-87`);
  - the `FetchOrders`/`FetchTransactions` calls.

  Their filtering and partitioning logic is modelled. The client calls are parameters.
- `InsertProducts` (`internal/products/services/products.go:59-61`) is not modelled. It only forwards to `InsertProductBatch`, which is modelled, and it passes a store id that the repository's one-argument signature does not take.
- `GetStockItemsByCompany` (`internal/products/services/products.go:22-51`) is not modelled. It only forwards to the repository listing that is modelled.
- `SaveAccount` (`internal/stores/repositories/stores.go:57-72`) is not modelled: a single insert with no decision in it.
- `OrdersService.SaveOrder` (`internal/orders/services/orders.go:60-62`) is a pass-through to the repository's `SaveOrder`, which is modelled.
- The payment `FetchOrdersByCompanyID` handler (`internal/payment/handlers/orders.go:145-152`) is not modelled. Its only decision is a one-line status mapping.
- Ids are modelled as integers throughout. Go passes `companyID` to `GetStoreByCompany` and `userID` to `GetAccountByUserID` as strings.
- Store authorization and expiry times are integers, compared as instants.
- The `ORDER BY` of the store listing is the database's job. The row order is an input, and the requires `IsQueryResult` says it is that ordering.
- A `nil` element in a bound JSON list body makes Go's `PostProducts` panic. The model's request values have no `nil` element.
- The transactions pages of `GetTransactions` carry a count of 0, since the payment service reports none.
- The payment service's `OrdersService` and `ItemListService` fields are not modelled. Only the operations the handlers call are modelled.
- ProductsRepository.JoinRows: returns the joined rows in `storeproduct` table order. The join in `internal/products/repositories/products.go:78-83` has no `ORDER BY`, so the database may return them in any order; the grouping that `GetProductsByCompany` builds from them does not depend on that order except for the order of each group's store products.
- The iteration order of Go maps is not fixed in the model. `GetProductsByCompany` lists its grouped map in an order the method chooses, and the lemmas hold for every order.
- The timeout message "aTimeout waiting for response" of `PostProducts` (`internal/middleware/handlers/request.go:360`) is kept as written.
