/** The gateway's request handlers: each turns an HTTP request into a
    message published on `<topic>.request.<action>`, then polls the shared
    reply consumer `<topic>.response.*` until a reply arrives or the
    deadline passes. The broker is modelled by the outcome of the publish
    and of the subscription, and by the sequence of outcomes its fetches
    return; the deadline is a number of polling rounds; the clock reading
    used for the request id is a parameter; whether a reply is JSON is a
    predicate parameter. */
module Gateway {

  import opened Wrappers
  import opened Text

  // ---- query defaults, request ids and subjects ----

  const DefaultLimit: int := 20

  /** The `page` query parameter: below 1 becomes 1. */
  function PageOrDefault(page: int): (r: int)
    ensures r >= 1
    ensures page >= 1 ==> r == page
    ensures page < 1 ==> r == 1
  {
    if page < 1 then 1 else page
  }

  /** The `limit` query parameter: below 1 becomes 20. */
  function LimitOrDefault(limit: int): (r: int)
    ensures r >= 1
    ensures limit >= 1 ==> r == limit
    ensures limit < 1 ==> r == DefaultLimit
  {
    if limit < 1 then DefaultLimit else limit
  }

  /** "req-" followed by the clock reading in nanoseconds. */
  function RequestId(nanos: int): (r: string)
    ensures |r| > 4 && r[..4] == "req-"
  {
    "req-" + IntToDecimal(nanos)
  }

  /** The clock reading can be read back from the request id, so two
      requests get the same id exactly when they read the same time. */
  lemma RequestIdReadBack(nanos: int)
    ensures ParseInt(RequestId(nanos)[4..]) == Some(nanos)
  {
    assert RequestId(nanos)[4..] == IntToDecimal(nanos);
    IntToDecimalRoundTrip(nanos);
  }

  function RequestSubject(topic: string, action: string): (r: string)
    ensures |r| == |topic| + 9 + |action|
    ensures r[..|topic|] == topic && r[|topic|..|topic| + 9] == ".request." && r[|topic| + 9..] == action
  {
    topic + ".request." + action
  }

  function ResponseSubject(topic: string): (r: string)
    ensures |r| == |topic| + 11 && r[..|topic|] == topic && r[|topic|..] == ".response.*"
  {
    topic + ".response.*"
  }

  /** The durable name of the reply consumer. */
  function Durable(topic: string): (r: string)
    ensures |r| == |topic| + 8 && r[..|topic|] == topic && r[|topic|..] == "-replies"
  {
    topic + "-replies"
  }

  /** A request subject never equals the reply subject of the same topic,
      and different actions give different request subjects. */
  lemma SubjectsDistinct(topic: string, action: string, other: string)
    ensures RequestSubject(topic, action) != ResponseSubject(topic)
    ensures RequestSubject(topic, action) == RequestSubject(topic, other) ==> action == other
  {
    var req, resp := RequestSubject(topic, action), ResponseSubject(topic);
    if |req| == |resp| {
      assert req[|topic| + 3] == 'q' && resp[|topic| + 3] == 's';
    }
    if RequestSubject(topic, action) == RequestSubject(topic, other) {
      assert action == RequestSubject(topic, action)[|topic| + 9..];
    }
  }

  // ---- the broker ----

  /** A JSON value of a request body, as far as the handlers touch it. */
  datatype Value = Num(n: int) | Str(s: string) | Raw(json: string)

  /** The message published for each handler. */
  datatype Payload =
    | Query(companyId: int, requestId: string, status: string, createdAfter: string, stopAfter: string,
            sortDirection: string, page: int, limit: int)
    | Link(companyId: int, code: string, requestId: string)
    | StoreQuery(companyId: int, requestId: string)
    | Object(fields: map<string, Value>)
    | List(items: seq<map<string, Value>>)

  /** A reply message; `requestId` is the id of the request it answers. */
  datatype Message = Message(requestId: string, data: string)

  /** What one `Fetch(1)` returns. */
  datatype Fetched = FetchFailed(error: string) | Empty | Got(msg: Message)

  /** What the broker does during one request: the outcome of the publish
      and of the subscription, the fetch outcomes in order (after the last
      one every fetch comes back empty), the polling rounds before the
      deadline, and which reply bodies are valid JSON. */
  datatype Broker = Broker(
    publish: (string, Payload) -> Option<string>,
    subscribe: (string, string) -> Option<string>,
    fetches: seq<Fetched>,
    ticks: nat,
    validJson: string -> bool)

  /** The HTTP answer: an error status with its message, or 200 with the
      reply relayed as it came. */
  datatype Reply = ErrorReply(status: int, error: string) | Relayed(response: string)

  /** The answer and the number of acknowledgements sent. */
  datatype Awaited = Awaited(reply: Reply, acks: nat)

  const TimeoutMessage: string := "Timeout waiting for response"

  /** Whether a fetch outcome ends the waiting. Strict handlers (`LinkStore`,
      `GetStore`) give up on a fetch error; the others keep polling. */
  predicate Decisive(f: Fetched, strict: bool) {
    f.Got? || (strict && f.FetchFailed?)
  }

  /** The answer to a decisive fetch. A message is acknowledged and parsed:
      the lenient handlers acknowledge before parsing and again after, the
      strict ones once, after parsing; a non-JSON body gives 500. */
  function Decide(f: Fetched, strict: bool, validJson: string -> bool): (r: Awaited)
    requires Decisive(f, strict)
    ensures f.Got? && validJson(f.msg.data) ==> r.reply == Relayed(f.msg.data)
    ensures f.Got? && !validJson(f.msg.data) ==> r.reply == ErrorReply(500, "Invalid response format")
    ensures f.FetchFailed? ==> r == Awaited(ErrorReply(500, "Failed to fetch response"), 0)
    ensures f.Got? && !strict ==> r.acks >= 1
  {
    match f
    case FetchFailed(_) => Awaited(ErrorReply(500, "Failed to fetch response"), 0)
    case Got(m) =>
      if !validJson(m.data) then Awaited(ErrorReply(500, "Invalid response format"), if strict then 0 else 1)
      else Awaited(Relayed(m.data), if strict then 1 else 2)
  }

  /** The polling loop: each round first checks the deadline, then fetches. */
  function Await(fetches: seq<Fetched>, ticks: nat, strict: bool, validJson: string -> bool, timeout: string): Awaited
    decreases ticks
  {
    if ticks == 0 then Awaited(ErrorReply(504, timeout), 0)
    else
      var f := if fetches == [] then Empty else fetches[0];
      if Decisive(f, strict) then Decide(f, strict, validJson)
      else Await(if fetches == [] then [] else fetches[1..], ticks - 1, strict, validJson, timeout)
  }

  /** The fetch of round `t`: empty once the sequence is used up. */
  function FetchAt(fetches: seq<Fetched>, t: nat): Fetched {
    if t < |fetches| then fetches[t] else Empty
  }

  /** No outcome before the deadline ends the waiting. */
  predicate NothingDecisive(fetches: seq<Fetched>, ticks: nat, strict: bool) {
    forall t :: 0 <= t < ticks && t < |fetches| ==> !Decisive(fetches[t], strict)
  }

  /** Round `t` is the first whose outcome ends the waiting. */
  predicate FirstDecisiveAt(fetches: seq<Fetched>, ticks: nat, strict: bool, t: nat) {
    t < ticks && t < |fetches| && Decisive(fetches[t], strict)
    && forall s :: 0 <= s < t ==> !Decisive(fetches[s], strict)
  }

  /** With no decisive outcome before the deadline the waiting ends with 504. */
  lemma {:induction false} AwaitTimeout(fetches: seq<Fetched>, ticks: nat, strict: bool, validJson: string -> bool, timeout: string)
    requires NothingDecisive(fetches, ticks, strict)
    ensures Await(fetches, ticks, strict, validJson, timeout) == Awaited(ErrorReply(504, timeout), 0)
    decreases ticks
  {
    if ticks > 0 {
      var rest := if fetches == [] then [] else fetches[1..];
      assert NothingDecisive(rest, ticks - 1, strict) by {
        forall t | 0 <= t < ticks - 1 && t < |rest| ensures !Decisive(rest[t], strict) {
          assert rest[t] == fetches[t + 1];
        }
      }
      AwaitTimeout(rest, ticks - 1, strict, validJson, timeout);
    }
  }

  /** The waiting ends with the answer to the first decisive outcome. */
  lemma {:induction false} AwaitFirst(fetches: seq<Fetched>, ticks: nat, strict: bool, validJson: string -> bool, timeout: string, t: nat)
    requires FirstDecisiveAt(fetches, ticks, strict, t)
    ensures Await(fetches, ticks, strict, validJson, timeout) == Decide(fetches[t], strict, validJson)
    decreases t
  {
    if t > 0 {
      var rest := fetches[1..];
      assert !Decisive(fetches[0], strict);
      assert FirstDecisiveAt(rest, ticks - 1, strict, t - 1) by {
        forall s | 0 <= s < t - 1 ensures !Decisive(rest[s], strict) {
          assert rest[s] == fetches[s + 1];
        }
      }
      AwaitFirst(rest, ticks - 1, strict, validJson, timeout, t - 1);
    }
  }

  /** The waiting ends at the deadline with 504 exactly when no outcome
      before it is decisive, and otherwise with the answer to the first
      decisive outcome. */
  lemma AwaitOutcome(fetches: seq<Fetched>, ticks: nat, strict: bool, validJson: string -> bool, timeout: string)
    ensures NothingDecisive(fetches, ticks, strict) ==> Await(fetches, ticks, strict, validJson, timeout) == Awaited(ErrorReply(504, timeout), 0)
    ensures forall t: nat :: FirstDecisiveAt(fetches, ticks, strict, t) ==>
              Await(fetches, ticks, strict, validJson, timeout) == Decide(fetches[t], strict, validJson)
  {
    if NothingDecisive(fetches, ticks, strict) {
      AwaitTimeout(fetches, ticks, strict, validJson, timeout);
    }
    forall t: nat | FirstDecisiveAt(fetches, ticks, strict, t)
      ensures Await(fetches, ticks, strict, validJson, timeout) == Decide(fetches[t], strict, validJson)
    {
      AwaitFirst(fetches, ticks, strict, validJson, timeout, t);
    }
  }

  /** The lenient handlers: a fetch error or an empty fetch never ends the
      request; only a message (first one wins) or the deadline does. */
  lemma LenientWaitEndsOnlyOnMessage(fetches: seq<Fetched>, ticks: nat, validJson: string -> bool, timeout: string)
    ensures var r := Await(fetches, ticks, false, validJson, timeout).reply;
            r == ErrorReply(504, timeout)
            || exists t: nat :: t < ticks && t < |fetches| && fetches[t].Got? && r == Decide(fetches[t], false, validJson).reply
  {
    AwaitOutcome(fetches, ticks, false, validJson, timeout);
    if !NothingDecisive(fetches, ticks, false) {
      var t :| 0 <= t < ticks && t < |fetches| && Decisive(fetches[t], false);
      FirstDecisiveExists(fetches, ticks, false, t);
    }
  }

  /** If some round before the deadline is decisive, a first one is. */
  lemma {:induction false} FirstDecisiveExists(fetches: seq<Fetched>, ticks: nat, strict: bool, t: nat)
    requires t < ticks && t < |fetches| && Decisive(fetches[t], strict)
    ensures exists u: nat :: u <= t && FirstDecisiveAt(fetches, ticks, strict, u)
    decreases t
  {
    if !FirstDecisiveAt(fetches, ticks, strict, t) {
      var s :| 0 <= s < t && Decisive(fetches[s], strict);
      FirstDecisiveExists(fetches, ticks, strict, s);
    }
  }

  /** The strict handlers give up with 500 at the first fetch error that
      comes before any message. */
  lemma StrictWaitStopsOnError(fetches: seq<Fetched>, ticks: nat, validJson: string -> bool, timeout: string, t: nat)
    requires FirstDecisiveAt(fetches, ticks, true, t) && fetches[t].FetchFailed?
    ensures Await(fetches, ticks, true, validJson, timeout) == Awaited(ErrorReply(500, "Failed to fetch response"), 0)
  {
    AwaitOutcome(fetches, ticks, true, validJson, timeout);
  }

  /** No correlation: the first message is relayed with 200 whatever
      request it answers, even one carrying another request's id. */
  lemma ForeignReplyRelayed(fetches: seq<Fetched>, ticks: nat, strict: bool, validJson: string -> bool, timeout: string,
                            requestId: string, t: nat)
    requires FirstDecisiveAt(fetches, ticks, strict, t) && fetches[t].Got?
    requires fetches[t].msg.requestId != requestId && validJson(fetches[t].msg.data)
    ensures Await(fetches, ticks, strict, validJson, timeout).reply == Relayed(fetches[t].msg.data)
  {
    AwaitOutcome(fetches, ticks, strict, validJson, timeout);
  }

  /** The loop `for { select { case <-timeout: …; default: sub.Fetch(1) … } }`. */
  method Poll(fetches: seq<Fetched>, ticks: nat, strict: bool, validJson: string -> bool, timeout: string)
    returns (r: Awaited)
    ensures r == Await(fetches, ticks, strict, validJson, timeout)
  {
    var t := 0;
    while true
      invariant t <= ticks
      invariant Await(fetches[if t <= |fetches| then t else |fetches|..], ticks - t, strict, validJson, timeout)
             == Await(fetches, ticks, strict, validJson, timeout)
      decreases ticks - t
    {
      if t == ticks {
        return Awaited(ErrorReply(504, timeout), 0);
      }
      var f := FetchAt(fetches, t);
      ghost var rest := fetches[if t <= |fetches| then t else |fetches|..];
      assert f == if rest == [] then Empty else rest[0];
      if f.FetchFailed? && strict {
        return Awaited(ErrorReply(500, "Failed to fetch response"), 0);
      }
      if f.Got? {
        var acks := 0;
        if !strict {
          acks := acks + 1;
        }
        if !validJson(f.msg.data) {
          return Awaited(ErrorReply(500, "Invalid response format"), acks);
        }
        acks := acks + 1;
        return Awaited(Relayed(f.msg.data), acks);
      }
      assert (if rest == [] then [] else rest[1..]) == fetches[if t + 1 <= |fetches| then t + 1 else |fetches|..];
      t := t + 1;
    }
  }

  // ---- publish, subscribe, wait ----

  /** What a handler did with the broker: what it published and where, and
      which subscription it opened. */
  datatype Trace = Trace(published: seq<(string, Payload)>, subscribed: seq<(string, string)>, acks: nat)

  /** The exchange every handler performs once its payload is built: publish
      on the request subject (500 on failure, and no subscription), open the
      reply subscription (500 on failure), then wait. */
  ghost predicate Exchanged(topic: string, action: string, payload: Payload, broker: Broker, strict: bool, timeout: string,
                            reply: Reply, trace: Trace)
  {
    trace.published == [(RequestSubject(topic, action), payload)]
    && if broker.publish(RequestSubject(topic, action), payload).Some? then
         reply == ErrorReply(500, "Failed to publish request") && trace.subscribed == [] && trace.acks == 0
       else
         trace.subscribed == [(ResponseSubject(topic), Durable(topic))]
         && if broker.subscribe(ResponseSubject(topic), Durable(topic)).Some? then
              reply == ErrorReply(500, "Failed to subscribe for response") && trace.acks == 0
            else
              Awaited(reply, trace.acks) == Await(broker.fetches, broker.ticks, strict, broker.validJson, timeout)
  }

  method Exchange(topic: string, action: string, payload: Payload, broker: Broker, strict: bool, timeout: string)
    returns (reply: Reply, trace: Trace)
    ensures Exchanged(topic, action, payload, broker, strict, timeout, reply, trace)
  {
    var subject := RequestSubject(topic, action);
    trace := Trace([(subject, payload)], [], 0);
    if broker.publish(subject, payload).Some? {
      return ErrorReply(500, "Failed to publish request"), trace;
    }
    trace := trace.(subscribed := [(ResponseSubject(topic), Durable(topic))]);
    if broker.subscribe(ResponseSubject(topic), Durable(topic)).Some? {
      return ErrorReply(500, "Failed to subscribe for response"), trace;
    }
    var awaited := Poll(broker.fetches, broker.ticks, strict, broker.validJson, timeout);
    reply := awaited.reply;
    trace := trace.(acks := awaited.acks);
  }

  // ---- the handlers ----

  /** `HandleGetRequest`: a query for `<topic>.request.<method>` with the
      parsed company id, the filters as given and the defaulted paging. */
  method HandleGetRequest(companyIdParam: string, topic: string, action: string, pageParam: string, limitParam: string,
                          status: string, createdAfter: string, stopAfter: string, sortDirection: string,
                          nanos: int, broker: Broker)
    returns (reply: Reply, trace: Trace)
    ensures Exchanged(topic, action,
                      Query(AtoiOrZero(companyIdParam), RequestId(nanos), status, createdAfter, stopAfter, sortDirection,
                            PageOrDefault(AtoiOrZero(pageParam)), LimitOrDefault(AtoiOrZero(limitParam))),
                      broker, false, TimeoutMessage, reply, trace)
  {
    var companyId := AtoiOrZero(companyIdParam);
    var page := AtoiOrZero(pageParam);
    var limit := AtoiOrZero(limitParam);
    if page < 1 {
      page := 1;
    }
    if limit < 1 {
      limit := DefaultLimit;
    }
    var request := Query(companyId, RequestId(nanos), status, createdAfter, stopAfter, sortDirection, page, limit);
    reply, trace := Exchange(topic, action, request, broker, false, TimeoutMessage);
  }

  /** `LinkStore`: rejects an empty authorization code before publishing. */
  method LinkStore(companyIdParam: string, topic: string, code: string, nanos: int, broker: Broker)
    returns (reply: Reply, trace: Trace)
    ensures code == "" ==> reply == ErrorReply(400, "Authorization code is required") && trace == Trace([], [], 0)
    ensures code != "" ==> Exchanged(topic, "linkstore", Link(AtoiOrZero(companyIdParam), code, RequestId(nanos)),
                                     broker, true, TimeoutMessage, reply, trace)
  {
    if code == "" {
      return ErrorReply(400, "Authorization code is required"), Trace([], [], 0);
    }
    var request := Link(AtoiOrZero(companyIdParam), code, RequestId(nanos));
    reply, trace := Exchange(topic, "linkstore", request, broker, true, TimeoutMessage);
  }

  /** `GetStore`. */
  method GetStore(companyIdParam: string, topic: string, nanos: int, broker: Broker)
    returns (reply: Reply, trace: Trace)
    ensures Exchanged(topic, "getstore", StoreQuery(AtoiOrZero(companyIdParam), RequestId(nanos)),
                      broker, true, TimeoutMessage, reply, trace)
  {
    var request := StoreQuery(AtoiOrZero(companyIdParam), RequestId(nanos));
    reply, trace := Exchange(topic, "getstore", request, broker, true, TimeoutMessage);
  }

  /** A request body with the company id and the request id attached; every
      other field is kept. */
  function Stamped(fields: map<string, Value>, companyId: int, requestId: string): (r: map<string, Value>)
    ensures r.Keys == fields.Keys + {"company_id", "request_id"}
    ensures r["company_id"] == Num(companyId) && r["request_id"] == Str(requestId)
    ensures forall k :: k in fields && k != "company_id" && k != "request_id" ==> r[k] == fields[k]
  {
    fields["company_id" := Num(companyId)]["request_id" := Str(requestId)]
  }

  /** A single-object body: bound (400 with `badPayload` when it does not
      bind), stamped, then exchanged. */
  method PostObject(companyIdParam: string, topic: string, action: string, body: Option<map<string, Value>>, badPayload: string,
                    nanos: int, broker: Broker)
    returns (reply: Reply, trace: Trace)
    ensures body.None? ==> reply == ErrorReply(400, badPayload) && trace == Trace([], [], 0)
    ensures body.Some? ==> Exchanged(topic, action, Object(Stamped(body.value, AtoiOrZero(companyIdParam), RequestId(nanos))),
                                     broker, false, TimeoutMessage, reply, trace)
  {
    if body.None? {
      return ErrorReply(400, badPayload), Trace([], [], 0);
    }
    var payload := Stamped(body.value, AtoiOrZero(companyIdParam), RequestId(nanos));
    reply, trace := Exchange(topic, action, Object(payload), broker, false, TimeoutMessage);
  }

  /** `PostSQLItems`. */
  method PostSQLItems(companyIdParam: string, topic: string, body: Option<map<string, Value>>, nanos: int, broker: Broker)
    returns (reply: Reply, trace: Trace)
    ensures body.None? ==> reply == ErrorReply(400, "Invalid response payload") && trace == Trace([], [], 0)
    ensures body.Some? ==> Exchanged(topic, "postsqlitem", Object(Stamped(body.value, AtoiOrZero(companyIdParam), RequestId(nanos))),
                                     broker, false, TimeoutMessage, reply, trace)
  {
    reply, trace := PostObject(companyIdParam, topic, "postsqlitem", body, "Invalid response payload", nanos, broker);
  }

  /** `DeleteProduct`. */
  method DeleteProduct(companyIdParam: string, topic: string, body: Option<map<string, Value>>, nanos: int, broker: Broker)
    returns (reply: Reply, trace: Trace)
    ensures body.None? ==> reply == ErrorReply(400, "Invalid request payload") && trace == Trace([], [], 0)
    ensures body.Some? ==> Exchanged(topic, "deleteproduct", Object(Stamped(body.value, AtoiOrZero(companyIdParam), RequestId(nanos))),
                                     broker, false, TimeoutMessage, reply, trace)
  {
    reply, trace := PostObject(companyIdParam, topic, "deleteproduct", body, "Invalid request payload", nanos, broker);
  }

  /** `DeleteProductsBatch`. */
  method DeleteProductsBatch(companyIdParam: string, topic: string, body: Option<map<string, Value>>, nanos: int, broker: Broker)
    returns (reply: Reply, trace: Trace)
    ensures body.None? ==> reply == ErrorReply(400, "Invalid request payload") && trace == Trace([], [], 0)
    ensures body.Some? ==> Exchanged(topic, "deleteproductsbatch", Object(Stamped(body.value, AtoiOrZero(companyIdParam), RequestId(nanos))),
                                     broker, false, TimeoutMessage, reply, trace)
  {
    reply, trace := PostObject(companyIdParam, topic, "deleteproductsbatch", body, "Invalid request payload", nanos, broker);
  }

  /** Every element of a list body stamped with the same ids. */
  function StampedAll(items: seq<map<string, Value>>, companyId: int, requestId: string): (r: seq<map<string, Value>>)
    ensures |r| == |items|
    ensures forall i :: 0 <= i < |r| ==> r[i] == Stamped(items[i], companyId, requestId)
    ensures forall i :: 0 <= i < |r| ==>
              "company_id" in r[i] && r[i]["company_id"] == Num(companyId)
              && "request_id" in r[i] && r[i]["request_id"] == Str(requestId)
  {
    seq(|items|, i requires 0 <= i < |items| => Stamped(items[i], companyId, requestId))
  }

  /** The stamping loop of `PostProducts`, on the body's elements in place. */
  method StampEach(payload: array<map<string, Value>>, companyId: int, requestId: string)
    modifies payload
    ensures payload[..] == StampedAll(old(payload[..]), companyId, requestId)
  {
    for i := 0 to payload.Length
      invariant payload[..i] == StampedAll(old(payload[..i]), companyId, requestId)
      invariant payload[i..] == old(payload[i..])
    {
      payload[i] := payload[i]["company_id" := Num(companyId)];
      payload[i] := payload[i]["request_id" := Str(requestId)];
      assert payload[..i + 1] == payload[..i] + [payload[i]];
      assert old(payload[..i + 1]) == old(payload[..i]) + [old(payload[i])];
    }
    assert payload[..] == payload[..payload.Length];
  }

  /** `PostProducts`: a list body whose every element is stamped; its
      timeout answer carries the message "aTimeout waiting for response". */
  method PostProducts(companyIdParam: string, topic: string, body: Option<seq<map<string, Value>>>, nanos: int, broker: Broker)
    returns (reply: Reply, trace: Trace)
    ensures body.None? ==> reply == ErrorReply(400, "Invalid response payload") && trace == Trace([], [], 0)
    ensures body.Some? ==> Exchanged(topic, "insertproducts", List(StampedAll(body.value, AtoiOrZero(companyIdParam), RequestId(nanos))),
                                     broker, false, "aTimeout waiting for response", reply, trace)
  {
    if body.None? {
      return ErrorReply(400, "Invalid response payload"), Trace([], [], 0);
    }
    var items := body.value;
    var payload := new map<string, Value>[|items|](i requires 0 <= i < |items| => items[i]);
    assert payload[..] == items;
    StampEach(payload, AtoiOrZero(companyIdParam), RequestId(nanos));
    reply, trace := Exchange(topic, "insertproducts", List(payload[..]), broker, false, "aTimeout waiting for response");
  }
}
