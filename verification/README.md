# FIX 4.4 quote responder: dispatch and quoting core, in Dafny

This project models the inbound dispatch and quoting core of a small FIX 4.4
quote responder, and proves properties of that model. The responder receives
application messages from a QuickFIX session, reads the header MsgType (tag 35),
and routes a QuoteRequest (`R`) to a quote handler. The handler reads four
fields and asks a size-threshold policy whether to bid. It then either builds a
Quote (`S`) and hands it to the session layer, or declines. A message factory
builds Quote, NewOrderSingle (`D`) and ExecutionReport (`8`) messages. The
ExecutionReport's LeavesQty (151) and CumQty (14) are computed from OrdStatus
(39).

Everything is a pure function over immutable values:

- Inbound messages are a header and a body, each a map from tag to wire text
  (`FixMessage.Inbound`).
- Outbound messages are a MsgType and a body mapping tags to typed values
  (`FixMessage.Outbound`), built by a sequence of `SetField` calls, as the
  source builds them with `setField`.
- Logging and sending are an event trace (`Trace.Event`): `Log(level, note)`
  records, with one note constructor per log statement carrying the
  identifier it reports, and `Sent(message, session)` events.
- A call's result is `Trace.Outcome`: its trace plus the exception it lets
  escape, if any. Python's `try`/`except` clauses become explicit
  pattern matches on that exception.
- The session layer's `sendToTarget` is a `Transport` parameter. It answers
  false when the session is gone, which is when the library raises
  SessionNotFound.
- The quoting rule is a `Policy` parameter of the handler. The rule in force
  (`evaluate_quote_request`) is `MessageHandlers.EvaluateQuoteRequest`.
  Making the policy a parameter makes "the policy is never consulted"
  statable: the trace is the same under any other policy.

Modules: `Wrappers` (Option/Result), `FixTags` (tags and code values),
`FixMessage` (message values), `FixDecimal` (the numeric conversions of the
requested size), `Trace` (events and counting), `MessageFactory`,
`MessageHandlers`, `FixService`, and `Scenarios` (worked end-to-end examples).

How field values are read. The model takes `getField` to yield the field's
typed value. QuoteReqID, Symbol and SecurityID are string fields and are read
verbatim. OrderQty is a FIX Qty (float) field, so under this reading its wire
text goes through the FIX float conversion (`FixDecimal.ParseFloat`). A text
that is not a FIX float raises a conversion error, which the handler's generic
`except` turns into one error record. The policy's `int(bid_size)` is then
Python's `int()` on a float, which truncates toward zero
(`FixDecimal.Truncate`). Prices and quantities are exact reals, so 100.25 is
exact. The source does not settle this reading; "## Left out" says what the
other readings would do.

What the code does where its own comments or FIX practice suggest otherwise:

- The comment at src/fix_engine/message_handlers.py:54 says the handler bids
  "if the bid size is greater than 1000". The comparison at :55 is on
  `int(bid_size)`. With OrderQty read as a float, that truncates, so a size of
  1000.5 is declined. The model proves the rule quotes exactly when the size
  is at least 1001, and `Scenarios.FractionalSizeIsTruncated` shows 1000.5
  declined.
- The code reports a missing header MsgType as FieldNotFound (:78), just as
  it reports a missing body field (:42). The model keeps that: the route is
  `RouteMissingMsgType`, the exception is `FieldNotFound(35)`, and the record
  is `MessageFieldNotFound`.
- The code never checks whether a field it reads is empty, so the model
  accepts empty QuoteReqID, Symbol and SecurityID values.
- The handler writes an info record, "Handling QuoteRequest message" (:15),
  at the start of every pass, errors included, so the model's traces open
  with that record.

## Model

| member | source | states |
|---|---|---|
| FixDecimal.ParseFloat | src/fix_engine/message_handlers.py:21 | the OrderQty text converts to a number exactly when it is a FIX float (optional minus sign, digits with at most one point, at least one digit); every other text is the conversion error |
| FixDecimal.ParseFloatDecimalText | src/fix_engine/message_handlers.py:21 | decimal text written from a whole part and a k-digit fraction, optionally signed, is accepted by the OrderQty conversion and converts back to exactly the decimal it was written from |
| FixDecimal.ParseFloatWholePart | src/fix_engine/message_handlers.py:21 | the exact decimal value of a FIX float lies within one of the number its whole digits denote, on the side of its sign, so truncating that exact value toward zero gives exactly that signed number |
| FixDecimal.ParseFloatIntText | src/fix_engine/message_handlers.py:21 | the decimal text of any integer is accepted by the OrderQty conversion and converts back to that integer |
| FixDecimal.Truncate | src/fix_engine/message_handlers.py:55 | `int()` of a float rounds toward zero: the result is never farther from zero than the input and less than one away from it |
| MessageFactory.CreateQuoteResponse | src/fix_engine/message_factory.py:23-33 | the Quote holds exactly QuoteID, BidPx, OfferPx, Symbol, SecurityID and OrderQty, and reading it back gives the six arguments unchanged |
| MessageFactory.QuoteDeterminedByFields | src/fix_engine/message_factory.py:23-33 | the reader and the builder are inverse: a Quote with exactly those six fields is the one the factory builds from what it reads back |
| MessageFactory.CreateOrder | src/fix_engine/message_factory.py:35-66 | the NewOrderSingle copies ClOrdID, Side, Symbol, SecurityID, OrderQty, Price and OrdType, stamps the clock reading as TransactTime, and always carries HandlInst manual-order-best-execution |
| MessageFactory.OrderTypeDefaultsToLimit | src/fix_engine/message_factory.py:35 | when no order type is given, the order is a Limit order |
| MessageFactory.CreateExecutionReport | src/fix_engine/message_factory.py:68-99 | the report copies ClOrdID, ExecID, ExecType, OrdStatus, Symbol, SecurityID and LastPx, and LastQty is the quantity; OrdStatus Filled gives LeavesQty 0 and CumQty the quantity, and any other status gives LeavesQty the quantity and CumQty 0 |
| MessageFactory.ExecutionReportAccounted | src/fix_engine/message_factory.py:94-97 | every report built satisfies the FIX quantity accounting: LeavesQty + CumQty = LastQty, and a Filled report has nothing left open |
| MessageHandlers.EvaluateQuoteRequest | src/fix_engine/message_handlers.py:47-57 | the rule quotes exactly when the size is at least 1001, bids 100.25 when it quotes and 0 when it does not, and ignores symbol and SecurityID |
| MessageHandlers.QuoteDecidedByWholeDigits | src/fix_engine/message_handlers.py:55-57 | under the rule in force and with OrderQty taken at its exact decimal value, an OrderQty text is quoted exactly when it has no minus sign and the digits before its point denote more than 1000, whatever its fraction digits |
| MessageHandlers.ExtractQuoteRequest | src/fix_engine/message_handlers.py:17-21 | reading the four fields fails with FieldNotFound naming the first absent one in the order QuoteReqID, Symbol, SecurityID, OrderQty; with all four present it fails exactly when OrderQty does not convert; otherwise it yields the fields' values |
| MessageHandlers.Handle | src/fix_engine/message_handlers.py:13-45 | the handler never raises; every pass opens with one info record, then either sends the Quote to the originating session followed by an info record naming the QuoteReqID, or logs "not pursued" naming the QuoteReqID, or ends in one error record (FieldNotFound, conversion error, or a failed send) |
| MessageHandlers.HandleEndsOnce | src/fix_engine/message_handlers.py:13-45 | one pass sends at most once and logs at most one error, never both; it sends exactly when the policy quotes and the session takes the Quote, and logs an error exactly when extraction fails or the send raises |
| MessageHandlers.SentQuoteEchoesRequest | src/fix_engine/message_handlers.py:26-37 | a sent message goes to the originating session and is a Quote with QuoteID = QuoteReqID, the request's Symbol and SecurityID, OrderQty = the request's converted OrderQty, BidPx = the quoting policy's price, and OfferPx = 0 |
| MessageHandlers.SentRecordFollowsSend | src/fix_engine/message_handlers.py:37-38 | the "QuoteResponse sent" record appears only immediately after a successful send |
| MessageHandlers.DeclineSendsNothing | src/fix_engine/message_handlers.py:39-40 | when the policy declines, nothing is sent, no error is logged, and the final record is the info record naming the QuoteReqID |
| MessageHandlers.MissingFieldConsultsNothing | src/fix_engine/message_handlers.py:18-43 | a request missing any of the four fields sends nothing and ends in exactly one error record naming an absent field, with the same trace under any policy and any transport, so the policy is never consulted |
| MessageHandlers.SourcePolicyQuotesLargeRequests | src/fix_engine/message_handlers.py:24-57 | with the rule in force and a session that takes every message, a well-formed request is answered exactly when its size is at least 1001 |
| MessageHandlers.Classify | src/fix_engine/message_handlers.py:70-76 | a missing header MsgType, MsgType QuoteRequest and any other MsgType give the three routes, each exactly in its case, and the unhandled route carries the type read |
| MessageHandlers.ClassifyReadsOnlyMsgType | src/fix_engine/message_handlers.py:70-73 | two messages that agree on the header MsgType are routed alike, so classifying a message again gives the same route |
| MessageHandlers.HandleMessage | src/fix_engine/message_handlers.py:68-81 | the dispatcher never raises; a QuoteRequest yields exactly one quote handler run's trace, any other type one warning naming the type, and a missing MsgType one error record |
| MessageHandlers.QuoteRequestHandledOnce | src/fix_engine/message_handlers.py:73-74 | a QuoteRequest-typed message reaches the quote handler once: the handler's opening record appears exactly once, first |
| MessageHandlers.UnhandledTypeOnlyWarns | src/fix_engine/message_handlers.py:75-76 | any other MsgType gives one warning, no error and no send, with the same trace under any policy and any transport |
| MessageHandlers.MissingMsgTypeOnlyErrors | src/fix_engine/message_handlers.py:78-79 | a header without MsgType gives one error record and no send, whatever the policy and transport |
| Scenarios.LargeRequestIsQuoted | src/fix_engine/message_handlers.py:26-38 | a request QR1 for 5000 IBM is answered with one Quote to the requesting session: bid 100.25, offer 0, quantity 5000, identifiers echoed, then the sent record |
| Scenarios.SmallRequestIsDeclined | src/fix_engine/message_handlers.py:39-40 | a request QR2 for 200 AAPL sends nothing and logs the not-pursued record naming QR2 |
| Scenarios.NewOrderSingleIsUnhandled | src/fix_engine/message_handlers.py:75-76 | a NewOrderSingle, whatever its body, gives only the warning naming type D |
| Scenarios.FractionalSizeIsTruncated | src/fix_engine/message_handlers.py:55 | with OrderQty read as a float, a size of 1000.5 is truncated to 1000 and declined |
| Scenarios.MalformedSizeIsAnError | src/fix_engine/message_handlers.py:44-45 | an OrderQty of "5k" ends in the single generic error record carrying the conversion error, and nothing is sent |
| FixService.OnCreate | src/fix_engine/fix_service.py:13-14 | session creation writes one info record naming the session and nothing else |
| FixService.OnLogon | src/fix_engine/fix_service.py:16-17 | logon writes one info record naming the session and nothing else |
| FixService.OnLogout | src/fix_engine/fix_service.py:19-20 | logout writes one info record naming the session and nothing else |
| FixService.ToAdmin | src/fix_engine/fix_service.py:22-23 | an outgoing admin message gives one debug record of that message and nothing else |
| FixService.FromAdmin | src/fix_engine/fix_service.py:25-26 | an incoming admin message gives one debug record of that message and nothing else |
| FixService.ToApp | src/fix_engine/fix_service.py:28-31 | an outgoing application message gives two debug records of that message and nothing else; nothing is built or sent |
| FixService.LifecycleNeverSends | src/fix_engine/fix_service.py:13-30 | none of the six lifecycle callbacks sends a message |
| FixService.FromApp | src/fix_engine/fix_service.py:33-43 | although only FieldNotFound is caught, no exception escapes, and the trace is one debug record of the message followed by exactly what the dispatcher `handle_message` produces, with each `Sent` event standing for the whole `sendToTarget` call |
| FixService.FromAppSendsOnlyQuotes | src/fix_engine/fix_service.py:33-43 | the live path sends at most one message, and only for a QuoteRequest; any other type gives one warning and no send; a missing MsgType gives one error and no send |

## Left out

- `start_fix_service` (src/fix_engine/fix_service.py:45-74): session settings, file store and log factories, the socket initiator and the busy loop are process lifecycle and I/O.
- The QuickFIX session layer: sequence numbers, logon, heartbeats, resend, and wire encoding and decoding. Inbound messages arrive already parsed into tag maps. The callbacks the library makes from inside `sendToTarget` are folded into the `Sent` event, as the next line says.
- FixService.FromApp: a `Sent` event stands for the whole `sendToTarget` call. QuickFIX calls `toApp` (src/fix_engine/fix_service.py:28-30) synchronously inside that call, so the program writes the two debug records of `FixService.ToApp` before "QuoteResponse sent" (src/fix_engine/message_handlers.py:38). The model's traces do not show those two records, and "immediately after a successful send" in `MessageHandlers.SentRecordFollowsSend` means after the whole call.
- `sendToTarget` returns a boolean that the handler ignores. The model keeps only whether the call raised. A call that returned, with either answer, is recorded as `Sent`.
- FIX 4.4 puts Symbol and OrderQty of a QuoteRequest inside the NoRelatedSym repeating group. The source reads them from the top level of the body, and the model does the same. Repeating groups are not modelled.
- `TransactTime()` reads the wall clock. `CreateOrder` takes the clock reading as its `now` parameter.
- Binary floating point: prices and quantities are exact reals, so float rounding is not modelled. The FIX float syntax never produces NaN.
- FixDecimal.ParseFloatWholePart: states the bounds and the truncation of the exact decimal value, not of the binary64 value the library converts to. Rounding to the nearest double can cross an integer: "1000.99999999999999" converts to 1001.0, whose `int()` is 1001, not the 1000 its whole digits denote.
- MessageHandlers.QuoteDecidedByWholeDigits: holds for the exact decimal value only. The program quotes "1000.99999999999999", because the library rounds it to 1001.0 and `int()` at src/fix_engine/message_handlers.py:55 gives 1001; the model declines it. Only texts whose fraction digits bring them within double rounding of the next integer differ.
- FixDecimal.ParseFloat: does not model overflow to infinity. A digit string beyond the double range, such as 1 followed by 400 zeros, is a FIX float and converts to infinity in the library; `int()` at src/fix_engine/message_handlers.py:55 then raises OverflowError, and :44-45 logs one error. The model converts it to the exact large number, so `MessageHandlers.Handle` sends a Quote for it instead.
- MessageHandlers.ExtractQuoteRequest: assumes `getField` (src/fix_engine/message_handlers.py:18-21) yields the field's typed value, so OrderQty arrives as a float. The source does not show this. If it yields the wire string, `int()` at :55 raises ValueError on any text with a point, such as "1000.5", and :44-45 log one error instead of declining. A whole-number text such as "5000" would pass :55, but the same string then reaches `fix.OrderQty(quantity)` at src/fix_engine/message_factory.py:31 (through src/fix_engine/message_handlers.py:34), a float field's constructor; the source does not settle whether that accepts a string, and if it raises, :44-45 log one error and no Quote is sent under this reading either. If `getField` yields the field object itself, `int()` raises TypeError on every complete request, and no Quote is ever sent. The typed-float reading is thus the one under which the program certainly answers.
- Log text formatting: a record keeps only its level and the identifier or message it reports.
- The generic `except Exception` of `handle_message` (src/fix_engine/message_handlers.py:80-81) is modelled, but nothing reaches it, because the quote handler raises nothing. An exception from the logging library itself is not modelled.
- src/utils/config_loader.py, src/utils/logger.py and src/utils/error_handling.py: configuration and logging set-up, and exception declarations, with no decision logic.
- Python's dynamic typing: the builders take typed arguments. Passing a value of the wrong Python type to a QuickFIX field constructor, which would raise, is not modelled.
