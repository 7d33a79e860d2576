/** Inbound dispatch and the quote request handler.

    `HandleMessage` reads the header MsgType and routes a QuoteRequest to
    `Handle`; `Handle` makes one pass over a QuoteRequest: log, extract four
    fields, ask the quoting policy, then either build and send a Quote or
    decline, turning every exception into one error record. Sending goes
    through a `Transport`, the session layer's `sendToTarget`. */
module MessageHandlers {
  import opened Wrappers
  import opened FixTags
  import opened FixMessage
  import opened Trace
  import FixDecimal
  import MessageFactory

  /** The four fields a QuoteRequest must carry, OrderQty already converted. */
  datatype QuoteRequest = QuoteRequest(quoteReqId: string, symbol: string, securityId: string, orderQty: real)

  /** Whether to answer a quote request, and at which bid price. */
  datatype Decision = Decision(shouldQuote: bool, bidPx: real)

  /** A quoting rule: symbol, SecurityID and requested size to a decision. */
  type Policy = (string, string, real) -> Decision

  /** Hands a message to the session layer; false when the session is gone and
      the session layer raised instead. */
  type Transport = (Outbound, SessionId) -> bool

  /** Where the dispatcher sends a message. */
  datatype Route = RouteQuoteRequest | RouteUnhandled(msgType: string) | RouteMissingMsgType

  const QuoteSizeThreshold: int := 1000
  const FixedBidPx: real := 100.25

  /** The quoting rule in force: quote at the fixed bid price when the size,
      truncated to an integer, exceeds 1000, which is when the size is at least
      1001; decline otherwise. Symbol and SecurityID play no part. */
  function EvaluateQuoteRequest(symbol: string, securityId: string, size: real): (d: Decision)
    ensures d.shouldQuote <==> size >= 1001.0
    ensures d.shouldQuote ==> d.bidPx == FixedBidPx
    ensures !d.shouldQuote ==> d.bidPx == 0.0
  {
    if FixDecimal.Truncate(size) > QuoteSizeThreshold then Decision(true, FixedBidPx)
    else Decision(false, 0.0)
  }

  /** Reads QuoteReqID, Symbol, SecurityID and OrderQty from the body, in that
      order; the first absent one raises FieldNotFound. Reading takes
      `getField` to yield the field's typed value, so OrderQty, a float field,
      is converted from its text, and a text that is not a FIX float raises a
      conversion error. */
  function ExtractQuoteRequest(m: Inbound): (r: Result<QuoteRequest, Exc>)
    ensures r == Failure(FieldNotFound(QuoteReqID)) <==> QuoteReqID !in m.body
    ensures r == Failure(FieldNotFound(Symbol)) <==> QuoteReqID in m.body && Symbol !in m.body
    ensures r == Failure(FieldNotFound(SecurityID)) <==>
              QuoteReqID in m.body && Symbol in m.body && SecurityID !in m.body
    ensures r == Failure(FieldNotFound(OrderQty)) <==>
              QuoteReqID in m.body && Symbol in m.body && SecurityID in m.body && OrderQty !in m.body
    ensures r.Failure? && !r.error.FieldNotFound? ==>
              && {QuoteReqID, Symbol, SecurityID, OrderQty} <= m.body.Keys
              && r.error == FieldConvertError(OrderQty, m.body[OrderQty])
              && FixDecimal.ParseFloat(m.body[OrderQty]).None?
    ensures r.Success? <==>
              {QuoteReqID, Symbol, SecurityID, OrderQty} <= m.body.Keys
              && FixDecimal.ParseFloat(m.body[OrderQty]).Some?
    ensures r.Success? ==>
              && r.value.quoteReqId == m.body[QuoteReqID]
              && r.value.symbol == m.body[Symbol]
              && r.value.securityId == m.body[SecurityID]
              && FixDecimal.ParseFloat(m.body[OrderQty]) == Some(r.value.orderQty)
  {
    if QuoteReqID !in m.body then Failure(FieldNotFound(QuoteReqID))
    else if Symbol !in m.body then Failure(FieldNotFound(Symbol))
    else if SecurityID !in m.body then Failure(FieldNotFound(SecurityID))
    else if OrderQty !in m.body then Failure(FieldNotFound(OrderQty))
    else
      match FixDecimal.ParseFloat(m.body[OrderQty])
      case None => Failure(FieldConvertError(OrderQty, m.body[OrderQty]))
      case Some(size) =>
        Success(QuoteRequest(m.body[QuoteReqID], m.body[Symbol], m.body[SecurityID], size))
  }

  /** The Quote answering `req` under decision `d`: QuoteID is the request's
      QuoteReqID, the offer side is zero. */
  function QuoteFor(req: QuoteRequest, d: Decision): Outbound {
    MessageFactory.CreateQuoteResponse(req.quoteReqId, d.bidPx, 0.0, req.symbol, req.securityId, req.orderQty)
  }

  /** The `try` block of the handler: what it logs and sends before it returns
      or raises. */
  function HandleAttempt(policy: Policy, m: Inbound, session: SessionId, transport: Transport): Outcome {
    var opening := [Log(Info, HandlingQuoteRequest)];
    match ExtractQuoteRequest(m)
    case Failure(e) => Outcome(opening, Some(e))
    case Success(req) =>
      var d := policy(req.symbol, req.securityId, req.orderQty);
      if d.shouldQuote then
        var quote := QuoteFor(req, d);
        if transport(quote, session) then
          Outcome(opening + [Sent(quote, session), Log(Info, QuoteResponseSent(req.quoteReqId))], None)
        else
          Outcome(opening, Some(SessionNotFound(session)))
      else
        Outcome(opening + [Log(Info, QuoteRequestNotPursued(req.quoteReqId))], None)
  }

  /** The quote request handler: the `try` block with both `except` clauses.
      It never raises. Every pass opens with one info record and ends in one of
      three ways: the Quote is sent to the originating session and an info
      record names the QuoteReqID (Responded); the policy declines and an info
      record names the QuoteReqID (Declined); or an exception becomes one error
      record and nothing is sent (Errored). */
  function Handle(policy: Policy, m: Inbound, session: SessionId, transport: Transport): (r: Outcome)
    ensures r.raised == None
    ensures ExtractQuoteRequest(m).Failure? && ExtractQuoteRequest(m).error.FieldNotFound? ==>
              r.trace == [Log(Info, HandlingQuoteRequest), Log(Error, QuoteFieldNotFound(ExtractQuoteRequest(m).error))]
    ensures ExtractQuoteRequest(m).Failure? && !ExtractQuoteRequest(m).error.FieldNotFound? ==>
              r.trace == [Log(Info, HandlingQuoteRequest), Log(Error, QuoteRequestFailed(ExtractQuoteRequest(m).error))]
    ensures ExtractQuoteRequest(m).Success? ==>
              var req := ExtractQuoteRequest(m).value;
              var d := policy(req.symbol, req.securityId, req.orderQty);
              && (!d.shouldQuote ==>
                    r.trace == [Log(Info, HandlingQuoteRequest), Log(Info, QuoteRequestNotPursued(req.quoteReqId))])
              && (d.shouldQuote && transport(QuoteFor(req, d), session) ==>
                    r.trace == [Log(Info, HandlingQuoteRequest), Sent(QuoteFor(req, d), session),
                                Log(Info, QuoteResponseSent(req.quoteReqId))])
              && (d.shouldQuote && !transport(QuoteFor(req, d), session) ==>
                    r.trace == [Log(Info, HandlingQuoteRequest), Log(Error, QuoteRequestFailed(SessionNotFound(session)))])
  {
    var attempt := HandleAttempt(policy, m, session, transport);
    match attempt.raised
    case None => attempt
    case Some(e) =>
      if e.FieldNotFound? then Outcome(attempt.trace + [Log(Error, QuoteFieldNotFound(e))], None)
      else Outcome(attempt.trace + [Log(Error, QuoteRequestFailed(e))], None)
  }

  /** Reads the header MsgType: a QuoteRequest goes to the quote handler, any
      other type is unhandled, and a header without MsgType cannot be routed. */
  function Classify(m: Inbound): (route: Route)
    ensures route == RouteMissingMsgType <==> MsgType !in m.header
    ensures route == RouteQuoteRequest <==> MsgType in m.header && m.header[MsgType] == MsgTypeQuoteRequest
    ensures route.RouteUnhandled? <==> MsgType in m.header && m.header[MsgType] != MsgTypeQuoteRequest
    ensures route.RouteUnhandled? ==> route.msgType == m.header[MsgType]
  {
    if MsgType !in m.header then RouteMissingMsgType
    else if m.header[MsgType] == MsgTypeQuoteRequest then RouteQuoteRequest
    else RouteUnhandled(m.header[MsgType])
  }

  /** The `try` block of the dispatcher. */
  function DispatchAttempt(policy: Policy, m: Inbound, session: SessionId, transport: Transport): Outcome {
    match Classify(m)
    case RouteMissingMsgType => Outcome([], Some(FieldNotFound(MsgType)))
    case RouteQuoteRequest => Handle(policy, m, session, transport)
    case RouteUnhandled(t) => Outcome([Log(Warning, UnhandledMessageType(t))], None)
  }

  /** The dispatcher with both `except` clauses. It never raises: a
      QuoteRequest produces exactly the trace of one run of the quote handler,
      any other type one warning naming the type, and a missing MsgType one
      error record. */
  function HandleMessage(policy: Policy, m: Inbound, session: SessionId, transport: Transport): (r: Outcome)
    ensures r.raised == None
    ensures MsgType !in m.header ==>
              r.trace == [Log(Error, MessageFieldNotFound(FieldNotFound(MsgType)))]
    ensures MsgType in m.header && m.header[MsgType] == MsgTypeQuoteRequest ==>
              r.trace == Handle(policy, m, session, transport).trace
    ensures MsgType in m.header && m.header[MsgType] != MsgTypeQuoteRequest ==>
              r.trace == [Log(Warning, UnhandledMessageType(m.header[MsgType]))]
  {
    var attempt := DispatchAttempt(policy, m, session, transport);
    match attempt.raised
    case None => attempt
    case Some(e) =>
      if e.FieldNotFound? then Outcome(attempt.trace + [Log(Error, MessageFieldNotFound(e))], None)
      else Outcome(attempt.trace + [Log(Error, MessageFailed(e))], None)
  }

  /** True when the message lacks one of the four fields a QuoteRequest needs. */
  predicate MissingQuoteField(m: Inbound) {
    !({QuoteReqID, Symbol, SecurityID, OrderQty} <= m.body.Keys)
  }

  /** One pass of the handler sends at most once and logs at most one error,
      and exactly one of the three endings happens: an error record exactly
      when extraction fails or the send raises, a Sent event exactly when the
      policy quotes and the session takes the Quote. */
  lemma HandleEndsOnce(policy: Policy, m: Inbound, session: SessionId, transport: Transport)
    ensures var r := Handle(policy, m, session, transport);
      var x := ExtractQuoteRequest(m);
      var d := if x.Success? then policy(x.value.symbol, x.value.securityId, x.value.orderQty) else Decision(false, 0.0);
      var quoted := x.Success? && d.shouldQuote;
      var delivered := quoted && transport(QuoteFor(x.value, d), session);
      && CountSends(r.trace) <= 1
      && CountLogs(r.trace, Error) <= 1
      && (CountSends(r.trace) == 1 <==> delivered)
      && (CountLogs(r.trace, Error) == 1 <==> x.Failure? || (quoted && !delivered))
      && CountSends(r.trace) + CountLogs(r.trace, Error) <= 1
  {
    var r := Handle(policy, m, session, transport);
    assert r.trace == [r.trace[0]] + r.trace[1..];
    CountsAppend([r.trace[0]], r.trace[1..]);
    if |r.trace| == 3 {
      assert r.trace[1..] == [r.trace[1]] + [r.trace[2]];
      CountsAppend([r.trace[1]], [r.trace[2]]);
    }
  }

  /** Every message the handler sends goes to the originating session and is a
      Quote whose QuoteID, Symbol and SecurityID are the request's text, whose
      quantity is the request's converted OrderQty, whose bid is the price of a
      policy that chose to quote, and whose offer is zero. */
  lemma SentQuoteEchoesRequest(policy: Policy, m: Inbound, session: SessionId, transport: Transport, i: nat)
    requires i < |Handle(policy, m, session, transport).trace|
    requires Handle(policy, m, session, transport).trace[i].Sent?
    ensures var e := Handle(policy, m, session, transport).trace[i];
      && e.session == session
      && {QuoteReqID, Symbol, SecurityID, OrderQty} <= m.body.Keys
      && FixDecimal.ParseFloat(m.body[OrderQty]).Some?
      && var size := FixDecimal.ParseFloat(m.body[OrderQty]).value;
         var d := policy(m.body[Symbol], m.body[SecurityID], size);
         && d.shouldQuote
         && MessageFactory.ReadQuote(e.msg) ==
            Some(MessageFactory.QuoteFields(m.body[QuoteReqID], d.bidPx, 0.0, m.body[Symbol], m.body[SecurityID], size))
  {
  }

  /** The "QuoteResponse sent" record is written only right after the Quote
      was handed to the session layer. */
  lemma SentRecordFollowsSend(policy: Policy, m: Inbound, session: SessionId, transport: Transport, i: nat)
    requires i < |Handle(policy, m, session, transport).trace|
    requires Handle(policy, m, session, transport).trace[i].Log?
    requires Handle(policy, m, session, transport).trace[i].note.QuoteResponseSent?
    ensures 0 < i && Handle(policy, m, session, transport).trace[i - 1].Sent?
  {
  }

  /** A declined request sends nothing and logs, after the opening record, one
      info record naming its QuoteReqID. */
  lemma DeclineSendsNothing(policy: Policy, m: Inbound, session: SessionId, transport: Transport)
    requires ExtractQuoteRequest(m).Success?
    requires var req := ExtractQuoteRequest(m).value;
             !policy(req.symbol, req.securityId, req.orderQty).shouldQuote
    ensures var r := Handle(policy, m, session, transport);
      && CountSends(r.trace) == 0
      && CountLogs(r.trace, Error) == 0
      && r.trace[|r.trace| - 1] == Log(Info, QuoteRequestNotPursued(m.body[QuoteReqID]))
  {
    HandleEndsOnce(policy, m, session, transport);
  }

  /** A request missing a required field ends in exactly one error record naming
      the first missing field and sends nothing; neither the policy nor the
      session layer is consulted, so any other policy or transport gives the same
      trace. */
  lemma MissingFieldConsultsNothing(p1: Policy, p2: Policy, m: Inbound, session: SessionId, t1: Transport, t2: Transport)
    requires MissingQuoteField(m)
    ensures var r := Handle(p1, m, session, t1);
      && r.trace == Handle(p2, m, session, t2).trace
      && CountSends(r.trace) == 0
      && CountLogs(r.trace, Error) == 1
      && r.trace[|r.trace| - 1].Log? && r.trace[|r.trace| - 1].level == Error
      && r.trace[|r.trace| - 1].note == QuoteFieldNotFound(ExtractQuoteRequest(m).error)
      && ExtractQuoteRequest(m).error.tag !in m.body
  {
    HandleEndsOnce(p1, m, session, t1);
  }

  /** With the quoting rule in force and a session that takes the message, a
      well-formed request is answered exactly when its size is at least 1001. */
  lemma SourcePolicyQuotesLargeRequests(m: Inbound, session: SessionId, transport: Transport)
    requires ExtractQuoteRequest(m).Success?
    requires forall q, s :: transport(q, s)
    ensures CountSends(Handle(EvaluateQuoteRequest, m, session, transport).trace) == 1
            <==> ExtractQuoteRequest(m).value.orderQty >= 1001.0
  {
    HandleEndsOnce(EvaluateQuoteRequest, m, session, transport);
  }

  /** Routing depends on the header MsgType alone: two messages that agree on
      it are routed alike, whatever else they carry. */
  lemma ClassifyReadsOnlyMsgType(m1: Inbound, m2: Inbound)
    requires MsgType in m1.header <==> MsgType in m2.header
    requires MsgType in m1.header ==> m1.header[MsgType] == m2.header[MsgType]
    ensures Classify(m1) == Classify(m2)
  {
  }

  /** A message of any type other than QuoteRequest gets one warning naming the
      type and nothing else: no handler runs, so neither the policy nor the
      session layer is consulted and nothing is sent. */
  lemma UnhandledTypeOnlyWarns(p1: Policy, p2: Policy, m: Inbound, session: SessionId, t1: Transport, t2: Transport)
    requires MsgType in m.header && m.header[MsgType] != MsgTypeQuoteRequest
    ensures var r := HandleMessage(p1, m, session, t1);
      && r.trace == HandleMessage(p2, m, session, t2).trace
      && CountSends(r.trace) == 0
      && CountLogs(r.trace, Warning) == 1
      && CountLogs(r.trace, Error) == 0
  {
  }

  /** A message whose header has no MsgType gets one error record and nothing
      else. */
  lemma MissingMsgTypeOnlyErrors(p1: Policy, p2: Policy, m: Inbound, session: SessionId, t1: Transport, t2: Transport)
    requires MsgType !in m.header
    ensures var r := HandleMessage(p1, m, session, t1);
      && r.trace == HandleMessage(p2, m, session, t2).trace
      && CountSends(r.trace) == 0
      && CountLogs(r.trace, Error) == 1
  {
  }

  /** A QuoteRequest-typed message is handled exactly once: the dispatcher adds
      nothing to the handler's trace, so the handler's single opening record
      appears once. */
  lemma QuoteRequestHandledOnce(policy: Policy, m: Inbound, session: SessionId, transport: Transport)
    requires MsgType in m.header && m.header[MsgType] == MsgTypeQuoteRequest
    ensures var r := HandleMessage(policy, m, session, transport);
      && |r.trace| >= 2
      && r.trace[0] == Log(Info, HandlingQuoteRequest)
      && forall i :: 1 <= i < |r.trace| ==> r.trace[i] != Log(Info, HandlingQuoteRequest)
  {
  }

  /** Under the rule in force, a converted OrderQty text is quoted exactly when
      it has no minus sign and the digits before its point denote more than
      1000; the fraction never matters. */
  lemma QuoteDecidedByWholeDigits(symbol: string, securityId: string, size: string)
    requires FixDecimal.IsFixFloat(size)
    ensures FixDecimal.AllDigits(FixDecimal.WholeDigits(size))
    ensures EvaluateQuoteRequest(symbol, securityId, FixDecimal.ParseFloat(size).value).shouldQuote <==>
            FixDecimal.Unsigned(size) == size && FixDecimal.DigitsValue(FixDecimal.WholeDigits(size)) > 1000
  {
    FixDecimal.ParseFloatWholePart(size);
  }
}
