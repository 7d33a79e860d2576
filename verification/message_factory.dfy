/** The message factory: pure constructors for the outbound Quote,
    NewOrderSingle and ExecutionReport messages, each paired with a reader that
    recovers the arguments from the built tag map. */
module MessageFactory {
  import opened Wrappers
  import opened FixTags
  import opened FixMessage

  /** The six values a Quote carries. */
  datatype QuoteFields = QuoteFields(
    quoteId: string, bidPx: real, offerPx: real, symbol: string, securityId: string, quantity: real)

  /** The values a NewOrderSingle carries. */
  datatype OrderFields = OrderFields(
    clOrdId: string, side: char, symbol: string, securityId: string, orderQty: real, price: real,
    ordType: char, transactTime: nat, handlInst: char)

  /** The values an ExecutionReport carries. */
  datatype ExecutionReportFields = ExecutionReportFields(
    clOrdId: string, execId: string, execType: char, ordStatus: char, symbol: string, securityId: string,
    lastQty: real, lastPx: real, leavesQty: real, cumQty: real)

  const QuoteTags: set<Tag> := {QuoteID, BidPx, OfferPx, Symbol, SecurityID, OrderQty}
  const OrderTags: set<Tag> :=
    {ClOrdID, Side, Symbol, SecurityID, OrderQty, Price, OrdType, TransactTime, HandlInst}
  const ExecutionReportTags: set<Tag> :=
    {ClOrdID, ExecID, ExecType, OrdStatus, Symbol, SecurityID, LastQty, LastPx, LeavesQty, CumQty}

  /** Reads a Quote back from its tag map; None unless the message is a Quote
      whose six fields are present with the right kinds of value. */
  function ReadQuote(m: Outbound): Option<QuoteFields> {
    var b := m.body;
    if && m.msgType == MsgTypeQuote
       && QuoteTags <= b.Keys
       && b[QuoteID].Text? && b[BidPx].Decimal? && b[OfferPx].Decimal?
       && b[Symbol].Text? && b[SecurityID].Text? && b[OrderQty].Decimal?
    then
      Some(QuoteFields(b[QuoteID].text, b[BidPx].amount, b[OfferPx].amount,
                       b[Symbol].text, b[SecurityID].text, b[OrderQty].amount))
    else None
  }

  /** Reads a NewOrderSingle back from its tag map. */
  function ReadOrder(m: Outbound): Option<OrderFields> {
    var b := m.body;
    if && m.msgType == MsgTypeNewOrderSingle
       && OrderTags <= b.Keys
       && b[ClOrdID].Text? && b[Side].Code? && b[Symbol].Text? && b[SecurityID].Text?
       && b[OrderQty].Decimal? && b[Price].Decimal? && b[OrdType].Code?
       && b[TransactTime].Timestamp? && b[HandlInst].Code?
    then
      Some(OrderFields(b[ClOrdID].text, b[Side].code, b[Symbol].text, b[SecurityID].text,
                       b[OrderQty].amount, b[Price].amount, b[OrdType].code,
                       b[TransactTime].instant, b[HandlInst].code))
    else None
  }

  /** Reads an ExecutionReport back from its tag map. */
  function ReadExecutionReport(m: Outbound): Option<ExecutionReportFields> {
    var b := m.body;
    if && m.msgType == MsgTypeExecutionReport
       && ExecutionReportTags <= b.Keys
       && b[ClOrdID].Text? && b[ExecID].Text? && b[ExecType].Code? && b[OrdStatus].Code?
       && b[Symbol].Text? && b[SecurityID].Text? && b[LastQty].Decimal? && b[LastPx].Decimal?
       && b[LeavesQty].Decimal? && b[CumQty].Decimal?
    then
      Some(ExecutionReportFields(b[ClOrdID].text, b[ExecID].text, b[ExecType].code, b[OrdStatus].code,
                                 b[Symbol].text, b[SecurityID].text, b[LastQty].amount, b[LastPx].amount,
                                 b[LeavesQty].amount, b[CumQty].amount))
    else None
  }

  /** The quantity accounting FIX asks of an ExecutionReport: what is still
      open plus what has been filled is the whole quantity, and a filled order
      has nothing left open. */
  predicate QuantitiesAccounted(e: ExecutionReportFields) {
    && e.leavesQty + e.cumQty == e.lastQty
    && (e.ordStatus == OrdStatusFilled ==> e.leavesQty == 0.0)
  }

  /** A Quote answering a quote request: exactly the six fields, each carrying
      its argument unchanged. */
  function CreateQuoteResponse(quoteId: string, bidPx: real, offerPx: real, symbol: string,
                               securityId: string, quantity: real): (r: Outbound)
    ensures ReadQuote(r) == Some(QuoteFields(quoteId, bidPx, offerPx, symbol, securityId, quantity))
    ensures r.body.Keys == QuoteTags
  {
    var m := Outbound(MsgTypeQuote, map[]);
    var m := SetField(m, QuoteID, Text(quoteId));
    var m := SetField(m, BidPx, Decimal(bidPx));
    var m := SetField(m, OfferPx, Decimal(offerPx));
    var m := SetField(m, Symbol, Text(symbol));
    var m := SetField(m, SecurityID, Text(securityId));
    SetField(m, OrderQty, Decimal(quantity))
  }

  /** A NewOrderSingle: the caller's fields unchanged, the order type Limit
      unless one is given, the clock reading `now` as TransactTime, and
      HandlInst always manual-order-best-execution. */
  function CreateOrder(orderId: string, side: char, symbol: string, securityId: string, orderQty: real,
                       price: real, now: nat, orderType: char := OrdTypeLimit): (r: Outbound)
    ensures ReadOrder(r) == Some(OrderFields(orderId, side, symbol, securityId, orderQty, price, orderType,
                                             now, HandlInstManualOrderBestExecution))
    ensures r.body.Keys == OrderTags
  {
    var m := Outbound(MsgTypeNewOrderSingle, map[]);
    var m := SetField(m, ClOrdID, Text(orderId));
    var m := SetField(m, Side, Code(side));
    var m := SetField(m, Symbol, Text(symbol));
    var m := SetField(m, SecurityID, Text(securityId));
    var m := SetField(m, OrderQty, Decimal(orderQty));
    var m := SetField(m, Price, Decimal(price));
    var m := SetField(m, OrdType, Code(orderType));
    var m := SetField(m, TransactTime, Timestamp(now));
    SetField(m, HandlInst, Code(HandlInstManualOrderBestExecution))
  }

  /** An ExecutionReport: identifiers, codes and LastPx unchanged, LastQty the
      quantity, and LeavesQty/CumQty computed from OrdStatus so that a Filled
      order shows everything cumulated and any other status shows everything
      still open. */
  function CreateExecutionReport(orderId: string, execId: string, execType: char, ordStatus: char,
                                 symbol: string, securityId: string, quantity: real,
                                 lastPx: real): (r: Outbound)
    ensures ReadExecutionReport(r).Some?
    ensures var e := ReadExecutionReport(r).value;
      && e.clOrdId == orderId && e.execId == execId && e.execType == execType
      && e.ordStatus == ordStatus && e.symbol == symbol && e.securityId == securityId
      && e.lastQty == quantity && e.lastPx == lastPx
    ensures var e := ReadExecutionReport(r).value;
      && (ordStatus == OrdStatusFilled ==> e.leavesQty == 0.0 && e.cumQty == quantity)
      && (ordStatus != OrdStatusFilled ==> e.leavesQty == quantity && e.cumQty == 0.0)
    ensures r.body.Keys == ExecutionReportTags
  {
    var filled := ordStatus == OrdStatusFilled;
    BuildExecutionReport(orderId, execId, execType, ordStatus, symbol, securityId, quantity, lastPx,
                         if filled then 0.0 else quantity, if filled then quantity else 0.0)
  }

  /** The ten `setField` calls of an ExecutionReport, in the order the factory
      makes them, with both quantities already decided. */
  function BuildExecutionReport(orderId: string, execId: string, execType: char, ordStatus: char,
                                symbol: string, securityId: string, quantity: real, lastPx: real,
                                leavesQty: real, cumQty: real): (r: Outbound)
    ensures ReadExecutionReport(r) == Some(ExecutionReportFields(orderId, execId, execType, ordStatus,
                                                                 symbol, securityId, quantity, lastPx,
                                                                 leavesQty, cumQty))
    ensures r.body.Keys == ExecutionReportTags
  {
    var m := Outbound(MsgTypeExecutionReport, map[]);
    var m := SetField(m, ClOrdID, Text(orderId));
    var m := SetField(m, ExecID, Text(execId));
    var m := SetField(m, ExecType, Code(execType));
    var m := SetField(m, OrdStatus, Code(ordStatus));
    var m := SetField(m, Symbol, Text(symbol));
    var m := SetField(m, SecurityID, Text(securityId));
    var m := SetField(m, LastQty, Decimal(quantity));
    var m := SetField(m, LastPx, Decimal(lastPx));
    var m := SetField(m, LeavesQty, Decimal(leavesQty));
    SetField(m, CumQty, Decimal(cumQty))
  }

  /** Every ExecutionReport the factory builds satisfies the FIX quantity
      accounting, whatever its arguments. */
  lemma ExecutionReportAccounted(orderId: string, execId: string, execType: char, ordStatus: char,
                                 symbol: string, securityId: string, quantity: real, lastPx: real)
    ensures
      var r := CreateExecutionReport(orderId, execId, execType, ordStatus, symbol, securityId, quantity, lastPx);
      ReadExecutionReport(r).Some? && QuantitiesAccounted(ReadExecutionReport(r).value)
  {
  }

  /** A Quote carrying exactly the six fields is the one the factory builds
      from what it reads back: the reader and the builder are inverse. */
  lemma QuoteDeterminedByFields(m: Outbound)
    requires m.body.Keys == QuoteTags
    requires ReadQuote(m).Some?
    ensures
      var q := ReadQuote(m).value;
      CreateQuoteResponse(q.quoteId, q.bidPx, q.offerPx, q.symbol, q.securityId, q.quantity) == m
  {
  }

  /** Leaving out the order type gives a Limit order. */
  lemma OrderTypeDefaultsToLimit(orderId: string, side: char, symbol: string, securityId: string,
                                 orderQty: real, price: real, now: nat)
    ensures ReadOrder(CreateOrder(orderId, side, symbol, securityId, orderQty, price, now)).value.ordType
            == OrdTypeLimit
  {
  }
}
