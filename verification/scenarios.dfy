/** Worked examples of the dispatch path with the quoting rule in force and a
    session layer that takes every message. */
module Scenarios {
  import opened Wrappers
  import opened FixTags
  import opened FixMessage
  import opened Trace
  import FixDecimal
  import MessageFactory
  import opened MessageHandlers

  const Counterparty := SessionId("FIX.4.4", "BIDDER", "DEALER")

  function AcceptAll(msg: Outbound, session: SessionId): bool {
    true
  }

  function QuoteRequestMessage(id: string, symbol: string, securityId: string, size: string): Inbound {
    Inbound(map[MsgType := MsgTypeQuoteRequest],
            map[QuoteReqID := id, Symbol := symbol, SecurityID := securityId, OrderQty := size])
  }

  /** A request for 5000 IBM is answered with one Quote to the requesting
      session: bid 100.25, offer 0, quantity 5000, identifiers echoed. */
  lemma LargeRequestIsQuoted()
    ensures
      var r := HandleMessage(EvaluateQuoteRequest, QuoteRequestMessage("QR1", "IBM", "US4592001014", "5000"),
                             Counterparty, AcceptAll);
      && r.raised == None
      && |r.trace| == 3
      && r.trace[0] == Log(Info, HandlingQuoteRequest)
      && r.trace[1].Sent? && r.trace[1].session == Counterparty
      && MessageFactory.ReadQuote(r.trace[1].msg) ==
         Some(MessageFactory.QuoteFields("QR1", 100.25, 0.0, "IBM", "US4592001014", 5000.0))
      && r.trace[2] == Log(Info, QuoteResponseSent("QR1"))
  {
    SizeTextConverts5000();
    var m := QuoteRequestMessage("QR1", "IBM", "US4592001014", "5000");
    RequestExtracted("QR1", "IBM", "US4592001014", "5000", 5000.0);
    var req := QuoteRequest("QR1", "IBM", "US4592001014", 5000.0);
    var d := EvaluateQuoteRequest("IBM", "US4592001014", 5000.0);
    assert d == Decision(true, 100.25);
    assert Handle(EvaluateQuoteRequest, m, Counterparty, AcceptAll).trace ==
           [Log(Info, HandlingQuoteRequest), Sent(QuoteFor(req, d), Counterparty), Log(Info, QuoteResponseSent("QR1"))];
  }

  /** A request fixture whose size converts is read back field for field. */
  lemma RequestExtracted(id: string, symbol: string, securityId: string, size: string, n: real)
    requires FixDecimal.ParseFloat(size) == Some(n)
    ensures ExtractQuoteRequest(QuoteRequestMessage(id, symbol, securityId, size)) ==
            Success(QuoteRequest(id, symbol, securityId, n))
  {
  }

  /** A request for 200 AAPL is declined: nothing is sent and one info record
      names the request. */
  lemma SmallRequestIsDeclined()
    ensures
      var r := HandleMessage(EvaluateQuoteRequest, QuoteRequestMessage("QR2", "AAPL", "US0378331005", "200"),
                             Counterparty, AcceptAll);
      r.trace == [Log(Info, HandlingQuoteRequest), Log(Info, QuoteRequestNotPursued("QR2"))]
  {
    SizeTextConverts200();
    RequestExtracted("QR2", "AAPL", "US0378331005", "200", 200.0);
  }

  /** A NewOrderSingle is not handled: one warning, nothing sent. */
  lemma NewOrderSingleIsUnhandled(body: map<Tag, string>)
    ensures
      var r := HandleMessage(EvaluateQuoteRequest, Inbound(map[MsgType := MsgTypeNewOrderSingle], body),
                             Counterparty, AcceptAll);
      r.trace == [Log(Warning, UnhandledMessageType("D"))]
  {
  }

  /** With OrderQty read as a float, `int()` truncates it before the
      comparison, so 1000.5 is declined although it exceeds 1000. */
  lemma FractionalSizeIsTruncated()
    ensures
      var r := HandleMessage(EvaluateQuoteRequest, QuoteRequestMessage("QR3", "IBM", "US4592001014", "1000.5"),
                             Counterparty, AcceptAll);
      r.trace == [Log(Info, HandlingQuoteRequest), Log(Info, QuoteRequestNotPursued("QR3"))]
  {
    FractionalSizeConverts();
    RequestExtracted("QR3", "IBM", "US4592001014", "1000.5", 1000.5);
  }

  /** The text 1000.5 converts to the exact value 1000.5. */
  lemma FractionalSizeConverts()
    ensures FixDecimal.ParseFloat("1000.5") == Some(1000.5)
  {
    FractionalTextParts();
    FixDecimal.ParseFloatOfParts("1000.5", false, 1000, 5, 1);
    assert FixDecimal.Pow10(1) == 10;
  }

  /** The text 1000.5 is a FIX float with whole digits 1000 and fraction digit 5. */
  lemma FractionalTextParts()
    ensures FixDecimal.IsFixFloat("1000.5") && FixDecimal.Unsigned("1000.5") == "1000.5"
    ensures FixDecimal.AllDigits(FixDecimal.WholeDigits("1000.5"))
    ensures FixDecimal.AllDigits(FixDecimal.FracDigits("1000.5"))
    ensures FixDecimal.DigitsValue(FixDecimal.WholeDigits("1000.5")) == 1000
    ensures FixDecimal.DigitsValue(FixDecimal.FracDigits("1000.5")) == 5
    ensures |FixDecimal.FracDigits("1000.5")| == 1
  {
    var text := "1000.5";
    assert FixDecimal.Unsigned(text) == text;
    assert FixDecimal.DotIndex(text) == 4;
    assert text[..4] == "1000" && text[5..] == "5";
    ThousandText();
    assert FixDecimal.NatText(5) == "5";
    FixDecimal.PointedIsFixFloat(text, 4);
  }

  /** The text 5000 converts to 5000. */
  lemma SizeTextConverts5000()
    ensures FixDecimal.ParseFloat("5000") == Some(5000.0)
  {
    assert FixDecimal.NatText(5) == "5";
    assert FixDecimal.NatText(50) == "50";
    assert FixDecimal.NatText(500) == "500";
    assert FixDecimal.IntText(5000) == "5000";
    FixDecimal.ParseFloatIntText(5000);
  }

  /** The text 200 converts to 200. */
  lemma SizeTextConverts200()
    ensures FixDecimal.ParseFloat("200") == Some(200.0)
  {
    assert FixDecimal.NatText(2) == "2";
    assert FixDecimal.NatText(20) == "20";
    assert FixDecimal.IntText(200) == "200";
    FixDecimal.ParseFloatIntText(200);
  }

  lemma ThousandText()
    ensures FixDecimal.NatText(1000) == "1000"
  {
  }

  /** A size that is not a FIX float ends in one error record and no Quote. */
  lemma MalformedSizeIsAnError()
    ensures
      var r := HandleMessage(EvaluateQuoteRequest, QuoteRequestMessage("QR4", "IBM", "US4592001014", "5k"),
                             Counterparty, AcceptAll);
      r.trace == [Log(Info, HandlingQuoteRequest),
                  Log(Error, QuoteRequestFailed(FieldConvertError(OrderQty, "5k")))]
  {
    assert FixDecimal.Unsigned("5k")[1] == 'k';
  }
}
