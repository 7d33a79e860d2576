/** FIX 4.4 field tags and enumerated field values that the quote-responder core
    reads or writes. */
module FixTags {

  type Tag = nat

  const ClOrdID: Tag := 11
  const CumQty: Tag := 14
  const ExecID: Tag := 17
  const HandlInst: Tag := 21
  const LastPx: Tag := 31
  const LastQty: Tag := 32
  const MsgType: Tag := 35
  const OrderQty: Tag := 38
  const OrdStatus: Tag := 39
  const OrdType: Tag := 40
  const Price: Tag := 44
  const SecurityID: Tag := 48
  const Side: Tag := 54
  const Symbol: Tag := 55
  const TransactTime: Tag := 60
  const QuoteID: Tag := 117
  const QuoteReqID: Tag := 131
  const BidPx: Tag := 132
  const OfferPx: Tag := 133
  const ExecType: Tag := 150
  const LeavesQty: Tag := 151

  // Values of MsgType (tag 35)
  const MsgTypeExecutionReport: string := "8"
  const MsgTypeNewOrderSingle: string := "D"
  const MsgTypeQuoteRequest: string := "R"
  const MsgTypeQuote: string := "S"

  // OrdStatus (tag 39) = Filled
  const OrdStatusFilled: char := '2'
  // OrdType (tag 40) = Limit
  const OrdTypeLimit: char := '2'
  // HandlInst (tag 21) = Manual order, best execution
  const HandlInstManualOrderBestExecution: char := '3'
}
