/** What the core does to the outside world, as data: the log records it
    writes and the messages it hands to the session layer, in order, plus the
    exception a call would let escape. */
module Trace {
  import opened Wrappers
  import opened FixTags
  import opened FixMessage

  datatype Level = Debug | Info | Warning | Error

  /** Exceptions the FIX library can raise into the core. */
  datatype Exc =
    | FieldNotFound(tag: Tag)                           // a getField on an absent tag
    | FieldConvertError(tag: Tag, text: string)         // a field text that does not convert to its type
    | SessionNotFound(session: SessionId)               // sendToTarget to a session that is gone

  /** The log statements of the core, one constructor per statement, carrying
      the identifier the statement reports. */
  datatype Note =
    | SessionCreated(session: SessionId)
    | SessionLoggedOn(session: SessionId)
    | SessionLoggedOut(session: SessionId)
    | AdminOutgoing(outbound: Outbound)
    | AdminIncoming(inbound: Inbound)
    | AppOutgoing(outbound: Outbound)
    | AppSent(outbound: Outbound)
    | AppIncoming(inbound: Inbound)
    | HandlingQuoteRequest
    | QuoteResponseSent(quoteReqId: string)
    | QuoteRequestNotPursued(quoteReqId: string)
    | QuoteFieldNotFound(exc: Exc)
    | QuoteRequestFailed(exc: Exc)
    | UnhandledMessageType(msgType: string)
    | MessageFieldNotFound(exc: Exc)
    | MessageFailed(exc: Exc)

  datatype Event =
    | Log(level: Level, note: Note)
    | Sent(msg: Outbound, session: SessionId)

  /** The events a call produced, and the exception it raised, if any. */
  datatype Outcome = Outcome(trace: seq<Event>, raised: Option<Exc>)

  function CountSends(trace: seq<Event>): nat
    decreases |trace|
  {
    if trace == [] then 0 else (if trace[0].Sent? then 1 else 0) + CountSends(trace[1..])
  }

  function CountLogs(trace: seq<Event>, level: Level): nat
    decreases |trace|
  {
    if trace == [] then 0
    else (if trace[0].Log? && trace[0].level == level then 1 else 0) + CountLogs(trace[1..], level)
  }

  /** Counting sends and log records distributes over the concatenation of traces. */
  lemma {:induction false} CountsAppend(a: seq<Event>, b: seq<Event>)
    ensures CountSends(a + b) == CountSends(a) + CountSends(b)
    ensures forall level :: CountLogs(a + b, level) == CountLogs(a, level) + CountLogs(b, level)
    decreases |a|
  {
    if a != [] {
      assert (a + b)[1..] == a[1..] + b;
      CountsAppend(a[1..], b);
    } else {
      assert a + b == b;
    }
  }

  /** A trace with no Sent event sends nothing, and a trace with no record of a
      level logs nothing at that level. */
  lemma {:induction false} CountsZero(trace: seq<Event>)
    ensures CountSends(trace) == 0 <==> forall i :: 0 <= i < |trace| ==> !trace[i].Sent?
    ensures forall level :: CountLogs(trace, level) == 0 <==>
                            forall i :: 0 <= i < |trace| ==> !(trace[i].Log? && trace[i].level == level)
    decreases |trace|
  {
    if trace != [] {
      CountsZero(trace[1..]);
      forall i | 1 <= i < |trace| ensures trace[i] == trace[1..][i - 1] {
      }
    }
  }
}
