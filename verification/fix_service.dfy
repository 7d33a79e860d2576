/** The application callbacks the FIX session layer invokes. The six session
    lifecycle callbacks only write log records; `FromApp` is the live path that
    dispatches inbound application messages. */
module FixService {
  import opened Wrappers
  import opened FixTags
  import opened FixMessage
  import opened Trace
  import opened MessageHandlers

  /** A trace of log records only, all at the given level, none of them the
      quote handler's. */
  predicate OnlyLogsAt(trace: seq<Event>, level: Level) {
    && (forall i :: 0 <= i < |trace| ==> trace[i].Log? && trace[i].level == level)
    && (forall i :: 0 <= i < |trace| ==> trace[i] != Log(Info, HandlingQuoteRequest))
  }

  function OnCreate(session: SessionId): (trace: seq<Event>)
    ensures OnlyLogsAt(trace, Info) && |trace| == 1
    ensures trace[0].note.SessionCreated? && trace[0].note.session == session
  {
    [Log(Info, SessionCreated(session))]
  }

  function OnLogon(session: SessionId): (trace: seq<Event>)
    ensures OnlyLogsAt(trace, Info) && |trace| == 1
    ensures trace[0].note.SessionLoggedOn? && trace[0].note.session == session
  {
    [Log(Info, SessionLoggedOn(session))]
  }

  function OnLogout(session: SessionId): (trace: seq<Event>)
    ensures OnlyLogsAt(trace, Info) && |trace| == 1
    ensures trace[0].note.SessionLoggedOut? && trace[0].note.session == session
  {
    [Log(Info, SessionLoggedOut(session))]
  }

  function ToAdmin(msg: Outbound, session: SessionId): (trace: seq<Event>)
    ensures OnlyLogsAt(trace, Debug) && |trace| == 1
    ensures trace[0].note.AdminOutgoing? && trace[0].note.outbound == msg
  {
    [Log(Debug, AdminOutgoing(msg))]
  }

  function FromAdmin(msg: Inbound, session: SessionId): (trace: seq<Event>)
    ensures OnlyLogsAt(trace, Debug) && |trace| == 1
    ensures trace[0].note.AdminIncoming? && trace[0].note.inbound == msg
  {
    [Log(Debug, AdminIncoming(msg))]
  }

  /** Logs the outgoing application message twice, before the session layer
      sends it; nothing is built or sent here. */
  function ToApp(msg: Outbound, session: SessionId): (trace: seq<Event>)
    ensures OnlyLogsAt(trace, Debug) && |trace| == 2
    ensures trace[0].note.AppOutgoing? && trace[0].note.outbound == msg
    ensures trace[1].note.AppSent? && trace[1].note.outbound == msg
  {
    [Log(Debug, AppOutgoing(msg)), Log(Debug, AppSent(msg))]
  }

  /** Inbound application messages: one debug record of the message, then the
      dispatch of `HandleMessage`. Only FieldNotFound is caught here, yet no
      exception escapes, because the quote handler raises none; so `FromApp`
      behaves exactly as `HandleMessage` after its opening record. */
  function FromApp(policy: Policy, m: Inbound, session: SessionId, transport: Transport): (r: Outcome)
    ensures r.raised == None
    ensures r.trace == [Log(Debug, AppIncoming(m))] + HandleMessage(policy, m, session, transport).trace
  {
    var opening := [Log(Debug, AppIncoming(m))];
    var attempt := DispatchAttempt(policy, m, session, transport);
    match attempt.raised
    case Some(FieldNotFound(t)) =>
      Outcome(opening + attempt.trace + [Log(Error, MessageFieldNotFound(FieldNotFound(t)))], None)
    case _ => Outcome(opening + attempt.trace, attempt.raised)
  }

  /** Whatever `FromApp` receives, it sends at most one message, and only the
      Quote of a QuoteRequest-typed message; a message of another type, or
      without MsgType, is never handed to the quote handler. */
  lemma FromAppSendsOnlyQuotes(policy: Policy, m: Inbound, session: SessionId, transport: Transport)
    ensures var r := FromApp(policy, m, session, transport);
      && CountSends(r.trace) <= 1
      && (CountSends(r.trace) == 1 ==> MsgType in m.header && m.header[MsgType] == MsgTypeQuoteRequest)
      && (MsgType in m.header && m.header[MsgType] != MsgTypeQuoteRequest ==>
            CountSends(r.trace) == 0 && CountLogs(r.trace, Warning) == 1)
      && (MsgType !in m.header ==> CountSends(r.trace) == 0 && CountLogs(r.trace, Error) == 1)
  {
    var inner := HandleMessage(policy, m, session, transport).trace;
    CountsAppend([Log(Debug, AppIncoming(m))], inner);
    if MsgType in m.header && m.header[MsgType] == MsgTypeQuoteRequest {
      HandleEndsOnce(policy, m, session, transport);
    }
  }

  /** None of the six lifecycle callbacks sends or dispatches anything. */
  lemma LifecycleNeverSends(session: SessionId, out: Outbound, inb: Inbound)
    ensures CountSends(OnCreate(session)) == 0 && CountSends(OnLogon(session)) == 0
    ensures CountSends(OnLogout(session)) == 0 && CountSends(ToAdmin(out, session)) == 0
    ensures CountSends(FromAdmin(inb, session)) == 0 && CountSends(ToApp(out, session)) == 0
  {
    CountsZero(OnCreate(session));
    CountsZero(OnLogon(session));
    CountsZero(OnLogout(session));
    CountsZero(ToAdmin(out, session));
    CountsZero(FromAdmin(inb, session));
    CountsZero(ToApp(out, session));
  }
}
