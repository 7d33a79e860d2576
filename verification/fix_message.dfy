/** FIX application messages as immutable tag maps.

    An inbound message is what the session layer delivers: a header and a body,
    each mapping a tag to the field's wire text. An outbound message is what the
    message factory builds: a message type and a body mapping each tag to a
    typed value. */
module FixMessage {
  import opened FixTags

  /** The typed value of an outbound field. Floats of the FIX library are exact
      reals here; a timestamp is an opaque clock reading. */
  datatype Value =
    | Text(text: string)
    | Decimal(amount: real)
    | Code(code: char)
    | Timestamp(instant: nat)

  /** Identity of the counterparty session a message came from or goes to. */
  datatype SessionId = SessionId(beginString: string, senderCompId: string, targetCompId: string)

  datatype Inbound = Inbound(header: map<Tag, string>, body: map<Tag, string>)

  datatype Outbound = Outbound(msgType: string, body: map<Tag, Value>)

  /** Adds a field to a message body, replacing any earlier value of the tag. */
  function SetField(m: Outbound, tag: Tag, v: Value): Outbound {
    m.(body := m.body[tag := v])
  }
}
