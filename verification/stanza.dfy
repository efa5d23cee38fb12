/**
 * The stanza-level values the bot's inbound loop sees and produces. Wire
 * parsing (`Message::try_from`) and body selection by language
 * (`get_best_body`) are done by the protocol library; their results arrive
 * here already decoded.
 */
module Stanzas {
  import opened Options
  import opened Jids

  /** The `type` attribute of a message stanza (RFC 6121 section 5.2.2). */
  datatype MessageType = Chat | Error | Groupchat | Headline | Normal

  /**
   * An inbound stanza after the library's decode step: either a message with
   * its type and its best-matching body (if any), or anything that does not
   * decode as a message (presence, iq, malformed input).
   */
  datatype Stanza =
    | Message(kind: MessageType, body: Option<string>)
    | NotMessage

  /** What the transport stream yields, in wire order. */
  datatype TransportEvent =
    | Disconnected
    | Online(boundJid: Jid, resumed: bool)
    | Received(stanza: Stanza)

  /**
   * The `type` of a presence stanza (RFC 6121 section 4.7.1); `Available`
   * is the absent attribute, written `Type::None` by the library.
   */
  datatype PresenceType =
    | Available | Error | Probe | Subscribe | Subscribed
    | Unavailable | Unsubscribe | Unsubscribed

  /** A child element of a presence; `MucJoin` is XEP-0045's empty `<x xmlns='…muc'/>`. */
  datatype Payload = MucJoin | Other(name: string)

  datatype Presence = Presence(
    kind: PresenceType,
    to: Option<Jid>,
    from: Option<Jid>,
    payloads: seq<Payload>)

  /** `Presence::new(t)`: no addressing, no payloads. */
  function NewPresence(t: PresenceType): (p: Presence)
    ensures p.kind == t && p.to.None? && p.from.None? && p.payloads == []
  {
    Presence(t, None, None, [])
  }

  /** `with_to`: only the recipient changes. */
  function WithTo(p: Presence, to: Jid): (r: Presence)
    ensures r.to == Some(to)
    ensures r.kind == p.kind && r.from == p.from && r.payloads == p.payloads
  {
    p.(to := Some(to))
  }

  /** `with_from`: only the sender changes. */
  function WithFrom(p: Presence, from: Jid): (r: Presence)
    ensures r.from == Some(from)
    ensures r.kind == p.kind && r.to == p.to && r.payloads == p.payloads
  {
    p.(from := Some(from))
  }

  /** `with_payloads`: the payload list is replaced, addressing is kept. */
  function WithPayloads(p: Presence, payloads: seq<Payload>): (r: Presence)
    ensures r.payloads == payloads
    ensures r.kind == p.kind && r.to == p.to && r.from == p.from
  {
    p.(payloads := payloads)
  }

  /** Direction of a chat message relative to the bot. */
  datatype Direction = Incoming | Outgoing

  /**
   * The bot's domain events. The source declares them for a future event
   * loop but never constructs one; the timestamp field is not modelled.
   */
  datatype Event =
    | Join(account: Jid, channel: Jid)
    | ChatMessage(from: Jid, to: Jid, direction: Direction, body: string)
}
