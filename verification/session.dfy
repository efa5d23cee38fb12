/**
 * The bot's inbound loop: it pulls transport events in order, announces
 * itself to the configured room on every `Online`, picks out commands
 * addressed to it from group-chat messages, and stops at the first
 * `Disconnected` (or when the stream ends).
 */
module Session {
  import opened Options
  import opened Jids
  import opened Stanzas
  import opened Commands

  /** The bot's settings, parsed and validated before the loop starts. */
  datatype Config = Config(botJid: Jid, botPassword: string, botNick: string, mucJid: Jid)

  /** The occupant JID the bot joins as: the room's bare JID with the nickname as resource. */
  function OccupantJid(config: Config): (r: Jid)
    ensures r.local == config.mucJid.local && r.domain == config.mucJid.domain
    ensures r.resource == Some(config.botNick)
  {
    WithResource(Bare(config.mucJid), config.botNick)
  }

  /**
   * The room-join presence built on `Online(bound)`: an available presence to
   * the occupant JID, from the bound JID, carrying exactly one MUC payload.
   */
  function JoinPresence(config: Config, bound: Jid): (p: Presence)
    ensures p.kind == Available
    ensures p.to == Some(OccupantJid(config))
    ensures p.from == Some(bound)
    ensures p.payloads == [MucJoin]
  {
    WithPayloads(WithFrom(WithTo(NewPresence(Available), OccupantJid(config)), bound), [MucJoin])
  }

  /**
   * The outbound half of the transport (`xmpp_writer`). It records every
   * stanza handed to it, in order; whether the n-th send succeeds is decided
   * by the network, represented by `accepts(n)`.
   */
  class StanzaSink {
    var sent: seq<Presence>
    const accepts: nat -> bool

    constructor (accepts: nat -> bool)
      ensures sent == [] && this.accepts == accepts
    {
      sent := [];
      this.accepts := accepts;
    }

    /** Hand one stanza to the transport; `ok` is false when the send fails. */
    method Send(p: Presence) returns (ok: bool)
      modifies this
      ensures sent == old(sent) + [p]
      ensures ok == accepts(|old(sent)|)
    {
      ok := accepts(|sent|);
      sent := sent + [p];
    }
  }

  /** No event in `events` is a disconnection. */
  predicate NoDisconnect(events: seq<TransportEvent>) {
    forall k :: 0 <= k < |events| ==> !events[k].Disconnected?
  }

  /**
   * The events the loop reacts to: everything before the first
   * `Disconnected`. That event ends the loop; nothing after it is looked at.
   */
  function Handled(events: seq<TransportEvent>): (r: seq<TransportEvent>)
    ensures r <= events
    ensures NoDisconnect(r)
    ensures |r| < |events| ==> events[|r|].Disconnected?
  {
    if events == [] || events[0].Disconnected? then [] else [events[0]] + Handled(events[1..])
  }

  /** The number of events pulled from the stream: the handled ones and the disconnection, if any. */
  function Consumed(events: seq<TransportEvent>): (n: nat)
    ensures n <= |events|
    ensures n == |events| || (0 < n && events[n - 1].Disconnected?)
    ensures 0 < n ==> NoDisconnect(events[..n - 1])
  {
    var h := Handled(events);
    if |h| < |events| then |h| + 1 else |h|
  }

  /** The stanzas sent in reaction to one event: the join presence for `Online`, nothing otherwise. */
  function SentFor(config: Config, e: TransportEvent): seq<Presence> {
    if e.Online? then [JoinPresence(config, e.boundJid)] else []
  }

  /** The commands one event yields. */
  function CommandsFor(nick: string, e: TransportEvent): seq<string> {
    if e.Received? && CommandOf(nick, e.stanza).Some? then [CommandOf(nick, e.stanza).value] else []
  }

  /** Everything sent in reaction to `events`, in order. */
  function SentLog(config: Config, events: seq<TransportEvent>): seq<Presence> {
    if events == [] then [] else SentFor(config, events[0]) + SentLog(config, events[1..])
  }

  /** Every command found in `events`, in order. */
  function CommandLog(nick: string, events: seq<TransportEvent>): seq<string> {
    if events == [] then [] else CommandsFor(nick, events[0]) + CommandLog(nick, events[1..])
  }

  lemma {:induction false} SentLogAppend(config: Config, a: seq<TransportEvent>, e: TransportEvent)
    ensures SentLog(config, a + [e]) == SentLog(config, a) + SentFor(config, e)
  {
    if a == [] {
      assert [e][1..] == [];
    } else {
      assert (a + [e])[1..] == a[1..] + [e];
      SentLogAppend(config, a[1..], e);
    }
  }

  lemma {:induction false} CommandLogAppend(nick: string, a: seq<TransportEvent>, e: TransportEvent)
    ensures CommandLog(nick, a + [e]) == CommandLog(nick, a) + CommandsFor(nick, e)
  {
    if a == [] {
      assert [e][1..] == [];
    } else {
      assert (a + [e])[1..] == a[1..] + [e];
      CommandLogAppend(nick, a[1..], e);
    }
  }

  /** One more handled event extends both logs by what that event yields. */
  lemma LogsStep(config: Config, events: seq<TransportEvent>, i: nat)
    requires i < |events| && NoDisconnect(events[..i]) && !events[i].Disconnected?
    ensures NoDisconnect(events[..i + 1])
    ensures SentLog(config, events[..i + 1]) == SentLog(config, events[..i]) + SentFor(config, events[i])
    ensures CommandLog(config.botNick, events[..i + 1])
         == CommandLog(config.botNick, events[..i]) + CommandsFor(config.botNick, events[i])
  {
    assert events[..i + 1] == events[..i] + [events[i]];
    SentLogAppend(config, events[..i], events[i]);
    CommandLogAppend(config.botNick, events[..i], events[i]);
  }

  /** Once a prefix without disconnection ends at a disconnection or at the end, it is what is handled. */
  lemma {:induction false} HandledIsPrefix(events: seq<TransportEvent>, i: nat)
    requires i <= |events| && NoDisconnect(events[..i])
    requires i == |events| || events[i].Disconnected?
    ensures Handled(events) == events[..i]
  {
    if i > 0 {
      assert !events[0].Disconnected? by { assert events[..i][0] == events[0]; }
      assert events[1..][..i - 1] == events[..i][1..];
      HandledIsPrefix(events[1..], i - 1);
    }
  }

  /** The bound JIDs of the `Online` events in `events`, in order. */
  function OnlineJids(events: seq<TransportEvent>): seq<Jid> {
    if events == [] then []
    else (if events[0].Online? then [events[0].boundJid] else []) + OnlineJids(events[1..])
  }

  /**
   * Exactly one presence is sent per `Online` event, in the order of the
   * events, and it is the join presence for that event's bound JID.
   */
  lemma {:induction false} SentLogOnePerOnline(config: Config, events: seq<TransportEvent>)
    ensures |SentLog(config, events)| == |OnlineJids(events)|
    ensures forall k :: 0 <= k < |SentLog(config, events)| ==>
              SentLog(config, events)[k] == JoinPresence(config, OnlineJids(events)[k])
  {
    if events != [] {
      SentLogOnePerOnline(config, events[1..]);
    }
  }

  /**
   * Every stanza sent is an available presence to the room under the bot's
   * nickname, with a single MUC payload.
   */
  lemma SentLogAddressing(config: Config, events: seq<TransportEvent>)
    ensures forall p :: p in SentLog(config, events) ==>
              p.kind == Available && p.to == Some(OccupantJid(config))
              && p.from.Some? && p.payloads == [MucJoin]
  {
  }

  /**
   * A `Disconnected` event ends the loop: whatever follows it is neither
   * handled nor pulled from the stream, and it yields nothing itself.
   */
  lemma {:induction false} DisconnectEndsLoop(before: seq<TransportEvent>, after: seq<TransportEvent>)
    requires NoDisconnect(before)
    ensures Handled(before + [Disconnected] + after) == before
    ensures Consumed(before + [Disconnected] + after) == |before| + 1
  {
    var events := before + [Disconnected] + after;
    assert events[..|before|] == before;
    HandledIsPrefix(events, |before|);
  }

  /** Without a disconnection every event is handled. */
  lemma NoDisconnectHandlesAll(events: seq<TransportEvent>)
    requires NoDisconnect(events)
    ensures Handled(events) == events && Consumed(events) == |events|
  {
  }

  /**
   * Every logged command comes from an addressed group-chat message among
   * the events, and has no address character at either end.
   */
  lemma {:induction false} CommandLogOrigin(nick: string, events: seq<TransportEvent>, k: nat)
    requires k < |CommandLog(nick, events)|
    ensures IsTrimmed(CommandLog(nick, events)[k])
    ensures exists j :: 0 <= j < |events| && events[j].Received?
              && events[j].stanza.Message? && events[j].stanza.kind == Groupchat
              && events[j].stanza.body.Some?
              && ExtractCommand(nick, events[j].stanza.body.value) == Some(CommandLog(nick, events)[k])
  {
    var head := CommandsFor(nick, events[0]);
    if k < |head| {
      assert events[0].Received?;
    } else {
      CommandLogOrigin(nick, events[1..], k - |head|);
      var j :| 0 <= j < |events[1..]| && events[1..][j].Received?
              && events[1..][j].stanza.Message? && events[1..][j].stanza.kind == Groupchat
              && events[1..][j].stanza.body.Some?
              && ExtractCommand(nick, events[1..][j].stanza.body.value)
                 == Some(CommandLog(nick, events[1..])[k - |head|]);
      assert events[j + 1] == events[1..][j];
    }
  }

  /** Events that carry no addressed group-chat message yield no command. */
  lemma {:induction false} CommandLogEmptyWithoutAddressed(nick: string, events: seq<TransportEvent>)
    requires forall j :: 0 <= j < |events| ==> !events[j].Received? || CommandOf(nick, events[j].stanza).None?
    ensures CommandLog(nick, events) == []
  {
    if events != [] {
      CommandLogEmptyWithoutAddressed(nick, events[1..]);
    }
  }

  /** The commands of two consecutive stretches of events are those of each, in order. */
  lemma {:induction false} CommandLogConcat(nick: string, a: seq<TransportEvent>, b: seq<TransportEvent>)
    ensures CommandLog(nick, a + b) == CommandLog(nick, a) + CommandLog(nick, b)
  {
    if a == [] {
      assert a + b == b;
    } else {
      assert (a + b)[1..] == a[1..] + b;
      CommandLogConcat(nick, a[1..], b);
    }
  }

  /**
   * Every addressed group-chat message contributes its command to the log,
   * between the commands of the events before it and those of the events
   * after it.
   */
  lemma CommandLogComplete(nick: string, events: seq<TransportEvent>, j: nat)
    requires j < |events| && events[j].Received? && CommandOf(nick, events[j].stanza).Some?
    ensures CommandLog(nick, events)
         == CommandLog(nick, events[..j]) + [CommandOf(nick, events[j].stanza).value]
            + CommandLog(nick, events[j + 1..])
  {
    assert events == events[..j] + ([events[j]] + events[j + 1..]);
    CommandLogConcat(nick, events[..j], [events[j]] + events[j + 1..]);
    assert ([events[j]] + events[j + 1..])[1..] == events[j + 1..];
  }

  /**
   * The reaction to one event other than `Disconnected`: on `Online`, send
   * the join presence (a failure is reported, not raised); on a stanza, pick
   * out the command it carries, if any.
   */
  method React(config: Config, event: TransportEvent, sink: StanzaSink)
    returns (commands: seq<string>, failed: bool)
    requires !event.Disconnected?
    modifies sink
    ensures sink.sent == old(sink.sent) + SentFor(config, event)
    ensures commands == CommandsFor(config.botNick, event)
    ensures failed <==> event.Online? && !sink.accepts(|old(sink.sent)|)
  {
    commands, failed := [], false;
    match event {
      case Online(bound, _) =>
        var presence := JoinPresence(config, bound);
        var ok := sink.Send(presence);
        failed := !ok;
      case Received(stanza) =>
        var command := CommandOf(config.botNick, stanza);
        if command.Some? {
          commands := [command.value];
        }
    }
  }

  /**
   * The inbound loop (`while let Some(event) = reader.next()`): `events` is
   * what the reader yields. Returns the commands recognised and the number
   * of events consumed. A failed send is reported by `React` and ignored
   * here, so nothing in the outcome depends on `sink.accepts`.
   */
  method Run(config: Config, events: seq<TransportEvent>, sink: StanzaSink)
    returns (commands: seq<string>, consumed: nat)
    modifies sink
    ensures sink.sent == old(sink.sent) + SentLog(config, Handled(events))
    ensures commands == CommandLog(config.botNick, Handled(events))
    ensures consumed == Consumed(events)
  {
    ghost var sent0 := sink.sent;
    commands := [];
    var i := 0;
    while i < |events|
      invariant 0 <= i <= |events|
      invariant NoDisconnect(events[..i])
      invariant sink.sent == sent0 + SentLog(config, events[..i])
      invariant commands == CommandLog(config.botNick, events[..i])
    {
      var event := events[i];
      if event.Disconnected? {
        break;
      }
      LogsStep(config, events, i);
      var found, _ := React(config, event, sink);
      commands := commands + found;
      i := i + 1;
    }
    HandledIsPrefix(events, i);
    consumed := if i < |events| then i + 1 else i;
  }
}
