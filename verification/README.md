# botsson core in Dafny

A model of the inbound event loop of `botsson`, an XMPP group-chat bot
(RFC 6120 core, room join per XEP-0045 Multi-User Chat). The bot reads
transport events in order. On `Online` it joins the configured room: it sends
one presence addressed to `room@service/nick`, from the bound JID, carrying
the MUC join payload. On each incoming stanza it looks for a group-chat
message whose body starts with its nickname, and takes the rest, trimmed of
whitespace, commas and colons, as a command. It stops at the first
`Disconnected`.

Files, one module each:

- `options.dfy`: `Option`.
- `jid.dfy`: JIDs as `(local, domain, resource)`, with `Bare` and `WithResource`.
- `stanza.dfy`: decoded messages, presences and their builder steps, transport
  events, and the source's `Direction`/`Event` types.
- `command.dfy`: nickname prefix, `trim_matches` and command extraction.
- `session.dfy`: the join presence, the outbound sink (`xmpp_writer`) as a
  class that records what it is given, the per-event reaction and the loop.
  The loop is stated against the specification functions `Handled`,
  `SentLog` and `CommandLog`.

The transport is modelled like this. The reader is a finite sequence of
events. The writer is a `StanzaSink` object with a `sent` log. The network
decides whether the n-th send succeeds, and is represented by the function
`accepts`. `Run`'s postcondition does not mention `accepts`, so what the loop
sends and which commands it finds are the same whichever sends fail.

Behaviour of the code that the model keeps:

- A body that is the nickname followed only by whitespace, `,` or `:` gives
  the empty command, and that empty command is logged like any other.
- One `trim_matches` strips the same set of characters (Unicode whitespace,
  `,` and `:`) from both ends.
- `Event` and `Direction` are declared but never constructed, and the
  crossbeam channel is never sent to. Commands are only logged, so the model
  returns them as a list.
- Although the client is set to reconnect (src/main.rs:72), a dropped
  connection is first reported as `Disconnected`, and the loop `break`s on
  it (src/main.rs:88-90). So the loop never sees the `Online` of a
  reconnection, and `DisconnectEndsLoop` states that nothing after the
  `Disconnected` is handled.

## Model

| member | source | states |
|---|---|---|
| Jids.Bare | src/main.rs:99 | the bare JID has no resource and keeps local part and domain; a bare JID is unchanged |
| Jids.WithResource | src/main.rs:99-100 | qualifying a bare JID sets exactly the resource, and stripping it again gives back the bare JID |
| Jids.BareIdempotent | src/main.rs:99-100 | stripping the resource is idempotent; re-qualifying a JID only replaces its resource |
| Stanzas.NewPresence | src/main.rs:104 | a new presence has the given type, no `to`, no `from` and no payloads |
| Stanzas.WithTo | src/main.rs:105 | `with_to` sets the recipient and changes nothing else |
| Stanzas.WithFrom | src/main.rs:106 | `with_from` sets the sender and changes nothing else |
| Stanzas.WithPayloads | src/main.rs:107 | `with_payloads` replaces the payload list and changes nothing else |
| Commands.StripPrefix | src/main.rs:123 | a result exists exactly when the body starts with the prefix (literal, case-sensitive), and prefix + result is the body |
| Commands.SkipLeading | src/main.rs:124 | the front scan stops at the first kept character; everything skipped is whitespace, `,` or `:` |
| Commands.SkipTrailing | src/main.rs:124 | the back scan stops after the last kept character; everything skipped is whitespace, `,` or `:` |
| Commands.TrimMatches | src/main.rs:124 | the result is no longer than the input and has no whitespace, `,` or `:` at either end |
| Commands.TrimMatchesCharacterised | src/main.rs:124 | in both directions: trimming yields `s[i..j]` exactly when `s[i..j]` is trimmed and only address characters lie outside it |
| Commands.TrimMatchesEmptyIff | src/main.rs:124-125 | the trimmed text is empty exactly when the input consists only of address characters |
| Commands.TrimMatchesFixesTrimmed | src/main.rs:124 | a string with no address character at either end is left unchanged |
| Commands.TrimMatchesIdempotent | src/main.rs:124 | trimming the command again changes nothing |
| Commands.ExtractCommand | src/main.rs:123-124 | a command exists exactly when the body starts with the nickname; the command is trimmed and no longer than the rest of the body |
| Commands.ExtractCommandIsInfix | src/main.rs:123-124 | the command is a contiguous part of the body after the nickname, with only address characters cut on either side |
| Commands.ExtractCommandEmptyIff | src/main.rs:123-125 | the empty command is produced exactly when the body is the nickname followed only by whitespace, `,` or `:` |
| Commands.ExtractCommandRoundTrip | src/main.rs:123-124 | nickname + any run of address characters + a trimmed text extracts to exactly that text |
| Commands.ExtractCommandColonExample | src/main.rs:123-124 | `"nick: foo bar"` gives `"foo bar"` |
| Commands.ExtractCommandCommaExample | src/main.rs:123-124 | `"nick,foo"` gives `"foo"` |
| Commands.ExtractCommandNoSeparatorExample | src/main.rs:123-124 | `"nickfoo"` gives `"foo"`: no separator is required |
| Commands.ExtractCommandNickOnlyExample | src/main.rs:123-125 | `"nick"` gives the empty command, which is not rejected |
| Commands.ExtractCommandCaseExample | src/main.rs:123 | `"Nick: foo"` gives no command for nickname `nick` |
| Commands.CommandOf | src/main.rs:118-124 | a stanza yields a command exactly when it is a group-chat message with a body starting with the nickname; the command is that body's extraction |
| Session.OccupantJid | src/main.rs:99-100 | the join address is the room's local part and domain with the nickname as resource |
| Session.JoinPresence | src/main.rs:98-107 | the join presence has type None, `to` the room occupant JID, `from` the bound JID, and exactly one MUC payload |
| Session.StanzaSink.constructor | src/main.rs:74 | a new writer has sent nothing |
| Session.StanzaSink.Send | src/main.rs:109 | a send appends the stanza to the log; its outcome is the network's verdict for that send |
| Session.Handled | src/main.rs:86-91 | the handled events are the longest prefix without `Disconnected`; if shorter than the stream, the next event is `Disconnected` |
| Session.Consumed | src/main.rs:86-91 | events are pulled up to and including the first `Disconnected`, or to the end of the stream |
| Session.HandledIsPrefix | src/main.rs:86-91 | a disconnection-free prefix that ends at a `Disconnected` or at the end of the stream is exactly what is handled |
| Session.SentLogOnePerOnline | src/main.rs:92-111 | exactly one presence is sent per `Online`, in event order, each the join presence for that event's bound JID |
| Session.SentLogAddressing | src/main.rs:98-107 | every sent stanza is a type-None presence to the occupant JID with a `from` and a single MUC payload |
| Session.DisconnectEndsLoop | src/main.rs:86-91 | with a `Disconnected` after a disconnection-free prefix, only the prefix is handled and nothing after the disconnection is pulled |
| Session.NoDisconnectHandlesAll | src/main.rs:86 | without a disconnection every event is handled and the whole stream is consumed |
| Session.CommandLogOrigin | src/main.rs:115-128 | every logged command is trimmed and is the extraction of the body of some group-chat message among the handled events |
| Session.CommandLogComplete | src/main.rs:115-128 | every addressed group-chat message contributes its command to the log, after the commands of earlier events and before those of later ones |
| Session.CommandLogEmptyWithoutAddressed | src/main.rs:115-128 | events with no addressed group-chat message yield no command: other types, bodiless messages and non-messages are ignored |
| Session.React | src/main.rs:87-131 | `Online` appends exactly the join presence and reports whether the send failed; a stanza appends nothing and yields its command, if any |
| Session.Run | src/main.rs:86-132 | the writer's new log is the old log plus the join presences of the handled events; the commands are those of the handled events, in order; consumption stops after the first `Disconnected`; none of this depends on send outcomes |

## Left out

- `src/config.rs` as a whole. It is a serde visitor around the protocol library's JID parser. The parsed settings are a `Config` value given to `Run`.
- Reading `config.toml` and parsing TOML (src/main.rs:46-63): file I/O and a library parser.
- Client construction, `set_reconnect` and `split` (src/main.rs:65-74): network set-up. A reconnection is always preceded by a `Disconnected`, which already ends the loop. Event sequences with several `Online` events and no `Disconnected` between them are a deliberate over-approximation of what the transport yields.
- The crossbeam channel and the spawned receiver thread (src/main.rs:77-84): concurrency, and the channel is never sent to.
- Wire-level parsing (`Message::try_from`) and language ranking in `get_best_body` (src/main.rs:118, 122): library internals. Their results are the fields of a `Stanza`.
- Logging, including the error line for a failed send (src/main.rs:110). `React` reports the failure and `Run` ignores it. `Run` keeps no count of failures.
- The error carried by `Disconnected` is not modelled. The `resumed` flag of `Online` is carried and ignored, as in the source.
- The `id`, `show`, `statuses` and `priority` fields of a presence, which `Presence::new` (src/main.rs:104) sets to defaults, are not modelled. So the "changes nothing else" contracts of `WithTo`, `WithFrom` and `WithPayloads` speak only of type, addressing and payloads.
- The `timestamp` field of `Event::Message`, which is never populated. `Direction` and `Event` are modelled as data only, because the source never constructs them.
- JID validation and normalisation: a `Jid` is an already-parsed triple, and an empty local part stands for a domain-only JID.
