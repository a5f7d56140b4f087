# yellownet-gateway: packet protocol and relay decisions in Dafny

A model of the core of the YELLOWNET gateway, a browser page that sits
between a Playdate on a serial link and a WebSocket "tunnel". The device and
the tunnel speak a home-grown line protocol: one packet per line,
`id.method;resource|body`, with a backslash escaping the next character. The
gateway decodes each line from the device, handles `GTW` control packets
itself (`set_address` opens a tunnel after the user confirms), forwards every
other packet to the tunnel, and writes valid packets from the tunnel back to
the device as `msg <packet>`.

Modules, one per concern of `src/main.ts`:

- `Wrappers` (wrappers.dfy): `Option`, the source's `null`.
- `Packets` (packet.dfy): the `Packet` record, `Encode` (`toString`), `Valid` (`validate`).
  The source's `method` field is called `kind`, because `method` is a Dafny keyword.
- `Decoder` (decoder.dfy): `decodePacket` as a character-by-character scan
  (`Step`, `Run`, `Decode`) with a four-state cursor `Id → Type → Resource → Body`
  and an escape flag. Beside it is an independent reference decoder: `Tokenize`
  resolves escapes, then `Cut` splits at the first plain `.`, `;` and `|`.
  The module proves that the two decoders agree on every line. It also proves
  the round trips and their limits.
- `Gateway` (gateway.dfy): `handlePacket`, `handleGTWPacket` with
  `OpenConnection`, the tunnel's `onmessage` filter, and the handshake guard in `start`.
  Each is a pure function from the state and its inputs to an `Outcome`: the new
  state plus the list of side effects (`Send` on the tunnel, `Write` to the device,
  `Connect` of a new tunnel).
- `Poll` (poll.dfy): `pollNewMessages` as a fold of the line handler over the batch of lines. It
  comes with reference functions for what a batch should amount to: the packets
  forwarded and the addresses accepted.

The environment is turned into inputs. The device is `Option<Device>`, with
`isOpen` and `isBusy` flags. The tunnel is `Option<Tunnel>`, holding the URL
it was opened on. The confirmation dialog is an oracle. For a single packet it
is `confirm: string -> bool`, applied to the requested address. Over a batch it
is a `Dialog`, `(nat, string) -> bool`, keyed by the position of the line in the
batch as well as the address. Every prompt is a fresh question, so the same
request may be accepted once and declined later in one batch
(`Poll.RepeatedRequestAnsweredAnew`).

Behaviour of `src/main.ts` worth knowing:

- Encoding never escapes. So forwarding a packet drops the escapes the device
  sent: `1.MSG;chat|hello\|world` is forwarded as `1.MSG;chat|hello|world`
  (`Gateway.ForwardLosesEscapes`). A field holding its own delimiter does not
  survive a round trip (`Decoder.DotInIdDoesNotRoundTrip`).
- The second handshake line is `msg 0.SYS;gateway_init|hello world` plus a
  newline.
- The inbound filter checks `isBusy` but never `isOpen` (`Gateway.RelayIgnoresIsOpen`).
- A new `set_address` replaces the tunnel reference without closing the old tunnel.
- A poll with no device attached returns without rescheduling itself.
- The method field is any string, and only `GTW` is special.

## Model

| member | source | states |
|---|---|---|
| Packets.Encode | src/main.ts:121-122 | the wire form always holds a `.`, a `;` and a `|`, and is the four fields plus three delimiter characters long |
| Decoder.StepCursor | src/main.ts:137-160 | one character: the cursor advances by at most one field, and exactly when an unescaped delimiter of the current field is read, which is then not stored; an escape is pending exactly after an unescaped backslash; an unescaped backslash is never stored; an escaped character, and any other unescaped character (another field's delimiter, or any delimiter in the body), is appended to the current field; no other field changes |
| Decoder.RunGrows | src/main.ts:137-161 | over a whole line the cursor never moves back and every field only grows by appending |
| Decoder.Decode | src/main.ts:129-132 | no packet exactly when the line lacks a `.`, a `;` or a `|` anywhere, and a packet otherwise |
| Decoder.DecodeMatchesReference | src/main.ts:129-162 | every packet the decoder returns is the one the independent reference decoder reads from the same line |
| Decoder.Tokenize | src/main.ts:139-147 | resolving escapes leaves no unescaped backslash and never lengthens the line |
| Decoder.Cut | src/main.ts:148-159 | the split is at the first unescaped occurrence of the delimiter: none occurs before it, and without one the whole input stays in the current field |
| Decoder.RunMatchesReference | src/main.ts:134-162 | the scan collects exactly the fields of the reference decoder: id up to the first unescaped `.`, kind up to the next unescaped `;`, resource up to the next unescaped `|`, body the rest |
| Decoder.EscapedCharIsLiteral | src/main.ts:139-147 | a backslash followed by any character appends that character to the current field and does not move the cursor |
| Decoder.TrailingBackslashIsDropped | src/main.ts:144-147 | a lone backslash at the end of a line changes nothing in the decoded packet |
| Decoder.DecodeEncode | src/main.ts:121-162 | round trip: a packet whose id has no `.`, kind no `;`, resource no `|` and no field a backslash decodes from its wire form back to itself, so the wire form always decodes |
| Decoder.DotInIdShiftsIntoKind | src/main.ts:121-162 | since encoding does not escape, a `.` inside the id ends it early and the rest is pushed into the kind; two different packets share one wire form |
| Decoder.DotInIdDoesNotRoundTrip | src/main.ts:121-162 | the instance `a.b` / `MSG`: it comes back as id `a`, kind `b.MSG`, not as itself |
| Decoder.DecodeEscapedWire | src/main.ts:137-162 | escapes are honoured in every field, the body included: with every reserved character escaped, any packet at all decodes back to itself |
| Decoder.EscapedDotStaysInId | src/main.ts:139-151 | `a\.b.SYS;r|body` decodes to id `a.b`, kind `SYS`, resource `r`, body `body` |
| Decoder.EmptyFieldsDecodeButAreInvalid | src/main.ts:124-132 | `.;|` passes the delimiter check and decodes to four empty fields, which fail validation |
| Gateway.HandleGtw | src/main.ts:70-88 | only a confirmed `set_address` has an effect: the address becomes the body and exactly one tunnel is opened to `ws://` plus the body; a declined request or any other resource leaves state and effects empty |
| Gateway.HandlePacket | src/main.ts:51-68 | a line that does not decode does nothing; a `GTW` packet goes to the control handler whatever the tunnel; any other packet changes no state and sends exactly its re-encoded form if a tunnel exists, nothing otherwise |
| Gateway.OnMessage | src/main.ts:97-103 | a tunnel message causes at most one write to the device, `msg ` plus the re-encoded packet plus a newline, and it does so exactly when the message decodes, is valid, a device is attached and it is not busy |
| Gateway.Handshake | src/main.ts:26-31 | the two handshake lines `echo off` and the `gateway_init` announcement are written exactly when the device is open and not busy, otherwise nothing |
| Gateway.HandshakeIsRelayedForm | src/main.ts:26-31 | the announcement is the wire form of a valid SYS packet that decodes back to itself, and its line is exactly what the tunnel relay writes for that packet |
| Gateway.GatewayInitDecodes | src/main.ts:28 | the announcement `0.SYS;gateway_init|hello world` decodes to id `0`, kind `SYS`, resource `gateway_init`, body `hello world`, all non-empty |
| Gateway.RelayIgnoresIsOpen | src/main.ts:100-101 | a valid packet is written to a device that is closed but not busy |
| Gateway.ForwardVerbatim | src/main.ts:59-65 | a non-control packet that survives the round trip is forwarded as exactly the line the device sent, with no state change |
| Gateway.ForwardDropsEscapes | src/main.ts:59-65 | whatever the device escaped, the tunnel receives the packet's unescaped encoding |
| Gateway.ForwardLosesEscapes | src/main.ts:64 | `1.MSG;chat|hello\|world` is forwarded as `1.MSG;chat|hello|world` |
| Gateway.SetAddressConnects | src/main.ts:72-77 | a confirmed `set_address` line sets the address to its body, leaves the version alone, and opens exactly one tunnel to it |
| Poll.HandleLines | src/main.ts:39-45 | handling a batch never changes the version, never drops a tunnel, and never writes to the device |
| Poll.PollStep | src/main.ts:36-45 | with no device the step does nothing; with one, the batch is forwarded in order when a tunnel exists, one tunnel is opened per accepted `set_address` in order, nothing is written to the device, and the final configuration is that of the last accepted request, or unchanged without one |
| Poll.HandleLinesConcat | src/main.ts:39-45 | lines are handled strictly in order: a batch split in two is the first part, then the second from the state the first left and from the position after it, with effects concatenated |
| Poll.EmptyLineIsNoise | src/main.ts:40-42 | skipping an empty line has the same result as handling it, since it cannot decode |
| Poll.ForwardsInOrder | src/main.ts:39-45 | with a tunnel open, the tunnel receives exactly the re-encoded non-control packets of the batch, in arrival order |
| Poll.ConnectsInOrder | src/main.ts:39-45 | the batch opens one tunnel per confirmed `set_address`, in order, each to that packet's address |
| Poll.FinalConfiguration | src/main.ts:39-45 | after a batch, the configured address and the tunnel are those of the last confirmed `set_address`; without one the state is unchanged |
| Poll.DroppedWithoutTunnel | src/main.ts:39-45 | with no tunnel and no confirmed `set_address`, a batch leaves no trace: no effect and no state change |
| Poll.RepeatedRequestAnsweredAnew | src/main.ts:72-77 | every prompt is asked anew: a `set_address` request repeated in one batch, accepted the first time and declined the second, opens exactly one tunnel |

## Left out

- Page wiring and WebSerial feature detection (src/main.ts:1-12): user interface only.
- Finding and opening the device (`requestConnectPlaydate`, `serial.open`, src/main.ts:23-25): a foreign library. The device's state after opening is an input.
- WebSocket construction, `onerror`, `onopen` and the `try`/`catch` with its alert (src/main.ts:86-107): network I/O. Construction is assumed to succeed. The error and open handlers only log or alert and change no state the model has.
- Sending on a tunnel that is still connecting or already failed: the model forwards whenever a tunnel reference exists, as the source's `TUNNEL != null` test does.
- `readLinesUntilTimeout` and the `requestAnimationFrame` rescheduling (src/main.ts:38, 46-48): transport and scheduling. The batch of lines is an input.
- `confirm`, `alert` and `console` output: the user's answer is an oracle; logging is ignored.
- `handlePacket` and `handleGTWPacket` are `async`, but they run to completion before the next line is handled, because nothing in them awaits. The fold is therefore sequential.
- `validate` returns a string and its callers only ask whether it is truthy; it is modelled as the boolean `Valid`.
