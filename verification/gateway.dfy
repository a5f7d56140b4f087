/** The routing decisions of the gateway (src/main.ts:22-108): what happens
    to a line from the device, to a control packet, to a message from the
    tunnel, and to the handshake when the device is first opened.

    The environment is reduced to data. The device is a pair of flags, the
    tunnel is the URL it was opened on, the user's answer to the
    confirmation dialog is an oracle from the requested address to a
    boolean, and every side effect is returned as an `Effect`, in order. */
module Gateway {
  import opened Wrappers
  import opened Packets
  import opened Decoder

  /** The serial link's state as the gateway reads it. */
  datatype Device = Device(isOpen: bool, isBusy: bool)

  /** `Configuration`: the tunnel address and the gateway's version. */
  datatype Config = Config(ipAddress: string, version: string)

  const InitialConfig := Config("", "0.0.1 dev")

  /** An open (or opening) tunnel, identified by the URL it was created on. */
  datatype Tunnel = Tunnel(url: string)

  /** The gateway's mutable globals other than the device. */
  datatype State = State(config: Config, tunnel: Option<Tunnel>)

  const Initial := State(InitialConfig, None)

  /** Side effects, in the order they happen:
      `Send` is a `send` on the tunnel, `Write` a line written to the
      device, `Connect` the creation of a new tunnel. */
  datatype Effect = Send(data: string) | Write(line: string) | Connect(url: string)

  datatype Outcome = Outcome(state: State, effects: seq<Effect>)

  /** The control command that opens a tunnel. */
  const SetAddress := "set_address"

  /** The method that marks a packet as addressed to the gateway itself. */
  const ControlMethod := "GTW"

  function TunnelUrl(address: string): string {
    "ws://" + address
  }

  /** `OpenConnection`: a new tunnel to the configured address replaces the
      reference to the old one, which is not closed. */
  function OpenConnection(st: State): Outcome {
    var url := TunnelUrl(st.config.ipAddress);
    Outcome(st.(tunnel := Some(Tunnel(url))), [Connect(url)])
  }

  /** The user accepted a `set_address` request. */
  predicate Accepts(p: Packet, userOK: bool) {
    p.resource == SetAddress && userOK
  }

  /** `handleGTWPacket`: only an accepted `set_address` does anything; it
      stores the body as the address and opens a tunnel to it. */
  function HandleGtw(st: State, p: Packet, userOK: bool): (r: Outcome)
    ensures r.state.config.version == st.config.version
    ensures Accepts(p, userOK) ==>
      && r.state.config.ipAddress == p.body
      && r.state.tunnel == Some(Tunnel(TunnelUrl(p.body)))
      && r.effects == [Connect(TunnelUrl(p.body))]
    ensures !Accepts(p, userOK) ==> r == Outcome(st, [])
  {
    if p.resource == SetAddress then
      if userOK then OpenConnection(st.(config := st.config.(ipAddress := p.body)))
      else Outcome(st, [])
    else Outcome(st, [])
  }

  /** `handlePacket`: noise is dropped, control packets go to the control
      handler, and anything else is re-encoded and sent down the tunnel if
      there is one. `confirm` answers the dialog for a requested address. */
  function HandlePacket(st: State, raw: string, confirm: string -> bool): (r: Outcome)
    ensures Decode(raw).None? ==> r == Outcome(st, [])
    ensures Decode(raw).Some? && Decode(raw).value.kind == ControlMethod ==>
      r == HandleGtw(st, Decode(raw).value, confirm(Decode(raw).value.body))
    ensures Decode(raw).Some? && Decode(raw).value.kind != ControlMethod ==>
      && r.state == st
      && r.effects == (if st.tunnel.Some? then [Send(Encode(Decode(raw).value))] else [])
  {
    match Decode(raw)
    case None => Outcome(st, [])
    case Some(p) =>
      if p.kind == ControlMethod then HandleGtw(st, p, confirm(p.body))
      else if st.tunnel.Some? then Outcome(st, [Send(Encode(p))])
      else Outcome(st, [])
  }

  /** The tunnel's `onmessage`: a message is written to the device, prefixed
      with "msg ", only if it decodes, is valid, and a device is attached and
      not busy. Whether the device is open is not consulted. */
  function OnMessage(device: Option<Device>, data: string): (r: seq<Effect>)
    ensures |r| <= 1
    ensures r != [] <==>
      Decode(data).Some? && Valid(Decode(data).value) && device.Some? && !device.value.isBusy
    ensures r != [] ==> r[0] == Write("msg " + Encode(Decode(data).value) + "\n")
  {
    match Decode(data)
    case None => []
    case Some(p) =>
      if Valid(p) && device.Some? && !device.value.isBusy then [Write("msg " + Encode(p) + "\n")]
      else []
  }

  /** The announcement packet of the handshake. */
  const GatewayInit := "0.SYS;gateway_init|hello world"

  /** The guard in `start`: the two handshake lines are written only to an
      open device that is not busy; otherwise nothing is written and there
      is no retry. */
  function Handshake(device: Device): (r: seq<Effect>)
    ensures r != [] <==> device.isOpen && !device.isBusy
    ensures r != [] ==> r == [Write("echo off\n"), Write("msg " + GatewayInit + "\n")]
  {
    if device.isOpen && !device.isBusy then
      [Write("echo off\n"), Write("msg " + GatewayInit + "\n")]
    else []
  }

  // ---------------------------------------------------------------------
  // Properties

  /** The handshake's announcement is the wire form of a valid SYS packet
      that decodes back to itself, and its line is exactly what the tunnel
      relay would write for that packet. */
  lemma HandshakeIsRelayedForm(device: Device, p: Packet)
    requires device.isOpen && !device.isBusy
    requires p == Packet("0", "SYS", "gateway_init", "hello world")
    ensures Encode(p) == GatewayInit
    ensures Decode(GatewayInit) == Some(p) && Valid(p)
    ensures Handshake(device)[1..] == OnMessage(Some(device), GatewayInit)
  {
    GatewayInitDecodes(p);
  }

  lemma GatewayInitDecodes(p: Packet)
    requires p == Packet("0", "SYS", "gateway_init", "hello world")
    ensures Encode(p) == GatewayInit
    ensures Decode(GatewayInit) == Some(p) && Valid(p)
  {
    GatewayInitWire(p);
    DecodeEncode(p);
  }

  lemma GatewayInitWire(p: Packet)
    requires p == Packet("0", "SYS", "gateway_init", "hello world")
    ensures Encode(p) == GatewayInit
    ensures RoundTrips(p)
  {
    GatewayInitPieces(p);
    GatewayInitJoined();
  }

  /** The relay writes to a device that is closed but not busy: only
      `isBusy` guards the write. */
  lemma RelayIgnoresIsOpen(p: Packet)
    requires Valid(p) && RoundTrips(p)
    ensures OnMessage(Some(Device(false, false)), Encode(p)) == [Write("msg " + Encode(p) + "\n")]
  {
    DecodeEncode(p);
  }

  /** A packet that already survives the round trip is forwarded verbatim:
      the tunnel receives exactly the line the device sent. */
  lemma ForwardVerbatim(st: State, p: Packet, confirm: string -> bool)
    requires RoundTrips(p) && p.kind != ControlMethod && st.tunnel.Some?
    ensures HandlePacket(st, Encode(p), confirm) == Outcome(st, [Send(Encode(p))])
  {
    DecodeEncode(p);
  }

  /** Escapes are resolved by the decoder and not put back by the encoder:
      whatever the device escaped, the tunnel receives the packet unescaped. */
  lemma ForwardDropsEscapes(st: State, p: Packet, confirm: string -> bool)
    requires p.kind != ControlMethod && st.tunnel.Some?
    ensures HandlePacket(st, EscapedWire(p), confirm) == Outcome(st, [Send(Encode(p))])
  {
    DecodeEscapedWire(p);
  }

  /** The instance of the above with an escaped `|` in the body. */
  lemma ForwardLosesEscapes(st: State, raw: string, confirm: string -> bool)
    requires raw == "1.MSG;chat|hello\\|world" && st.tunnel.Some?
    ensures HandlePacket(st, raw, confirm) == Outcome(st, [Send("1.MSG;chat|hello|world")])
  {
    var p := Packet("1", "MSG", "chat", "hello|world");
    ChatWire(p, "1", "MSG", "chat", "hello", "world");
    ForwardDropsEscapes(st, p, confirm);
  }

  lemma ChatWire(p: Packet, id: string, k: string, r: string, a: string, b: string)
    requires id == "1" && k == "MSG" && r == "chat" && a == "hello" && b == "world"
    requires p == Packet(id, k, r, a + "|" + b)
    ensures EscapedWire(p) == "1.MSG;chat|hello\\|world"
    ensures Encode(p) == "1.MSG;chat|hello|world"
  {
    EscapeUnreserved(id);
    EscapeUnreserved(k);
    EscapeUnreserved(r);
    EscapeAround(a, '|', b);
    assert a + "|" + b == a + ['|'] + b;
    assert "\\|" == ['\\', '|'];
    ChatJoined();
  }

  /** A confirmed `set_address` request makes the requested address the
      configured one and opens exactly one tunnel, to that address. */
  lemma SetAddressConnects(st: State, id: string, address: string, confirm: string -> bool)
    requires '.' !in id && '\\' !in id && '\\' !in address
    requires confirm(address)
    ensures var r := HandlePacket(st, Encode(Packet(id, ControlMethod, SetAddress, address)), confirm);
      && r.state.config == st.config.(ipAddress := address)
      && r.state.tunnel == Some(Tunnel("ws://" + address))
      && r.effects == [Connect("ws://" + address)]
  {
    DecodeEncode(Packet(id, ControlMethod, SetAddress, address));
  }

  // ---------------------------------------------------------------------
  // Literal-concatenation helpers. The fixed examples above take their
  // literals as parameters pinned by a `requires`, and these lemmas state
  // how each literal is assembled from its parts, so that no proof has to
  // unfold a long string literal character by character.

  lemma GatewayInitPieces(p: Packet)
    requires p == Packet("0", "SYS", "gateway_init", "hello world")
    ensures Encode(p) == "0" + "." + "SYS" + ";" + "gateway_init" + "|" + "hello world"
    ensures RoundTrips(p)
  {
  }

  lemma GatewayInitJoined()
    ensures "0" + "." + "SYS" + ";" + "gateway_init" + "|" + "hello world" == GatewayInit
  {
  }

  lemma ChatJoined()
    ensures "1" + "." + "MSG" + ";" + "chat" + "|" + ("hello" + "|" + "world") == "1.MSG;chat|hello|world"
    ensures "1" + "." + "MSG" + ";" + "chat" + "|" + ("hello" + "\\|" + "world") == "1.MSG;chat|hello\\|world"
  {
  }
}
