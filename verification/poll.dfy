/** The poll step (`pollNewMessages`, src/main.ts:36-49): the batch of lines
    read from the device is handled line by line, in arrival order, each
    line seeing the state the previous ones left. */
module Poll {
  import opened Wrappers
  import opened Packets
  import opened Decoder
  import opened Gateway

  /** The user's answers to the confirmation dialog during a batch: the
      answer given when the line at a position of the batch asks about an
      address. Every prompt is a fresh question, so one address may be
      accepted at one position and declined at another. */
  type Dialog = (nat, string) -> bool

  /** The dialog as the line at position `i` meets it. */
  function Prompt(dialog: Dialog, i: nat): string -> bool {
    (address: string) => dialog(i, address)
  }

  /** One line of a batch; an empty line is skipped before decoding. */
  function HandleLine(st: State, line: string, confirm: string -> bool): Outcome {
    if line == "" then Outcome(st, []) else HandlePacket(st, line, confirm)
  }

  /** A handler of the line at a position of the batch: the state it leaves
      and the effects it causes. */
  type Handler = (nat, State, string) -> Outcome

  /** A left fold of a handler over the lines from position `at` on: each
      line sees the state the previous ones left, and effects are
      concatenated in line order. */
  function Fold(st: State, lines: seq<string>, handle: Handler, at: nat): Outcome
    decreases |lines|
  {
    if lines == [] then Outcome(st, [])
    else
      var first := handle(at, st, lines[0]);
      var rest := Fold(first.state, lines[1..], handle, at + 1);
      Outcome(rest.state, first.effects + rest.effects)
  }

  /** The gateway's line handler, asking the dialog at the line's position. */
  function LineHandler(dialog: Dialog): Handler {
    (i: nat, st: State, line: string) => HandleLine(st, line, Prompt(dialog, i))
  }

  /** The lines of a batch from position `at` on, handled in order. */
  function HandleLines(st: State, lines: seq<string>, dialog: Dialog, at: nat): (r: Outcome)
    // the version is never touched, a tunnel is never dropped, and nothing
    // read from the device is written back to it
    ensures r.state.config.version == st.config.version
    ensures st.tunnel.Some? ==> r.state.tunnel.Some?
    ensures forall i :: 0 <= i < |r.effects| ==> !r.effects[i].Write?
  {
    FoldKeeps(st, lines, dialog, at);
    Fold(st, lines, LineHandler(dialog), at)
  }

  lemma {:induction false} FoldKeeps(st: State, lines: seq<string>, dialog: Dialog, at: nat)
    ensures var r := Fold(st, lines, LineHandler(dialog), at);
      && r.state.config.version == st.config.version
      && (st.tunnel.Some? ==> r.state.tunnel.Some?)
      && forall i :: 0 <= i < |r.effects| ==> !r.effects[i].Write?
    decreases |lines|
  {
    if lines != [] {
      var first := HandleLine(st, lines[0], Prompt(dialog, at));
      assert LineHandler(dialog)(at, st, lines[0]) == first;
      assert forall i :: 0 <= i < |first.effects| ==> !first.effects[i].Write?;
      FoldKeeps(first.state, lines[1..], dialog, at + 1);
    }
  }

  /** One poll: without a device the step does nothing (and, in the source,
      is not rescheduled); otherwise the batch read from it is handled, which
      forwards its non-control packets in order if a tunnel exists, opens
      one tunnel per accepted `set_address` in order, writes nothing to the
      device, and leaves the configuration of the last accepted request. */
  function PollStep(st: State, device: Option<Device>, lines: seq<string>, dialog: Dialog): (r: Outcome)
    ensures device.None? ==> r == Outcome(st, [])
    ensures device.Some? && st.tunnel.Some? ==> Sends(r.effects) == Forwarded(lines)
    ensures device.Some? ==> Connects(r.effects) == Urls(Accepted(lines, dialog, 0))
    ensures device.Some? ==> forall i :: 0 <= i < |r.effects| ==> !r.effects[i].Write?
    ensures device.Some? ==> Settled(st, Accepted(lines, dialog, 0), r.state)
  {
    if device.None? then Outcome(st, [])
    else
      ConnectsInOrder(st, lines, dialog, 0);
      FinalConfiguration(st, lines, dialog, 0);
      if st.tunnel.Some? then
        ForwardsInOrder(st, lines, dialog, 0);
        HandleLines(st, lines, dialog, 0)
      else HandleLines(st, lines, dialog, 0)
  }

  // ---------------------------------------------------------------------
  // Reference: what a batch should amount to, line by line

  /** The text a line puts on an open tunnel: the re-encoded packet, unless
      the line is noise or a control packet. */
  function LineForwarded(line: string): seq<string> {
    match Decode(line)
    case None => []
    case Some(p) => if p.kind != ControlMethod then [Encode(p)] else []
  }

  /** The address a line makes the gateway connect to: the body of a
      `set_address` control packet the user confirmed. */
  function LineAccepted(line: string, confirm: string -> bool): seq<string> {
    match Decode(line)
    case None => []
    case Some(p) => if p.kind == ControlMethod && Accepts(p, confirm(p.body)) then [p.body] else []
  }

  function Forwarded(lines: seq<string>): seq<string> {
    if lines == [] then [] else LineForwarded(lines[0]) + Forwarded(lines[1..])
  }

  /** The addresses accepted over the lines from position `at` on. */
  function Accepted(lines: seq<string>, dialog: Dialog, at: nat): seq<string>
    decreases |lines|
  {
    if lines == [] then []
    else LineAccepted(lines[0], Prompt(dialog, at)) + Accepted(lines[1..], dialog, at + 1)
  }

  function Urls(addresses: seq<string>): seq<string> {
    if addresses == [] then [] else [TunnelUrl(addresses[0])] + Urls(addresses[1..])
  }

  /** `final` is where a state `st` ends after the addresses `accepted` were
      accepted in turn: the last of them configured with a tunnel to it, or
      `st` itself when there were none. */
  predicate Settled(st: State, accepted: seq<string>, final: State) {
    && (accepted == [] ==> final == st)
    && (accepted != [] ==>
          && final.config == st.config.(ipAddress := accepted[|accepted| - 1])
          && final.tunnel == Some(Tunnel(TunnelUrl(accepted[|accepted| - 1]))))
  }

  /** The data of the `Send` effects, in order. */
  function Sends(effects: seq<Effect>): seq<string> {
    if effects == [] then []
    else (if effects[0].Send? then [effects[0].data] else []) + Sends(effects[1..])
  }

  /** The URLs of the `Connect` effects, in order. */
  function Connects(effects: seq<Effect>): seq<string> {
    if effects == [] then []
    else (if effects[0].Connect? then [effects[0].url] else []) + Connects(effects[1..])
  }

  lemma {:induction false} SendsConcat(a: seq<Effect>, b: seq<Effect>)
    ensures Sends(a + b) == Sends(a) + Sends(b)
    decreases |a|
  {
    if a == [] {
      assert a + b == b;
    } else {
      assert (a + b)[1..] == a[1..] + b;
      SendsConcat(a[1..], b);
    }
  }

  lemma {:induction false} ConnectsConcat(a: seq<Effect>, b: seq<Effect>)
    ensures Connects(a + b) == Connects(a) + Connects(b)
    decreases |a|
  {
    if a == [] {
      assert a + b == b;
    } else {
      assert (a + b)[1..] == a[1..] + b;
      ConnectsConcat(a[1..], b);
    }
  }

  // ---------------------------------------------------------------------
  // Properties of a batch

  lemma {:induction false} FoldConcat(st: State, a: seq<string>, b: seq<string>, handle: Handler, at: nat)
    ensures
      var first := Fold(st, a, handle, at);
      var second := Fold(first.state, b, handle, at + |a|);
      Fold(st, a + b, handle, at) == Outcome(second.state, first.effects + second.effects)
    decreases |a|
  {
    if a == [] {
      assert a + b == b;
    } else {
      assert (a + b)[1..] == a[1..] + b;
      FoldConcat(handle(at, st, a[0]).state, a[1..], b, handle, at + 1);
    }
  }

  /** Handling a batch in two parts is handling it at once: the second part
      starts from the state the first left and at the position after it, and
      the effects follow in order. */
  lemma HandleLinesConcat(st: State, a: seq<string>, b: seq<string>, dialog: Dialog, at: nat)
    ensures
      var first := HandleLines(st, a, dialog, at);
      var second := HandleLines(first.state, b, dialog, at + |a|);
      HandleLines(st, a + b, dialog, at) == Outcome(second.state, first.effects + second.effects)
  {
    FoldConcat(st, a, b, LineHandler(dialog), at);
  }

  /** The first line is handled first, from the initial state, with the
      dialog at its own position. */
  lemma HandleLinesCons(st: State, lines: seq<string>, dialog: Dialog, at: nat)
    requires lines != []
    ensures
      var one := HandleLine(st, lines[0], Prompt(dialog, at));
      var rest := HandleLines(one.state, lines[1..], dialog, at + 1);
      HandleLines(st, lines, dialog, at) == Outcome(rest.state, one.effects + rest.effects)
  {
    assert LineHandler(dialog)(at, st, lines[0]) == HandleLine(st, lines[0], Prompt(dialog, at));
  }

  /** Skipping an empty line changes nothing: it would not decode anyway. */
  lemma EmptyLineIsNoise(st: State, confirm: string -> bool)
    ensures HandleLine(st, "", confirm) == HandlePacket(st, "", confirm)
  {
  }

  /** With a tunnel open, it receives exactly the re-encoded non-control
      packets of the batch, in the order their lines arrived. */
  lemma {:induction false} ForwardsInOrder(st: State, lines: seq<string>, dialog: Dialog, at: nat)
    requires st.tunnel.Some?
    ensures Sends(HandleLines(st, lines, dialog, at).effects) == Forwarded(lines)
    decreases |lines|
  {
    if lines != [] {
      var first := HandleLine(st, lines[0], Prompt(dialog, at));
      HandleLinesCons(st, lines, dialog, at);
      var rest := HandleLines(first.state, lines[1..], dialog, at + 1);
      assert Sends(first.effects) == LineForwarded(lines[0]) by {
        match Decode(lines[0])
        case None =>
        case Some(p) =>
          if p.kind == ControlMethod {
            assert Sends(first.effects) == [];
          } else {
            assert first.effects == [Send(Encode(p))];
          }
      }
      ForwardsInOrder(first.state, lines[1..], dialog, at + 1);
      SendsConcat(first.effects, rest.effects);
    }
  }

  /** The batch opens one tunnel per confirmed `set_address`, in order, each
      to the address that packet carried. */
  lemma {:induction false} ConnectsInOrder(st: State, lines: seq<string>, dialog: Dialog, at: nat)
    ensures Connects(HandleLines(st, lines, dialog, at).effects) == Urls(Accepted(lines, dialog, at))
    decreases |lines|
  {
    if lines != [] {
      var first := HandleLine(st, lines[0], Prompt(dialog, at));
      HandleLinesCons(st, lines, dialog, at);
      var rest := HandleLines(first.state, lines[1..], dialog, at + 1);
      assert Connects(first.effects) == Urls(LineAccepted(lines[0], Prompt(dialog, at))) by {
        match Decode(lines[0])
        case None =>
        case Some(p) =>
          if p.kind == ControlMethod && Accepts(p, Prompt(dialog, at)(p.body)) {
            assert first.effects == [Connect(TunnelUrl(p.body))];
          } else if p.kind == ControlMethod {
            assert first.effects == [];
          } else {
            assert Connects(first.effects) == [];
          }
      }
      ConnectsInOrder(first.state, lines[1..], dialog, at + 1);
      ConnectsConcat(first.effects, rest.effects);
      UrlsConcat(LineAccepted(lines[0], Prompt(dialog, at)), Accepted(lines[1..], dialog, at + 1));
    }
  }

  lemma {:induction false} UrlsConcat(a: seq<string>, b: seq<string>)
    ensures Urls(a + b) == Urls(a) + Urls(b)
    decreases |a|
  {
    if a == [] {
      assert a + b == b;
    } else {
      assert (a + b)[1..] == a[1..] + b;
      UrlsConcat(a[1..], b);
    }
  }

  /** After a batch, the configured address and the tunnel belong to the
      last confirmed `set_address` of the batch; without one, both are as
      they were. */
  lemma {:induction false} FinalConfiguration(st: State, lines: seq<string>, dialog: Dialog, at: nat)
    ensures Settled(st, Accepted(lines, dialog, at), HandleLines(st, lines, dialog, at).state)
    decreases |lines|
  {
    if lines != [] {
      var first := HandleLine(st, lines[0], Prompt(dialog, at));
      HandleLinesCons(st, lines, dialog, at);
      var one := LineAccepted(lines[0], Prompt(dialog, at));
      assert one == [] ==> first.state == st;
      assert one != [] ==>
        && first.state.config == st.config.(ipAddress := one[0])
        && first.state.tunnel == Some(Tunnel(TunnelUrl(one[0])));
      FinalConfiguration(first.state, lines[1..], dialog, at + 1);
      var acc := Accepted(lines, dialog, at);
      assert acc == one + Accepted(lines[1..], dialog, at + 1);
    }
  }

  /** With no tunnel and no confirmed `set_address`, a batch is dropped
      without a trace: nothing is sent, buffered or changed. */
  lemma DroppedWithoutTunnel(st: State, lines: seq<string>, dialog: Dialog, at: nat)
    requires st.tunnel.None? && Accepted(lines, dialog, at) == []
    ensures HandleLines(st, lines, dialog, at) == Outcome(st, [])
  {
    FinalConfiguration(st, lines, dialog, at);
    NoEffectsWithoutTunnel(st, lines, dialog, at);
  }

  lemma {:induction false} NoEffectsWithoutTunnel(st: State, lines: seq<string>, dialog: Dialog, at: nat)
    requires st.tunnel.None? && Accepted(lines, dialog, at) == []
    ensures HandleLines(st, lines, dialog, at).effects == []
    decreases |lines|
  {
    if lines != [] {
      var first := HandleLine(st, lines[0], Prompt(dialog, at));
      HandleLinesCons(st, lines, dialog, at);
      assert LineAccepted(lines[0], Prompt(dialog, at)) == [];
      assert first == Outcome(st, []);
      NoEffectsWithoutTunnel(st, lines[1..], dialog, at + 1);
    }
  }

  /** Every prompt is a fresh question: the same request twice in one
      batch, accepted the first time and declined the second, opens
      exactly one tunnel. */
  lemma RepeatedRequestAnsweredAnew(st: State, line: string, address: string, dialog: Dialog)
    requires line == Encode(Packet("1", ControlMethod, SetAddress, address)) && '\\' !in address
    requires dialog(0, address) && !dialog(1, address)
    ensures Connects(HandleLines(st, [line, line], dialog, 0).effects) == [TunnelUrl(address)]
  {
    var p := Packet("1", ControlMethod, SetAddress, address);
    DecodeEncode(p);
    ConnectsInOrder(st, [line, line], dialog, 0);
    assert LineAccepted(line, Prompt(dialog, 0)) == [address];
    assert LineAccepted(line, Prompt(dialog, 1)) == [];
    assert [line, line][1..] == [line];
    assert Accepted([line], dialog, 1) == [];
    assert Accepted([line, line], dialog, 0) == [address];
  }
}
