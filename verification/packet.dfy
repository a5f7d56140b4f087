/** The packet of the gateway's line protocol: four text fields that travel
    as one line of the form `id.method;resource|body`. */
module Packets {

  /** One protocol message. `kind` is the source's `method` field (a Dafny
      keyword), the part the decoder calls TYPE. It is meant to be one of SYS,
      GTW, REQ, ASW or MSG, but the decoder passes on whatever text it found,
      so it is an arbitrary string here. */
  datatype Packet = Packet(id: string, kind: string, resource: string, body: string)

  /** The wire form: the four fields joined by `.`, `;` and `|`. Nothing is
      escaped, so a field holding a delimiter or a backslash is written as is. */
  function Encode(p: Packet): (r: string)
    ensures |r| == |p.id| + |p.kind| + |p.resource| + |p.body| + 3
    ensures '.' in r && ';' in r && '|' in r
  {
    var r := p.id + "." + p.kind + ";" + p.resource + "|" + p.body;
    assert r[|p.id|] == '.';
    assert r[|p.id| + 1 + |p.kind|] == ';';
    assert r[|p.id| + 2 + |p.kind| + |p.resource|] == '|';
    r
  }

  /** A packet is fit to be relayed to the device when no field is empty
      (the source tests the truthiness of all four strings). */
  predicate Valid(p: Packet) {
    p.id != [] && p.kind != [] && p.resource != [] && p.body != []
  }

  /** The fields must be free of these characters for a packet to survive
      an encode followed by a decode; see Decoder.DecodeEncode. */
  predicate RoundTrips(p: Packet) {
    && '.' !in p.id && '\\' !in p.id
    && ';' !in p.kind && '\\' !in p.kind
    && '|' !in p.resource && '\\' !in p.resource
    && '\\' !in p.body
  }
}
