/** Decoding one line into a packet (`decodePacket`, src/main.ts:129-163).

    The operational decoder is a left-to-right scan with a four-state cursor
    and a one-character escape flag. Beside it stands an independent
    reference decoder that first splits the line into escaped and plain
    tokens and then cuts the token sequence at the first plain `.`, `;` and
    `|`; the two are proved to agree on every line. */
module Decoder {
  import opened Wrappers
  import opened Packets

  /** The field the scan is currently filling, in the order the cursor visits them. */
  datatype Field = Id | Type | Resource | Body

  function Rank(f: Field): nat {
    match f
    case Id => 0
    case Type => 1
    case Resource => 2
    case Body => 3
  }

  function Next(f: Field): (g: Field)
    requires f != Body
    ensures Rank(g) == Rank(f) + 1
  {
    match f
    case Id => Type
    case Type => Resource
    case Resource => Body
  }

  /** The delimiter that closes a field; the body runs to the end of the line. */
  function Delim(f: Field): char
    requires f != Body
  {
    match f
    case Id => '.'
    case Type => ';'
    case Resource => '|'
  }

  predicate Ends(f: Field, c: char) {
    f != Body && c == Delim(f)
  }

  /** Appends text to the field `f` of a packet. */
  function Extend(p: Packet, f: Field, x: string): Packet {
    match f
    case Id => p.(id := p.id + x)
    case Type => p.(kind := p.kind + x)
    case Resource => p.(resource := p.resource + x)
    case Body => p.(body := p.body + x)
  }

  /** Every field of `p` is a prefix of the same field of `q`. */
  predicate Grows(p: Packet, q: Packet) {
    p.id <= q.id && p.kind <= q.kind && p.resource <= q.resource && p.body <= q.body
  }

  /** The scan state: current field, pending escape, and the fields so far. */
  datatype Cursor = Cursor(field: Field, escape: bool, acc: Packet)

  const Start := Cursor(Id, false, Packet("", "", "", ""))

  function Append(s: Cursor, c: char): Cursor {
    s.(acc := Extend(s.acc, s.field, [c]))
  }

  /** One character of the scan. */
  function Step(s: Cursor, c: char): Cursor {
    if s.escape then Append(s.(escape := false), c)
    else if c == '\\' then s.(escape := true)
    else if Ends(s.field, c) then s.(field := Next(s.field))
    else Append(s, c)
  }

  /** The scan of a whole line from a given state. */
  function Run(s: Cursor, line: string): Cursor
    decreases |line|
  {
    if line == [] then s else Run(Step(s, line[0]), line[1..])
  }

  /** `decodePacket`: no packet unless the line holds a `.`, a `;` and a `|`
      somewhere; otherwise the fields the scan collected, empty or not. */
  function Decode(line: string): (r: Option<Packet>)
    ensures r.None? <==> '.' !in line || ';' !in line || '|' !in line
  {
    if '.' !in line || ';' !in line || '|' !in line then None
    else Some(Run(Start, line).acc)
  }

  // ---------------------------------------------------------------------
  // Reference decoder

  /** A character of the line after escapes are resolved: `Escaped(c)` came
      after a backslash and is always literal. */
  datatype Token = Plain(c: char) | Escaped(c: char)

  /** Pairs each unescaped backslash with the character after it; the
      backslash itself disappears, and so does a trailing lone backslash. */
  function Tokenize(line: string): (t: seq<Token>)
    ensures Plain('\\') !in t
    ensures |t| <= |line|
    decreases |line|
  {
    if line == [] then []
    else if line[0] == '\\' then
      if |line| == 1 then [] else [Escaped(line[1])] + Tokenize(line[2..])
    else [Plain(line[0])] + Tokenize(line[1..])
  }

  function Text(t: seq<Token>): (s: string)
    ensures |s| == |t|
    ensures forall i :: 0 <= i < |t| ==> s[i] == t[i].c
  {
    if t == [] then [] else [t[0].c] + Text(t[1..])
  }

  datatype Split = Split(before: seq<Token>, after: seq<Token>)

  /** Cuts a token sequence around its first plain `d`; without one, all of
      it comes before the cut and nothing after. */
  function Cut(t: seq<Token>, d: char): (r: Split)
    ensures Plain(d) !in r.before
    ensures Plain(d) in t ==> t == r.before + [Plain(d)] + r.after
    ensures Plain(d) !in t ==> r.before == t && r.after == []
  {
    if t == [] then Split([], [])
    else if t[0] == Plain(d) then Split([], t[1..])
    else
      var r := Cut(t[1..], d);
      assert t == [t[0]] + t[1..];
      Split([t[0]] + r.before, r.after)
  }

  /** The reference reading of a line: the id runs to the first plain `.`,
      the kind from there to the next plain `;`, the resource to the next
      plain `|`, and the body is the rest. */
  function Reference(line: string): Packet {
    var s1 := Cut(Tokenize(line), '.');
    var s2 := Cut(s1.after, ';');
    var s3 := Cut(s2.after, '|');
    Packet(Text(s1.before), Text(s2.before), Text(s3.before), Text(s3.after))
  }

  /** The scan step on a token, with no escape pending. */
  function TokenStep(s: Cursor, t: Token): Cursor {
    match t
    case Escaped(c) => Append(s, c)
    case Plain(c) => if Ends(s.field, c) then s.(field := Next(s.field)) else Append(s, c)
  }

  function RunTokens(s: Cursor, t: seq<Token>): Cursor
    decreases |t|
  {
    if t == [] then s else RunTokens(TokenStep(s, t[0]), t[1..])
  }

  lemma {:induction false} RunTokensConcat(s: Cursor, a: seq<Token>, b: seq<Token>)
    ensures RunTokens(s, a + b) == RunTokens(RunTokens(s, a), b)
    decreases |a|
  {
    if a == [] {
      assert a + b == b;
    } else {
      assert (a + b)[1..] == a[1..] + b;
      RunTokensConcat(TokenStep(s, a[0]), a[1..], b);
    }
  }

  /** Tokens that hold no delimiter of the current field are all appended to it. */
  lemma {:induction false} RunTokensWithin(s: Cursor, t: seq<Token>)
    requires forall i :: 0 <= i < |t| ==> !(t[i].Plain? && Ends(s.field, t[i].c))
    ensures RunTokens(s, t) == s.(acc := Extend(s.acc, s.field, Text(t)))
    decreases |t|
  {
    if t == [] {
      assert Text(t) == [];
      assert Extend(s.acc, s.field, []) == s.acc;
    } else {
      var s' := Append(s, t[0].c);
      assert !(t[0].Plain? && Ends(s.field, t[0].c));
      assert TokenStep(s, t[0]) == s';
      assert RunTokens(s, t) == RunTokens(s', t[1..]);
      forall i | 0 <= i < |t[1..]|
        ensures !(t[1..][i].Plain? && Ends(s'.field, t[1..][i].c))
      {
        assert t[1..][i] == t[i + 1];
      }
      RunTokensWithin(s', t[1..]);
      ExtendTwice(s.acc, s.field, [t[0].c], Text(t[1..]));
      assert Text(t) == [t[0].c] + Text(t[1..]);
    }
  }

  /** On the tokens, the scan of a field other than the body is the cut at
      its delimiter: the part before is appended and the cursor moves on. */
  lemma CutScan(s: Cursor, t: seq<Token>)
    requires s.field != Body && !s.escape
    ensures
      var sp := Cut(t, Delim(s.field));
      RunTokens(s, t).acc
        == RunTokens(Cursor(Next(s.field), false, Extend(s.acc, s.field, Text(sp.before))), sp.after).acc
  {
    var d := Delim(s.field);
    var sp := Cut(t, d);
    forall i | 0 <= i < |sp.before|
      ensures !(sp.before[i].Plain? && Ends(s.field, sp.before[i].c))
    {
      assert sp.before[i] in sp.before;
    }
    RunTokensWithin(s, sp.before);
    var mid := s.(acc := Extend(s.acc, s.field, Text(sp.before)));
    if Plain(d) in t {
      RunTokensConcat(s, sp.before, [Plain(d)]);
      RunTokensConcat(s, sp.before + [Plain(d)], sp.after);
      assert RunTokens(mid, [Plain(d)]) == Cursor(Next(s.field), false, mid.acc);
    }
  }

  /** A backslash-free scan is a token scan of the resolved line; only the
      escape flag left by a trailing lone backslash can differ. */
  lemma {:induction false} RunAsTokens(s: Cursor, line: string)
    requires !s.escape
    ensures Run(s, line).(escape := false) == RunTokens(s, Tokenize(line))
    decreases |line|
  {
    if line == [] {
    } else if line[0] == '\\' {
      if |line| == 1 {
        assert Run(s, line) == s.(escape := true);
      } else {
        var s1 := Step(s, line[0]);
        assert Run(s, line) == Run(s1, line[1..]);
        assert Run(s1, line[1..]) == Run(Step(s1, line[1]), line[2..]);
        assert Step(s1, line[1]) == Append(s, line[1]);
        RunAsTokens(Append(s, line[1]), line[2..]);
        assert Tokenize(line)[1..] == Tokenize(line[2..]);
      }
    } else {
      assert Step(s, line[0]) == TokenStep(s, Plain(line[0]));
      RunAsTokens(Step(s, line[0]), line[1..]);
      assert Tokenize(line)[1..] == Tokenize(line[1..]);
    }
  }

  /** The scan and the reference decoder collect the same four fields. */
  lemma RunMatchesReference(line: string)
    ensures Run(Start, line).acc == Reference(line)
  {
    RunAsTokens(Start, line);
    var t := Tokenize(line);
    var s1 := Cut(t, '.');
    var s2 := Cut(s1.after, ';');
    var s3 := Cut(s2.after, '|');
    CutScan(Start, t);
    var c1 := Cursor(Type, false, Packet(Text(s1.before), "", "", ""));
    assert Extend(Start.acc, Id, Text(s1.before)) == c1.acc;
    CutScan(c1, s1.after);
    var c2 := Cursor(Resource, false, Packet(Text(s1.before), Text(s2.before), "", ""));
    assert Extend(c1.acc, Type, Text(s2.before)) == c2.acc;
    CutScan(c2, s2.after);
    var c3 := Cursor(Body, false, Packet(Text(s1.before), Text(s2.before), Text(s3.before), ""));
    assert Extend(c2.acc, Resource, Text(s3.before)) == c3.acc;
    RunTokensWithin(c3, s3.after);
  }

  /** The decoder is the reference decoder on every line that passes the
      delimiter check. */
  lemma DecodeMatchesReference(line: string)
    ensures Decode(line).Some? ==> Decode(line).value == Reference(line)
  {
    RunMatchesReference(line);
  }

  // ---------------------------------------------------------------------
  // Properties of the scan

  /** One character: the cursor moves forward by at most one field, and
      exactly on an unescaped delimiter of the current field, which is not
      stored; an escape is pending exactly after an unescaped backslash;
      at most the current field grows, by the character read; an unescaped
      backslash is never stored, and an escaped character or any other
      unescaped character (another field's delimiter, or any delimiter in
      the body) always is. */
  lemma StepCursor(s: Cursor, c: char)
    ensures var r := Step(s, c);
      && Rank(s.field) <= Rank(r.field) <= Rank(s.field) + 1
      && (r.field != s.field <==> !s.escape && Ends(s.field, c))
      && (r.escape <==> !s.escape && c == '\\')
      && (r.acc == s.acc || r.acc == Extend(s.acc, s.field, [c]))
      && (!s.escape && c == '\\' ==> r.acc == s.acc)
      && (s.escape ==> r.acc == Extend(s.acc, s.field, [c]))
      && (!s.escape && c != '\\' && !Ends(s.field, c) ==> r.acc == Extend(s.acc, s.field, [c]))
      && (r.field != s.field ==> r.acc == s.acc)
  {
  }

  /** Over a whole line the cursor never moves back and the fields only
      grow by appending. */
  lemma {:induction false} RunGrows(s: Cursor, line: string)
    ensures Rank(s.field) <= Rank(Run(s, line).field)
    ensures Grows(s.acc, Run(s, line).acc)
    decreases |line|
  {
    if line != [] {
      var s1 := Step(s, line[0]);
      StepCursor(s, line[0]);
      RunGrows(s1, line[1..]);
    }
  }

  lemma {:induction false} RunConcat(s: Cursor, a: string, b: string)
    ensures Run(s, a + b) == Run(Run(s, a), b)
    decreases |a|
  {
    if a == [] {
      assert a + b == b;
    } else {
      assert (a + b)[1..] == a[1..] + b;
      RunConcat(Step(s, a[0]), a[1..], b);
    }
  }

  /** Text with no backslash and no delimiter of the current field is
      appended to that field verbatim. */
  lemma {:induction false} RunLiteral(s: Cursor, x: string)
    requires !s.escape
    requires forall i :: 0 <= i < |x| ==> x[i] != '\\' && !Ends(s.field, x[i])
    ensures Run(s, x) == s.(acc := Extend(s.acc, s.field, x))
    decreases |x|
  {
    if x == [] {
      assert Extend(s.acc, s.field, x) == s.acc;
    } else {
      var s1 := Append(s, x[0]);
      assert Step(s, x[0]) == s1;
      assert Run(s, x) == Run(s1, x[1..]);
      RunLiteral(s1, x[1..]);
      ExtendTwice(s.acc, s.field, [x[0]], x[1..]);
      assert [x[0]] + x[1..] == x;
    }
  }

  lemma ExtendTwice(p: Packet, f: Field, a: string, b: string)
    ensures Extend(Extend(p, f, a), f, b) == Extend(p, f, a + b)
  {
    match f
    case Id => assert p.id + a + b == p.id + (a + b);
    case Type => assert p.kind + a + b == p.kind + (a + b);
    case Resource => assert p.resource + a + b == p.resource + (a + b);
    case Body => assert p.body + a + b == p.body + (a + b);
  }

  /** A character right after an unescaped backslash lands in the current
      field whatever it is, and the backslash itself is not stored. */
  lemma EscapedCharIsLiteral(s: Cursor, c: char, rest: string)
    requires !s.escape
    ensures Run(s, ['\\', c] + rest) == Run(Append(s, c), rest)
  {
    RunConcat(s, ['\\', c], rest);
    assert Run(s, ['\\', c]) == Run(Step(s, '\\'), [c]);
    assert Run(Step(s, '\\'), [c]) == Run(Step(Step(s, '\\'), c), []);
  }

  /** A lone backslash at the end of a line is dropped. */
  lemma TrailingBackslashIsDropped(line: string)
    requires !Run(Start, line).escape
    ensures Decode(line + "\\") == Decode(line)
  {
    RunConcat(Start, line, "\\");
    var e := Run(Start, line);
    assert Run(e, "\\") == Run(Step(e, '\\'), []);
    assert forall c :: c in line + "\\" && c != '\\' ==> c in line;
  }

  /** A field written without escapes and closed by its delimiter moves the
      cursor on with exactly that text stored. */
  lemma {:induction false} RunField(s: Cursor, x: string)
    requires !s.escape && s.field != Body
    requires '\\' !in x && Delim(s.field) !in x
    ensures Run(s, x + [Delim(s.field)])
      == Cursor(Next(s.field), false, Extend(s.acc, s.field, x))
  {
    var d := Delim(s.field);
    forall i | 0 <= i < |x|
      ensures x[i] != '\\' && !Ends(s.field, x[i])
    {
      assert x[i] in x;
    }
    RunLiteral(s, x);
    RunConcat(s, x, [d]);
    var m := s.(acc := Extend(s.acc, s.field, x));
    assert Run(m, [d]) == Run(Step(m, d), []);
  }

  /** Round trip: a packet whose fields hold neither a backslash nor the
      delimiter that would end them decodes back to itself; in particular
      the encoded form always decodes. */
  lemma DecodeEncode(p: Packet)
    requires RoundTrips(p)
    ensures Decode(Encode(p)) == Some(p)
  {
    var a := p.id + ".";
    var b := p.kind + ";";
    var c := p.resource + "|";
    assert Encode(p) == a + b + c + p.body;
    RunField(Start, p.id);
    var c1 := Cursor(Type, false, Packet(p.id, "", "", ""));
    assert Run(Start, a) == c1;
    RunField(c1, p.kind);
    var c2 := Cursor(Resource, false, Packet(p.id, p.kind, "", ""));
    assert Run(c1, b) == c2;
    RunField(c2, p.resource);
    var c3 := Cursor(Body, false, Packet(p.id, p.kind, p.resource, ""));
    assert Run(c2, c) == c3;
    forall i | 0 <= i < |p.body|
      ensures p.body[i] != '\\' && !Ends(Body, p.body[i])
    {
      assert p.body[i] in p.body;
    }
    RunLiteral(c3, p.body);
    assert Run(c3, p.body).acc == p;
    RunConcat(Start, a, b);
    RunConcat(Start, a + b, c);
    RunConcat(Start, a + b + c, p.body);
  }

  /** Encoding does not escape, so a `.` inside the id ends the id early:
      the text after it is pushed into the kind, and the packet decodes to a
      different one with the same wire form. */
  lemma DotInIdShiftsIntoKind(a: string, b: string, m: string, r: string, x: string)
    requires RoundTrips(Packet(a, b + "." + m, r, x))
    ensures Encode(Packet(a + "." + b, m, r, x)) == Encode(Packet(a, b + "." + m, r, x))
    ensures Decode(Encode(Packet(a + "." + b, m, r, x))) == Some(Packet(a, b + "." + m, r, x))
  {
    var p := Packet(a + "." + b, m, r, x);
    var q := Packet(a, b + "." + m, r, x);
    assert Encode(p) == Encode(q) by {
      assert Encode(p) == a + "." + b + "." + m + ";" + r + "|" + x;
      assert Encode(q) == a + "." + (b + "." + m) + ";" + r + "|" + x;
    }
    DecodeEncode(q);
  }

  /** The smallest instance: id "a.b" comes back as id "a" and kind "b.MSG". */
  lemma DotInIdDoesNotRoundTrip(p: Packet)
    requires p == Packet("a.b", "MSG", "r", "x")
    ensures Decode(Encode(p)) == Some(Packet("a", "b.MSG", "r", "x"))
    ensures Decode(Encode(p)) != Some(p)
  {
    assert "a" + "." + "b" == "a.b";
    assert "b" + "." + "MSG" == "b.MSG";
    DotInIdShiftsIntoKind("a", "b", "MSG", "r", "x");
  }

  // ---------------------------------------------------------------------
  // The escaped form the decoder understands

  /** The characters the wire format reserves. */
  predicate Reserved(c: char) {
    c == '.' || c == ';' || c == '|' || c == '\\'
  }

  /** Puts a backslash before every reserved character: the escaping the
      decoder undoes, although the encoder never applies it. */
  function Escape(x: string): (e: string)
    ensures |x| <= |e| <= 2 * |x|
  {
    if x == [] then []
    else (if Reserved(x[0]) then ['\\', x[0]] else [x[0]]) + Escape(x[1..])
  }

  lemma {:induction false} EscapeConcat(x: string, y: string)
    ensures Escape(x + y) == Escape(x) + Escape(y)
    decreases |x|
  {
    if x == [] {
      assert x + y == y;
    } else {
      assert (x + y)[1..] == x[1..] + y;
      EscapeConcat(x[1..], y);
    }
  }

  /** Text without reserved characters needs no escaping. */
  lemma {:induction false} EscapeUnreserved(x: string)
    requires forall i :: 0 <= i < |x| ==> !Reserved(x[i])
    ensures Escape(x) == x
    decreases |x|
  {
    if x != [] {
      EscapeUnreserved(x[1..]);
      assert x == [x[0]] + x[1..];
    }
  }

  lemma EscapeReserved(c: char)
    requires Reserved(c)
    ensures Escape([c]) == ['\\', c]
  {
    assert [c][1..] == [];
  }

  /** A packet in wire form with every field escaped. */
  function EscapedWire(p: Packet): string {
    Escape(p.id) + "." + Escape(p.kind) + ";" + Escape(p.resource) + "|" + Escape(p.body)
  }

  /** An escaped text is stored in the current field exactly as it was
      before escaping, whichever field that is. */
  lemma {:induction false} RunEscaped(s: Cursor, x: string)
    requires !s.escape
    ensures Run(s, Escape(x)) == s.(acc := Extend(s.acc, s.field, x))
    decreases |x|
  {
    if x == [] {
      assert Extend(s.acc, s.field, x) == s.acc;
    } else {
      var s1 := Append(s, x[0]);
      if Reserved(x[0]) {
        EscapedCharIsLiteral(s, x[0], Escape(x[1..]));
      } else {
        assert Escape(x) == [x[0]] + Escape(x[1..]);
        assert Run(s, Escape(x)) == Run(s1, Escape(x[1..]));
      }
      RunEscaped(s1, x[1..]);
      ExtendTwice(s.acc, s.field, [x[0]], x[1..]);
      assert [x[0]] + x[1..] == x;
    }
  }

  /** An escaped field closed by its delimiter moves the cursor on with the
      unescaped text stored. */
  lemma EscapedField(s: Cursor, x: string)
    requires !s.escape && s.field != Body
    ensures Run(s, Escape(x) + [Delim(s.field)])
      == Cursor(Next(s.field), false, Extend(s.acc, s.field, x))
  {
    RunEscaped(s, x);
    RunConcat(s, Escape(x), [Delim(s.field)]);
    var m := Run(s, Escape(x));
    assert Run(m, [Delim(s.field)]) == Run(Step(m, Delim(s.field)), []);
  }

  lemma EscapedWireIsComplete(p: Packet)
    ensures var w := EscapedWire(p); '.' in w && ';' in w && '|' in w
  {
    var a := Escape(p.id) + ".";
    var b := Escape(p.kind) + ";";
    var c := Escape(p.resource) + "|";
    var w := a + b + c + Escape(p.body);
    assert EscapedWire(p) == w;
    assert w[|Escape(p.id)|] == '.';
    assert w[|a| + |Escape(p.kind)|] == ';';
    assert w[|a| + |b| + |Escape(p.resource)|] == '|';
  }

  /** With escaping, every packet survives the trip through the wire,
      whatever its fields hold. */
  lemma DecodeEscapedWire(p: Packet)
    ensures Decode(EscapedWire(p)) == Some(p)
  {
    var a := Escape(p.id) + ".";
    var b := Escape(p.kind) + ";";
    var c := Escape(p.resource) + "|";
    assert EscapedWire(p) == a + b + c + Escape(p.body);
    EscapedField(Start, p.id);
    var c1 := Cursor(Type, false, Packet(p.id, "", "", ""));
    assert Run(Start, a) == c1;
    EscapedField(c1, p.kind);
    var c2 := Cursor(Resource, false, Packet(p.id, p.kind, "", ""));
    assert Run(c1, b) == c2;
    EscapedField(c2, p.resource);
    var c3 := Cursor(Body, false, Packet(p.id, p.kind, p.resource, ""));
    assert Run(c2, c) == c3;
    RunEscaped(c3, p.body);
    assert Run(c3, Escape(p.body)).acc == p;
    RunConcat(Start, a, b);
    RunConcat(Start, a + b, c);
    RunConcat(Start, a + b + c, Escape(p.body));
    EscapedWireIsComplete(p);
  }

  /** An escaped `.` stays in the id and does not move the cursor. */
  lemma EscapedDotStaysInId(line: string)
    requires line == "a\\.b.SYS;r|body"
    ensures Decode(line) == Some(Packet("a.b", "SYS", "r", "body"))
  {
    var p := Packet("a.b", "SYS", "r", "body");
    assert "a" + "." + "b" == "a.b";
    EscapedDotWire(p, "a", "b", "SYS", "r", "body");
    DecodeEscapedWire(p);
  }

  lemma EscapedDotWire(p: Packet, a: string, b: string, k: string, r: string, x: string)
    requires a == "a" && b == "b" && k == "SYS" && r == "r" && x == "body"
    requires p == Packet(a + "." + b, k, r, x)
    ensures EscapedWire(p) == "a\\.b.SYS;r|body"
  {
    EscapeAround(a, '.', b);
    EscapeUnreserved(k);
    EscapeUnreserved(r);
    EscapeUnreserved(x);
    assert "\\." == ['\\', '.'];
    EscapedDotJoined();
  }

  /** Escaping a text with one reserved character between two plain ones
      adds exactly one backslash, before it. */
  lemma EscapeAround(a: string, c: char, b: string)
    requires forall i :: 0 <= i < |a| ==> !Reserved(a[i])
    requires forall i :: 0 <= i < |b| ==> !Reserved(b[i])
    requires Reserved(c)
    ensures Escape(a + [c] + b) == a + ['\\', c] + b
  {
    EscapeConcat(a + [c], b);
    EscapeConcat(a, [c]);
    EscapeUnreserved(a);
    EscapeUnreserved(b);
    EscapeReserved(c);
  }

  /** A structurally complete line may still yield all-empty fields, which
      decode but are not valid. */
  lemma EmptyFieldsDecodeButAreInvalid(line: string)
    requires line == ".;|"
    ensures Decode(line) == Some(Packet("", "", "", ""))
    ensures !Valid(Decode(line).value)
  {
    var p := Packet("", "", "", "");
    assert Encode(p) == line;
    DecodeEncode(p);
  }

  // ---------------------------------------------------------------------
  // Literal-concatenation helpers. The fixed examples above take their
  // literals as parameters pinned by a `requires`, and these lemmas state
  // how each literal is assembled from its parts, so that no proof has to
  // unfold a long string literal character by character.

  lemma EscapedDotJoined()
    ensures "a" + "\\." + "b" + "." + "SYS" + ";" + "r" + "|" + "body" == "a\\.b.SYS;r|body"
  {
  }
}
