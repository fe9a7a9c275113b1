/**
 Packetized Serial Protocol (src/firmware/libs/PSP/PSP.h): an incremental frame
 parser that resynchronises on the start byte, and the printer of frames.

 `Process` follows one call of the source's fall-through switch, with bytes that may arrive
 while it runs. `Drain` is the meaning of a byte stream, one grammar rule at a time. The
 theorems say that every schedule of arrivals and calls, with every resync timeout, computes
 `Drain`, that calls alone settle a stream exactly when it does not jam, and what a printed
 list of frames is then read back as.
 */
module Psp {
  import opened Bytes
  import opened Options

  const START: byte := 0x01
  const END: byte := 0x02
  const MAX_PACK_LENGTH := 200

  datatype Phase = LookingForStart | WaitingForHeader | WaitingForPacket
  datatype Code = OK | StreamEmpty | ResyncTimeout | WrongStartByte | NotEnoughBytes | InvalidHeader

  type Packet = seq<byte>

  /** The members of packetizedSerial that a call to process_stream can change. */
  datatype Parser = Parser(phase: Phase, lastHeader: uint16, valid: bool, buffer: seq<byte>)
  {
    /** The invariant that keeps every write inside the 200-byte buffer. */
    ghost predicate Valid() {
      && |buffer| == MAX_PACK_LENGTH
      && (phase.WaitingForPacket? ==> lastHeader <= MAX_PACK_LENGTH)
    }
  }

  /** Overwrites the front of the packet buffer, as readBytes(buffer, n) does. */
  function Fill(buffer: seq<byte>, data: seq<byte>): (r: seq<byte>)
    requires |data| <= |buffer|
    ensures |r| == |buffer|
  {
    data + buffer[|data|..]
  }

  // ---------- The meaning of a byte stream ----------

  datatype Drained = Drained(packets: seq<Packet>, parser: Parser, left: seq<byte>)

  /** One rule of the grammar: the parser and stream after consuming one field, and
      the packet that field completed, if any. None when the stream is too short. */
  datatype Rule = Stuck | Consume(parser: Parser, rest: seq<byte>, packets: seq<Packet>)

  function Apply(p: Parser, s: seq<byte>): (r: Rule)
    requires p.Valid()
    ensures r.Consume? ==> r.parser.Valid() && |r.rest| < |s|
    ensures r.Consume? ==> forall k | k in r.packets :: |k| <= MAX_PACK_LENGTH
  {
    match p.phase
    case LookingForStart =>
      if s == [] then Stuck
      else Consume(p.(valid := false, phase := if s[0] == START then WaitingForHeader else LookingForStart), s[1..], [])
    case WaitingForHeader =>
      if |s| < 2 then Stuck
      else
        var h := FromLE16(s[..2]);
        if h <= MAX_PACK_LENGTH then Consume(p.(lastHeader := h, phase := WaitingForPacket), s[2..], [])
        else Consume(p.(lastHeader := h, phase := LookingForStart, valid := false), s[2..], [])
    case WaitingForPacket =>
      var n := p.lastHeader;
      if |s| < n + 1 then Stuck
      else
        Consume(p.(phase := LookingForStart, valid := s[n] == END, buffer := Fill(p.buffer, s[..n])),
                s[n + 1..],
                if s[n] == END then [s[..n]] else [])
  }

  /** The packets `out` come before everything in d. */
  function Then(out: seq<Packet>, d: Drained): Drained
  {
    Drained(out + d.packets, d.parser, d.left)
  }

  lemma ThenAssoc(a: seq<Packet>, b: seq<Packet>, d: Drained)
    ensures Then(a, Then(b, d)) == Then(a + b, d)
  {
    assert a + (b + d.packets) == (a + b) + d.packets;
  }

  function Drain(p: Parser, s: seq<byte>): (r: Drained)
    requires p.Valid()
    ensures r.parser.Valid()
    decreases |s|
  {
    match Apply(p, s)
    case Stuck => Drained([], p, s)
    case Consume(p', rest, out) => Then(out, Drain(p', rest))
  }

  // ---------- One call of process_stream ----------

  /** How many bytes `resync` discards: it looks at no more than `budget` bytes before
      its timeout, and at no more than available() truncated to 16 bits. */
  function ResyncCount(s: seq<byte>, limit: nat): (n: nat)
    ensures n <= |s| && n <= limit
    ensures forall i | 0 <= i < n :: s[i] != START
  {
    if s == [] || limit == 0 || s[0] == START then 0 else 1 + ResyncCount(s[1..], limit - 1)
  }

  function ScanLimit(s: seq<byte>, budget: nat): nat { Min(|s| % 0x1_0000, budget) }

  /** Bytes that arrive while a call runs: before resync counts the available ones, before
      the test for a whole header, before the test for a whole packet. */
  datatype Meanwhile = Meanwhile(start: seq<byte>, header: seq<byte>, packet: seq<byte>)
  {
    function All(): seq<byte> { start + header + packet }
  }

  const NOTHING := Meanwhile([], [], [])

  /** `late`: the bytes of Meanwhile that the call returned too early to see. */
  datatype Called = Called(code: Code, parser: Parser, stream: seq<byte>, late: seq<byte>)
  {
    function Left(): seq<byte> { stream + late }
  }

  function Process(p: Parser, s: seq<byte>, budget: nat, m: Meanwhile): (r: Called)
    requires p.Valid()
  {
    if s == [] then Called(StreamEmpty, p, s, m.All())
    else match p.phase
      case LookingForStart => AtStart(p, s + m.start, budget, m.header, m.packet)
      case WaitingForHeader => AtHeader(p, s + (m.start + m.header), m.packet)
      case WaitingForPacket => AtPacket(p, s + m.All())
  }

  function AtStart(p: Parser, s: seq<byte>, budget: nat, header: seq<byte>, packet: seq<byte>): Called
    requires p.Valid() && p.phase.LookingForStart? && s != []
  {
    var q := p.(valid := false);
    if s[0] == START then AtHeader(q.(phase := WaitingForHeader), s[1..] + header, packet)
    else
      var limit := ScanLimit(s, budget);
      var n := ResyncCount(s, limit);
      if n == limit then Called(ResyncTimeout, q, s[n..], header + packet)       // resync() == false
      else if n == |s| || s[n] != START then Called(WrongStartByte, q, s[n..], header + packet)
      else AtHeader(q.(phase := WaitingForHeader), s[n + 1..] + header, packet)
  }

  function AtHeader(p: Parser, s: seq<byte>, packet: seq<byte>): Called
    requires p.Valid() && p.phase.WaitingForHeader?
  {
    if |s| < 2 then Called(NotEnoughBytes, p, s, packet)
    else
      var h := FromLE16(s[..2]);
      if h <= MAX_PACK_LENGTH then AtPacket(p.(lastHeader := h, phase := WaitingForPacket), s[2..] + packet)
      else Called(InvalidHeader, p.(lastHeader := h, phase := LookingForStart, valid := false), s[2..], packet)
  }

  function AtPacket(p: Parser, s: seq<byte>): Called
    requires p.Valid() && p.phase.WaitingForPacket?
  {
    var n := p.lastHeader;
    if |s| < n + 1 then Called(NotEnoughBytes, p, s, [])
    else
      Called(OK, p.(phase := LookingForStart, valid := s[n] == END, buffer := Fill(p.buffer, s[..n])), s[n + 1..], [])
  }

  /** What a caller of recv_packet reads out of the buffer after the call. */
  function Received(c: Called): (r: seq<Packet>)
    requires c.code.OK? ==> c.parser.Valid() && c.parser.lastHeader <= MAX_PACK_LENGTH
  {
    if c.code.OK? && c.parser.valid then [c.parser.buffer[..c.parser.lastHeader]] else []
  }

  // ---------- Every call computes a part of the meaning ----------

  lemma {:induction false} ApplyExtends(p: Parser, a: seq<byte>, b: seq<byte>)
    requires p.Valid() && Apply(p, a).Consume?
    ensures Apply(p, a + b) == Apply(p, a).(rest := Apply(p, a).rest + b)
  {
    match p.phase
    case LookingForStart => assert (a + b)[1..] == a[1..] + b;
    case WaitingForHeader =>
      assert (a + b)[..2] == a[..2] && (a + b)[2..] == a[2..] + b;
    case WaitingForPacket =>
      var n := p.lastHeader;
      assert (a + b)[..n] == a[..n] && (a + b)[n + 1..] == a[n + 1..] + b;
  }

  lemma {:induction false} ResyncSkips(p: Parser, s: seq<byte>, limit: nat, more: seq<byte>)
    requires p.Valid() && p.phase.LookingForStart? && !p.valid
    ensures Drain(p, s + more) == Drain(p, s[ResyncCount(s, limit)..] + more)
    decreases |s|
  {
    var n := ResyncCount(s, limit);
    if n > 0 {
      ResyncSkips(p, s[1..], limit - 1, more);
      assert s[1..][n - 1..] == s[n..];
      ApplyExtends(p, s, more);
    } else {
      assert s[0..] == s;
    }
  }

  lemma PacketSound(p: Parser, s: seq<byte>)
    requires p.Valid() && p.phase.WaitingForPacket?
    ensures Sound(p, s, AtPacket(p, s))
  {
    var c := AtPacket(p, s);
    assert c.Left() == c.stream;
    if |s| >= p.lastHeader + 1 {
      assert Fill(p.buffer, s[..p.lastHeader])[..p.lastHeader] == s[..p.lastHeader];
    }
  }

  lemma HeaderSound(p: Parser, s: seq<byte>, packet: seq<byte>)
    requires p.Valid() && p.phase.WaitingForHeader?
    ensures Sound(p, s + packet, AtHeader(p, s, packet))
  {
    if |s| >= 2 {
      ApplyExtends(p, s, packet);
      if FromLE16(s[..2]) <= MAX_PACK_LENGTH {
        PacketSound(p.(lastHeader := FromLE16(s[..2]), phase := WaitingForPacket), s[2..] + packet);
      }
    }
  }

  /** The packets a call hands out, followed by the meaning of what it left, is the
      meaning of the bytes s it was given and of those that arrived while it ran. */
  ghost predicate Sound(p: Parser, s: seq<byte>, c: Called)
    requires p.Valid()
  {
    && c.parser.Valid()
    && (c.code.OK? ==> c.parser.lastHeader <= MAX_PACK_LENGTH)
    && Drain(p, s) == Then(Received(c), Drain(c.parser, c.Left()))
  }

  lemma DrainIgnoresValid(p: Parser, s: seq<byte>)
    requires p.Valid() && p.phase.LookingForStart? && s != []
    ensures Drain(p, s) == Drain(p.(valid := false), s)
  {
  }

  /** The start byte is read, and more bytes arrive. */
  lemma StartByteSound(q: Parser, s: seq<byte>, header: seq<byte>, packet: seq<byte>)
    requires q.Valid() && q.phase.LookingForStart? && !q.valid && s != [] && s[0] == START
    ensures Sound(q, s + (header + packet), AtHeader(q.(phase := WaitingForHeader), s[1..] + header, packet))
  {
    ApplyExtends(q, s, header + packet);
    assert s[1..] + (header + packet) == (s[1..] + header) + packet;
    HeaderSound(q.(phase := WaitingForHeader), s[1..] + header, packet);
  }

  lemma StartSound(p: Parser, s: seq<byte>, budget: nat, header: seq<byte>, packet: seq<byte>)
    requires p.Valid() && p.phase.LookingForStart? && s != []
    ensures Sound(p, s + (header + packet), AtStart(p, s, budget, header, packet))
  {
    hide AtHeader;
    var q := p.(valid := false);
    DrainIgnoresValid(p, s + (header + packet));
    if s[0] == START {
      StartByteSound(q, s, header, packet);
    } else {
      var n := ResyncCount(s, ScanLimit(s, budget));
      ResyncSkips(q, s, ScanLimit(s, budget), header + packet);
      if n < |s| && s[n] == START {
        StartByteSound(q, s[n..], header, packet);
        assert s[n..][1..] == s[n + 1..];
      }
    }
  }

  /** For every parser state, stream, resync timeout and arrivals during the call. */
  lemma CallSound(p: Parser, s: seq<byte>, budget: nat, m: Meanwhile)
    requires p.Valid()
    ensures Sound(p, s + m.All(), Process(p, s, budget, m))
  {
    if s != [] {
      assert s + m.All() == (s + m.start) + (m.header + m.packet) == (s + (m.start + m.header)) + m.packet;
      match p.phase
      case WaitingForHeader => HeaderSound(p, s + (m.start + m.header), m.packet);
      case WaitingForPacket => PacketSound(p, s + m.All());
      case LookingForStart => StartSound(p, s + m.start, budget, m.header, m.packet);
    }
  }

  // ---------- Every schedule of arrivals and calls ----------

  /** Draining after a and then after b is draining a + b, for every parser state and split. */
  lemma {:induction false} DrainSplit(p: Parser, a: seq<byte>, b: seq<byte>)
    requires p.Valid()
    ensures var d := Drain(p, a);
            Drain(p, a + b) == Then(d.packets, Drain(d.parser, d.left + b))
    decreases |a|
  {
    match Apply(p, a)
    case Stuck => assert Drain(p, a) == Drained([], p, a);
    case Consume(p', rest, out) =>
      ApplyExtends(p, a, b);
      DrainSplit(p', rest, b);
      var d := Drain(p', rest);
      ThenAssoc(out, d.packets, Drain(d.parser, d.left + b));
  }

  /** The receive side over time: bytes arrive, or the program calls recv_packet. That call's
      resync may look at `budget` bytes before its timeout, and bytes arrive while it runs. */
  datatype Action = Arrive(bytes: seq<byte>) | Call(budget: nat, meanwhile: Meanwhile)
  {
    function Bytes(): seq<byte> { if Arrive? then bytes else meanwhile.All() }
  }

  datatype World = World(parser: Parser, stream: seq<byte>, packets: seq<Packet>)

  function Act(w: World, a: Action): (r: World)
    requires w.parser.Valid()
    ensures r.parser.Valid()
  {
    match a
    case Arrive(bytes) => w.(stream := w.stream + bytes)
    case Call(budget, m) =>
      CallSound(w.parser, w.stream, budget, m);
      var c := Process(w.parser, w.stream, budget, m);
      World(c.parser, c.Left(), w.packets + Received(c))
  }

  function Run(w: World, actions: seq<Action>): (r: World)
    requires w.parser.Valid()
    ensures r.parser.Valid()
    decreases |actions|
  {
    if actions == [] then w else Run(Act(w, actions[0]), actions[1..])
  }

  function Arrived(actions: seq<Action>): seq<byte>
  {
    if actions == [] then [] else actions[0].Bytes() + Arrived(actions[1..])
  }

  /** What was handed out so far, followed by the meaning of what is still unread and of
      the bytes `more` yet to come. */
  function Total(w: World, more: seq<byte>): Drained
    requires w.parser.Valid()
  {
    Then(w.packets, Drain(w.parser, w.stream + more))
  }

  lemma ActKeepsTotal(w: World, a: Action, more: seq<byte>)
    requires w.parser.Valid()
    ensures Total(w, a.Bytes() + more) == Total(Act(w, a), more)
  {
    assert w.stream + (a.Bytes() + more) == (w.stream + a.Bytes()) + more;
    if a.Call? { CallKeepsTotal(w, a.budget, a.meanwhile, more); }
  }

  lemma CallKeepsTotal(w: World, budget: nat, m: Meanwhile, more: seq<byte>)
    requires w.parser.Valid()
    ensures Then(w.packets, Drain(w.parser, (w.stream + m.All()) + more)) == Total(Act(w, Call(budget, m)), more)
  {
    hide Process, Drain, Apply;
    var p, s := w.parser, w.stream + m.All();
    CallSound(p, w.stream, budget, m);
    var c := Process(p, w.stream, budget, m);
    var d := Drain(c.parser, c.Left());
    var e := Drain(d.parser, d.left + more);
    assert Drain(p, s + more) == Then(Received(c) + d.packets, e) by { DrainSplit(p, s, more); }
    assert Drain(c.parser, c.Left() + more) == Then(d.packets, e) by { DrainSplit(c.parser, c.Left(), more); }
    ThenAssoc(Received(c), d.packets, e);
    ThenAssoc(w.packets, Received(c), Then(d.packets, e));
  }

  /** In every run, what was handed out so far plus the meaning of what is still unread is
      the meaning of everything that arrived. */
  lemma {:induction false} RunComputesDrain(w: World, actions: seq<Action>)
    requires w.parser.Valid()
    ensures Total(w, Arrived(actions)) == Total(Run(w, actions), [])
    decreases |actions|
  {
    if actions != [] {
      ActKeepsTotal(w, actions[0], Arrived(actions[1..]));
      RunComputesDrain(Act(w, actions[0]), actions[1..]);
    }
  }

  lemma {:induction false} RunExtends(w: World, actions: seq<Action>)
    requires w.parser.Valid()
    ensures w.packets <= Run(w, actions).packets
    decreases |actions|
  {
    if actions != [] { RunExtends(Act(w, actions[0]), actions[1..]); }
  }

  /** No grammar rule applies: a further call could only wait for bytes. */
  ghost predicate Settled(w: World)
    requires w.parser.Valid()
  {
    Apply(w.parser, w.stream).Stuck?
  }

  lemma SettledTotal(w: World)
    requires w.parser.Valid() && Settled(w)
    ensures Total(w, []) == Drained(w.packets, w.parser, w.stream)
  {
    assert w.stream + [] == w.stream;
  }

  /** Parsing does not depend on how bytes arrive, on when recv_packet is called or on
      resync timeouts: two settled runs over the same bytes agree on everything. */
  lemma ArrivalIndependence(w: World, s: seq<Action>, t: seq<Action>)
    requires w.parser.Valid() && Arrived(s) == Arrived(t)
    requires Settled(Run(w, s)) && Settled(Run(w, t))
    ensures Run(w, s) == Run(w, t)
  {
    RunComputesDrain(w, s);
    RunComputesDrain(w, t);
    SettledTotal(Run(w, s));
    SettledTotal(Run(w, t));
  }

  /** A call during which nothing arrives consumes nothing exactly when the stream is too short
      for its phase, or when resync scans no byte: its timeout is already over, or 65536 bytes
      (a multiple of them) wait unread and available() truncates to zero. */
  lemma StuckExactly(p: Parser, s: seq<byte>, budget: nat)
    requires p.Valid()
    ensures var left := Process(p, s, budget, NOTHING).Left();
            && |left| <= |s| && (|left| == |s| ==> left == s)
            && (left == s <==>
                  || Apply(p, s).Stuck?
                  || (p.phase.LookingForStart? && s[0] != START && (budget == 0 || |s| % 0x1_0000 == 0)))
  {
    if s == [] {
      assert Process(p, s, budget, NOTHING).Left() == s;
    } else {
      hide Process;
      QuietCall(p, s, budget);
      match p.phase
      case LookingForStart => StartShrinks(p, s, budget);
      case WaitingForHeader => HeaderShrinks(p, s);
      case WaitingForPacket =>
    }
  }

  lemma HeaderShrinks(p: Parser, s: seq<byte>)
    requires p.Valid() && p.phase.WaitingForHeader?
    ensures var left := AtHeader(p, s, []).Left(); if |s| < 2 then left == s else |left| < |s|
  {
  }

  lemma StartShrinks(p: Parser, s: seq<byte>, budget: nat)
    requires p.Valid() && p.phase.LookingForStart? && s != []
    ensures var left := AtStart(p, s, budget, [], []).Left();
            if s[0] != START && (budget == 0 || |s| % 0x1_0000 == 0) then left == s else |left| < |s|
  {
    hide AtHeader;
    var q := p.(valid := false, phase := WaitingForHeader);
    if s[0] == START {
      assert s[1..] + [] == s[1..];
      HeaderShrinks(q, s[1..]);
    } else {
      var limit := ScanLimit(s, budget);
      var n := ResyncCount(s, limit);
      assert limit > 0 ==> n > 0;
      ResyncStops(s, limit);
      if n < limit {
        assert s[n + 1..] + [] == s[n + 1..];
        HeaderShrinks(q, s[n + 1..]);
      }
    }
  }

  /** What a call does when nothing arrives during it. */
  lemma QuietCall(p: Parser, s: seq<byte>, budget: nat)
    requires p.Valid() && s != []
    ensures Process(p, s, budget, NOTHING) ==
            match p.phase
            case LookingForStart => AtStart(p, s, budget, [], [])
            case WaitingForHeader => AtHeader(p, s, [])
            case WaitingForPacket => AtPacket(p, s)
  {
    assert NOTHING.All() == [] && s + [] == s && s + ([] + []) == s;
  }

  /** The defensive WRONG_START_BYTE outcome never occurs. */
  lemma {:induction false} ResyncStops(s: seq<byte>, limit: nat)
    requires limit <= |s|
    ensures var n := ResyncCount(s, limit); n < limit ==> s[n] == START
    decreases |s|
  {
    if s != [] && limit > 0 && s[0] != START {
      ResyncStops(s[1..], limit - 1);
    }
  }

  lemma NeverWrongStartByte(p: Parser, s: seq<byte>, budget: nat, m: Meanwhile)
    requires p.Valid()
    ensures Process(p, s, budget, m).code != WrongStartByte
  {
    ResyncStops(s + m.start, ScanLimit(s + m.start, budget));
  }

  // ---------- Calls alone settle a stream, unless it jams ----------

  /** The parser looks for a start byte, does not see one, and resync would count the unread
      bytes as none. */
  predicate Jam(p: Parser, s: seq<byte>)
  {
    p.phase.LookingForStart? && s != [] && s[0] != START && |s| % 0x1_0000 == 0
  }

  /** Consuming the stream field by field comes to a jam. */
  predicate Jams(p: Parser, s: seq<byte>)
    requires p.Valid()
    decreases |s|
  {
    Jam(p, s) ||
    match Apply(p, s)
    case Stuck => false
    case Consume(p', rest, _) => Jams(p', rest)
  }

  /** Fewer than 65536 bytes never jam. */
  lemma {:induction false} ShortNeverJams(p: Parser, s: seq<byte>)
    requires p.Valid() && |s| < 0x1_0000
    ensures !Jams(p, s)
    decreases |s|
  {
    match Apply(p, s)
    case Stuck =>
    case Consume(p', rest, _) => ShortNeverJams(p', rest);
  }

  lemma JamsIgnoresValid(p: Parser, s: seq<byte>)
    requires p.Valid() && p.phase.LookingForStart?
    ensures Jams(p, s) <==> Jams(p.(valid := false), s)
  {
  }

  lemma OneLess(n: nat)
    requires n % 0x1_0000 > 0
    ensures (n - 1) % 0x1_0000 == n % 0x1_0000 - 1
  {
  }

  /** Resync never scans past a jam: it looks at no more bytes than are above a multiple of 65536. */
  lemma {:induction false} ResyncKeepsJams(p: Parser, s: seq<byte>, limit: nat)
    requires p.Valid() && p.phase.LookingForStart? && !p.valid && limit <= |s| % 0x1_0000
    ensures Jams(p, s) <==> Jams(p, s[ResyncCount(s, limit)..])
    decreases |s|
  {
    var n := ResyncCount(s, limit);
    if n > 0 {
      assert Apply(p, s) == Consume(p, s[1..], []);
      hide Apply;
      OneLess(|s|);
      ResyncKeepsJams(p, s[1..], limit - 1);
      assert s[1..][n - 1..] == s[n..];
    } else {
      assert s[0..] == s;
    }
  }

  lemma PacketKeepsJams(p: Parser, s: seq<byte>)
    requires p.Valid() && p.phase.WaitingForPacket?
    ensures var c := AtPacket(p, s); c.parser.Valid() && (Jams(c.parser, c.Left()) <==> Jams(p, s))
  {
    PacketSound(p, s);
    var c := AtPacket(p, s);
    assert c.Left() == c.stream;
  }

  lemma HeaderKeepsJams(p: Parser, s: seq<byte>)
    requires p.Valid() && p.phase.WaitingForHeader?
    ensures var c := AtHeader(p, s, []); c.parser.Valid() && (Jams(c.parser, c.Left()) <==> Jams(p, s))
  {
    var c := AtHeader(p, s, []);
    if |s| >= 2 && FromLE16(s[..2]) <= MAX_PACK_LENGTH {
      assert s[2..] + [] == s[2..];
      PacketKeepsJams(p.(lastHeader := FromLE16(s[..2]), phase := WaitingForPacket), s[2..]);
    } else {
      assert c.Left() == c.stream;
    }
  }

  lemma StartByteKeepsJams(q: Parser, s: seq<byte>)
    requires q.Valid() && q.phase.LookingForStart? && !q.valid && s != [] && s[0] == START
    ensures var c := AtHeader(q.(phase := WaitingForHeader), s[1..] + [], []);
            c.parser.Valid() && (Jams(c.parser, c.Left()) <==> Jams(q, s))
  {
    assert s[1..] + [] == s[1..];
    HeaderKeepsJams(q.(phase := WaitingForHeader), s[1..]);
  }

  lemma StartKeepsJams(p: Parser, s: seq<byte>, budget: nat)
    requires p.Valid() && p.phase.LookingForStart? && s != []
    ensures var c := AtStart(p, s, budget, [], []);
            c.parser.Valid() && (Jams(c.parser, c.Left()) <==> Jams(p, s))
  {
    var q := p.(valid := false);
    JamsIgnoresValid(p, s);
    if s[0] == START {
      StartByteKeepsJams(q, s);
    } else {
      var limit := ScanLimit(s, budget);
      var n := ResyncCount(s, limit);
      ResyncKeepsJams(q, s, limit);
      assert s[n..] + ([] + []) == s[n..];
      if n < limit {
        ResyncStops(s, limit);
        StartByteKeepsJams(q, s[n..]);
        assert s[n..][1..] == s[n + 1..];
      }
    }
  }

  /** A call during which nothing arrives leads a stream neither into a jam nor past one. */
  lemma CallKeepsJams(p: Parser, s: seq<byte>, budget: nat)
    requires p.Valid()
    ensures var c := Process(p, s, budget, NOTHING);
            c.parser.Valid() && (Jams(c.parser, c.Left()) <==> Jams(p, s))
  {
    if s == [] {
      assert Process(p, s, budget, NOTHING).Left() == s;
    } else {
      QuietCall(p, s, budget);
      match p.phase
      case LookingForStart => StartKeepsJams(p, s, budget);
      case WaitingForHeader => HeaderKeepsJams(p, s);
      case WaitingForPacket => PacketKeepsJams(p, s);
    }
  }

  /** Calls with nothing arriving, during them or between. */
  ghost predicate Calls(actions: seq<Action>)
  {
    forall i | 0 <= i < |actions| :: actions[i].Call? && actions[i].meanwhile == NOTHING
  }

  /** Every resync gets to look at a byte at least. */
  ghost predicate Patient(actions: seq<Action>)
  {
    forall i | 0 <= i < |actions| :: actions[i].Call? && actions[i].budget > 0
  }

  /** A jammed stream is never settled by calls, however many and however patient. */
  lemma {:induction false} JamNeverSettles(w: World, calls: seq<Action>)
    requires w.parser.Valid() && Calls(calls) && Jams(w.parser, w.stream)
    ensures !Settled(Run(w, calls))
    decreases |calls|
  {
    hide Process, Apply, Drain;
    if calls == [] {
      JamIsUnsettled(w.parser, w.stream);
    } else {
      CallKeepsJams(w.parser, w.stream, calls[0].budget);
      JamNeverSettles(Act(w, calls[0]), calls[1..]);
    }
  }

  lemma JamIsUnsettled(p: Parser, s: seq<byte>)
    requires p.Valid() && Jams(p, s)
    ensures Apply(p, s).Consume?
  {
  }

  /** Any other stream is settled by as many patient calls as it has bytes. */
  lemma {:induction false} CallsSettle(w: World, calls: seq<Action>)
    requires w.parser.Valid() && Calls(calls) && Patient(calls) && |w.stream| <= |calls|
    requires !Jams(w.parser, w.stream)
    ensures Settled(Run(w, calls))
    decreases |calls|
  {
    if calls != [] {
      hide Process, Apply, Drain;
      var next := Act(w, calls[0]);
      CallKeepsJams(w.parser, w.stream, calls[0].budget);
      CallShrinks(w, calls[0].budget);
      if |next.stream| < |w.stream| { CallsSettle(next, calls[1..]); } else { SettledStays(next, calls[1..]); }
    }
  }

  lemma CallShrinks(w: World, budget: nat)
    requires w.parser.Valid() && !Jams(w.parser, w.stream) && budget > 0
    ensures var next := Act(w, Call(budget, NOTHING)); |next.stream| < |w.stream| || Settled(next)
  {
    StuckExactly(w.parser, w.stream, budget);
    if Settled(w) { SettledCall(w, budget); }
  }

  lemma SettledCall(w: World, budget: nat)
    requires w.parser.Valid() && Settled(w)
    ensures Act(w, Call(budget, NOTHING)) == w
  {
    if w.stream == [] {
      assert NOTHING.All() == [] && w.stream + [] == w.stream;
    } else {
      QuietCall(w.parser, w.stream, budget);
      assert w.stream + [] == w.stream;
    }
    assert w.packets + [] == w.packets;
  }

  lemma {:induction false} SettledStays(w: World, calls: seq<Action>)
    requires w.parser.Valid() && Settled(w) && Calls(calls)
    ensures Run(w, calls) == w
    decreases |calls|
  {
    if calls != [] {
      SettledCall(w, calls[0].budget);
      SettledStays(w, calls[1..]);
    }
  }

  /** Enough patient calls settle the unread stream exactly when it does not jam; then by
      `RunComputesDrain` they have handed out all its packets. */
  lemma SettlesExactly(w: World, calls: seq<Action>)
    requires w.parser.Valid() && Calls(calls) && Patient(calls) && |w.stream| <= |calls|
    ensures Settled(Run(w, calls)) <==> !Jams(w.parser, w.stream)
  {
    if Jams(w.parser, w.stream) { JamNeverSettles(w, calls); } else { CallsSettle(w, calls); }
  }

  // ---------- Printer and parser ----------

  datatype Frame = Frame(category: byte, data: seq<byte>)

  /** send_packet: start, length of category and data on two bytes, body, end. */
  function Encode(f: Frame): (r: seq<byte>)
  {
    [START] + LE16(|f.data| + 1) + [f.category] + f.data + [END]
  }

  function Body(f: Frame): Packet { [f.category] + f.data }

  ghost predicate Fits(f: Frame) { |f.data| + 1 <= 200 }

  function EncodeAll(fs: seq<Frame>): seq<byte>
  {
    if fs == [] then [] else Encode(fs[0]) + EncodeAll(fs[1..])
  }

  lemma BodyRule(p: Parser, body: Packet, s: seq<byte>)
    requires p.Valid() && p.phase.WaitingForPacket? && |body| == p.lastHeader
    ensures Apply(p, body + ([END] + s))
         == Consume(p.(phase := LookingForStart, valid := true, buffer := Fill(p.buffer, body)), s, [body])
  {
    var n, t := |body|, body + ([END] + s);
    assert t[..n] == body && t[n] == END && t[n + 1..] == s;
  }

  lemma HeaderRule(p: Parser, n: uint16, s: seq<byte>)
    requires p.Valid() && p.phase.WaitingForHeader? && n <= MAX_PACK_LENGTH
    ensures Apply(p, LE16(n) + s) == Consume(p.(lastHeader := n, phase := WaitingForPacket), s, [])
  {
    LE16Truncates(n);
    var t := LE16(n) + s;
    assert t[..2] == LE16(n) && t[2..] == s;
  }

  lemma StartRule(p: Parser, s: seq<byte>)
    requires p.Valid() && p.phase.LookingForStart?
    ensures Apply(p, [START] + s) == Consume(p.(valid := false, phase := WaitingForHeader), s, [])
  {
    assert ([START] + s)[1..] == s;
  }

  /** The three rules that consume a printed frame. */
  lemma FrameRules(p: Parser, f: Frame, s: seq<byte>)
    returns (a: Parser, t: seq<byte>, b: Parser, u: seq<byte>, q: Parser)
    requires p.Valid() && p.phase.LookingForStart? && Fits(f)
    ensures a.Valid() && a.phase.WaitingForHeader? && Encode(f) + s == [START] + t
    ensures b.Valid() && b.phase.WaitingForPacket?
    ensures q.Valid() && q.phase.LookingForStart?
    ensures Apply(p, Encode(f) + s) == Consume(a, t, [])
    ensures Apply(a, t) == Consume(b, u, []) && Apply(b, u) == Consume(q, s, [Body(f)])
  {
    hide Apply;
    var n := |f.data| + 1;
    u := Body(f) + ([END] + s);
    t := LE16(n) + u;
    assert Encode(f) + s == [START] + t;
    a := p.(valid := false, phase := WaitingForHeader);
    b := a.(lastHeader := n, phase := WaitingForPacket);
    q := b.(phase := LookingForStart, valid := true, buffer := Fill(b.buffer, Body(f)));
    StartRule(p, t);
    HeaderRule(a, n, u);
    BodyRule(b, Body(f), s);
  }

  lemma DrainFrame(p: Parser, f: Frame, s: seq<byte>) returns (q: Parser)
    requires p.Valid() && p.phase.LookingForStart? && Fits(f)
    ensures q.Valid() && q.phase.LookingForStart?
    ensures Drain(p, Encode(f) + s) == Then([Body(f)], Drain(q, s))
  {
    hide Apply, Encode;
    var a, t, b, u, _ := FrameRules(p, f, s);
    q := Apply(b, u).parser;
    assert Drain(p, Encode(f) + s) == Drain(a, t) == Drain(b, u);
  }

  lemma {:induction false} DrainFrames(p: Parser, fs: seq<Frame>)
    requires p.Valid() && p.phase.LookingForStart? && forall f | f in fs :: Fits(f)
    ensures var d := Drain(p, EncodeAll(fs));
            && d.packets == Bodies(fs)
            && d.parser.phase.LookingForStart? && d.left == []
    decreases |fs|
  {
    if fs != [] {
      var q := DrainFrame(p, fs[0], EncodeAll(fs[1..]));
      DrainFrames(q, fs[1..]);
    }
  }

  /** The packets that printing these frames should be read back as. */
  function Bodies(fs: seq<Frame>): (r: seq<Packet>)
    ensures |r| == |fs|
  {
    seq(|fs|, i requires 0 <= i < |fs| => Body(fs[i]))
  }

  /** The meaning of garbage without a start byte and any list of frames that fit: that list,
      and a parser between frames with nothing left over. */
  lemma RoundTrip(p: Parser, garbage: seq<byte>, fs: seq<Frame>)
    requires p.Valid() && p.phase.LookingForStart?
    requires START !in garbage
    requires forall f | f in fs :: Fits(f)
    ensures var d := Drain(p, garbage + EncodeAll(fs));
            d.packets == Bodies(fs) && d.parser.phase.LookingForStart? && d.left == []
  {
    var g := DrainGarbage(p, garbage, EncodeAll(fs));
    DrainFrames(g, fs);
  }

  /** The same of the calls: whenever and in whatever pieces those bytes arrive, in mid-call too,
      and whatever resync timeouts occur, the packets handed out are at every moment a prefix of
      the list, and all of it once no field can be consumed. */
  lemma RunRoundTrip(w: World, actions: seq<Action>, garbage: seq<byte>, fs: seq<Frame>)
    requires w.parser.Valid() && w.parser.phase.LookingForStart? && w.stream == []
    requires START !in garbage && forall f | f in fs :: Fits(f)
    requires Arrived(actions) == garbage + EncodeAll(fs)
    ensures var r := Run(w, actions);
            && w.packets <= r.packets <= w.packets + Bodies(fs)
            && (Settled(r) ==>
                  r.packets == w.packets + Bodies(fs) && r.parser.phase.LookingForStart? && r.stream == [])
  {
    RunExtends(w, actions);
    RunComputesDrain(w, actions);
    RoundTrip(w.parser, garbage, fs);
    assert w.stream + Arrived(actions) == garbage + EncodeAll(fs);
    if Settled(Run(w, actions)) { SettledTotal(Run(w, actions)); }
  }

  lemma {:induction false} DrainGarbage(p: Parser, g: seq<byte>, s: seq<byte>) returns (q: Parser)
    requires p.Valid() && p.phase.LookingForStart? && START !in g
    ensures q.Valid() && q.phase.LookingForStart?
    ensures Drain(p, g + s) == Drain(q, s)
    decreases |g|
  {
    if g == [] {
      q := p;
      assert g + s == s;
    } else {
      assert (g + s)[1..] == g[1..] + s;
      assert g[0] in g && forall b | b in g[1..] :: b in g;
      q := DrainGarbage(p.(valid := false), g[1..], s);
    }
  }

  /** No input yields a packet longer than the buffer. */
  lemma {:induction false} PacketsFitBuffer(p: Parser, s: seq<byte>)
    requires p.Valid()
    ensures forall k | k in Drain(p, s).packets :: |k| <= MAX_PACK_LENGTH
    decreases |s|
  {
    match Apply(p, s)
    case Stuck =>
    case Consume(p', rest, _) => PacketsFitBuffer(p', rest);
  }

  /** A frame sent alone is read back exactly when category and data fit in 200 bytes. */
  lemma ReadBackExactly(p: Parser, f: Frame)
    requires p.Valid() && p.phase.LookingForStart?
    ensures Drain(p, Encode(f)).packets == [Body(f)] <==> Fits(f)
  {
    if Fits(f) {
      var q := DrainFrame(p, f, []);
      assert Encode(f) + [] == Encode(f);
    } else {
      PacketsFitBuffer(p, Encode(f));
      assert Body(f) !in Drain(p, Encode(f)).packets;
    }
  }

  // ---------- The meaning, frame by frame ----------

  /** What a stream means to a reader of whole frames: skip to a 1; a length above 200 makes the reader
      go on behind it; a frame whose last byte is not 2 is dropped; one that is not complete yields
      nothing yet. */
  function Meaning(s: seq<byte>): seq<Packet>
  {
    if s == [] then []
    else if s[0] != 1 then Meaning(s[1..])
    else if |s| < 3 then []
    else
      var n := s[1] as int + 256 * s[2] as int;
      if n > 200 then Meaning(s[3..])
      else if |s| < n + 4 then []
      else (if s[n + 3] == 2 then [s[3..n + 3]] else []) + Meaning(s[n + 4..])
  }

  /** The three phases of the parser read exactly those frames. */
  lemma {:induction false} DrainReadsFrames(p: Parser, s: seq<byte>)
    requires p.Valid() && p.phase.LookingForStart?
    ensures Drain(p, s).packets == Meaning(s)
    decreases |s|
  {
    if s != [] {
      var a := Apply(p, s);
      if s[0] != 1 {
        DrainReadsFrames(a.parser, s[1..]);
        assert Drain(p, s).packets == Drain(a.parser, s[1..]).packets;
      } else {
        HeaderReads(a.parser, s[1..]);
        assert s == [1] + s[1..];
        assert Drain(p, s).packets == Drain(a.parser, s[1..]).packets;
      }
    }
  }

  /** From the header on. */
  lemma HeaderReads(p: Parser, s: seq<byte>)
    requires p.Valid() && p.phase.WaitingForHeader?
    ensures Drain(p, s).packets == Meaning([1] + s)
    decreases |s|
  {
    hide Meaning;
    MeaningOfHeader(s);
    if |s| >= 2 {
      var b := Apply(p, s);
      assert Drain(p, s).packets == Drain(b.parser, s[2..]).packets;
      if FromLE16(s[..2]) > 200 {
        DrainReadsFrames(b.parser, s[2..]);
      } else {
        PacketReads(b.parser, s[2..]);
      }
    }
  }

  /** What stands behind a start byte, split at the header. */
  lemma MeaningOfHeader(s: seq<byte>)
    ensures |s| < 2 ==> Meaning([1] + s) == []
    ensures |s| >= 2 ==>
              var n, t := FromLE16(s[..2]), s[2..];
              Meaning([1] + s) ==
              if n > 200 then Meaning(t)
              else if |t| < n + 1 then [] else (if t[n] == 2 then [t[..n]] else []) + Meaning(t[n + 1..])
  {
    var r := [1] + s;
    if |s| >= 2 {
      var n, t := FromLE16(s[..2]), s[2..];
      assert r[3..] == t && r[1] == s[0] && r[2] == s[1];
      if n <= 200 && |t| >= n + 1 { assert r[3..n + 3] == t[..n] && r[n + 4..] == t[n + 1..] && r[n + 3] == t[n]; }
    }
  }

  /** From the packet on. */
  lemma PacketReads(p: Parser, s: seq<byte>)
    requires p.Valid() && p.phase.WaitingForPacket?
    ensures var n := p.lastHeader;
            Drain(p, s).packets ==
            if |s| < n + 1 then [] else (if s[n] == 2 then [s[..n]] else []) + Meaning(s[n + 1..])
    decreases |s|
  {
    var n := p.lastHeader;
    if |s| >= n + 1 {
      var c := Apply(p, s);
      DrainReadsFrames(c.parser, s[n + 1..]);
    }
  }

  /** A frame stands at this place of the stream. */
  ghost predicate FramedAt(s: seq<byte>, at: nat, k: Packet)
  {
    && at + |k| + 4 <= |s| && |k| <= 200
    && s[at] == 1 && s[at + 1] as int + 256 * s[at + 2] as int == |k|
    && s[at + 3..at + 3 + |k|] == k && s[at + 3 + |k|] == 2
  }

  /** The first step of a reader of whole frames: it is done, or goes on behind d bytes, which were a
      frame if a packet came out of them. */
  lemma ReadsFirst(s: seq<byte>) returns (done: bool, d: nat, out: seq<Packet>)
    ensures done ==> Meaning(s) == []
    ensures !done ==> 0 < d <= |s| && Meaning(s) == out + Meaning(s[d..])
    ensures !done && out != [] ==> |out| == 1 && FramedAt(s, 0, out[0]) && d == |out[0]| + 4
  {
    done, d, out := true, 0, [];
    if s != [] {
      if s[0] != 1 {
        done, d := false, 1;
      } else if |s| >= 3 {
        var n := s[1] as int + 256 * s[2] as int;
        if n > 200 {
          done, d := false, 3;
        } else if |s| >= n + 4 {
          done, d, out := false, n + 4, if s[n + 3] == 2 then [s[3..n + 3]] else [];
        }
      }
    }
  }

  /** These packets stand in the stream as whole frames, at these places, one behind the other. */
  ghost predicate Placed(s: seq<byte>, ks: seq<Packet>, at: seq<nat>)
  {
    && |at| == |ks|
    && (forall i | 0 <= i < |at| :: FramedAt(s, at[i], ks[i]))
    && (forall i, j | 0 <= i < j < |at| :: at[i] + |ks[i]| + 4 <= at[j])
  }

  /** The places of the frames of a tail, counted from the front. */
  lemma Moved(s: seq<byte>, d: nat, ks: seq<Packet>, at: seq<nat>) returns (moved: seq<nat>)
    requires d <= |s| && Placed(s[d..], ks, at)
    ensures Placed(s, ks, moved) && forall i | 0 <= i < |moved| :: moved[i] >= d
  {
    moved := seq(|at|, i requires 0 <= i < |at| => at[i] + d);
    forall i | 0 <= i < |at| ensures FramedAt(s, moved[i], ks[i]) {
      assert FramedAt(s[d..], at[i], ks[i]);
      assert s[moved[i] + 3..moved[i] + 3 + |ks[i]|] == s[d..][at[i] + 3..at[i] + 3 + |ks[i]|];
    }
  }

  lemma PlacedFirst(s: seq<byte>, k: Packet, ks: seq<Packet>, at: seq<nat>)
    requires FramedAt(s, 0, k) && Placed(s, ks, at) && forall i | 0 <= i < |at| :: at[i] >= |k| + 4
    ensures Placed(s, [k] + ks, [0] + at)
  {
    hide FramedAt;
    var ls, bt := [k] + ks, [0] + at;
    forall i | 0 <= i < |bt| ensures FramedAt(s, bt[i], ls[i]) {
      if i > 0 { assert FramedAt(s, at[i - 1], ks[i - 1]); }
    }
    forall i, j | 0 <= i < j < |bt| ensures bt[i] + |ls[i]| + 4 <= bt[j] {
      if i > 0 { assert at[i - 1] + |ks[i - 1]| + 4 <= at[j - 1]; }
    }
  }

  /** Whatever bytes come: every packet handed out stood in the stream as a whole frame, start byte,
      length, body and end byte, and the frames of later packets come behind those of earlier ones. */
  lemma {:induction false} PacketsAreFrames(p: Parser, s: seq<byte>) returns (at: seq<nat>)
    requires p.Valid() && p.phase.LookingForStart?
    ensures Placed(s, Drain(p, s).packets, at)
  {
    DrainReadsFrames(p, s);
    at := MeaningPlaced(s);
  }

  lemma {:induction false} MeaningPlaced(s: seq<byte>) returns (at: seq<nat>)
    ensures Placed(s, Meaning(s), at)
    decreases |s|
  {
    hide Meaning, FramedAt, Placed;
    var done, d, out := ReadsFirst(s);
    if done {
      at := [];
      NonePlaced(s);
    } else {
      at := MeaningPlaced(s[d..]);
      at := Moved(s, d, Meaning(s[d..]), at);
      if out == [] {
        assert Meaning(s) == Meaning(s[d..]);
      } else {
        assert out == [out[0]];
        PlacedFirst(s, out[0], Meaning(s[d..]), at);
        at := [0] + at;
      }
    }
  }

  lemma NonePlaced(s: seq<byte>)
    ensures Placed(s, [], [])
  {
  }

  /** The bytes of a printed frame. */
  lemma FrameOnWire(f: Frame)
    ensures var r, n := Encode(f), |f.data| + 1;
            && |r| == n + 4 && r[0] == 1 && r[1] == n % 256 && r[2] == n / 256 % 256
            && r[3] == f.category && r[4..n + 3] == f.data && r[n + 3] == 2
  {
  }

  /** What the result code of a call says about the state it leaves. */
  ghost predicate Tells(p: Parser, c: Called)
  {
    && (c.code.NotEnoughBytes? <==> !c.parser.phase.LookingForStart?)
    && (c.code.NotEnoughBytes? ==>
          |c.stream| < if c.parser.phase.WaitingForHeader? then 2 else c.parser.lastHeader + 1)
    && (c.code.InvalidHeader? ==> c.parser.lastHeader > 200 && !c.parser.valid)
    && (c.code.OK? ==> c.parser.lastHeader <= 200)
    && (c.code.ResyncTimeout? ==> c.parser == p.(valid := false))
    && !c.code.StreamEmpty?
  }

  lemma PacketTells(p: Parser, s: seq<byte>)
    requires p.Valid() && p.phase.WaitingForPacket?
    ensures AtPacket(p, s).code in {NotEnoughBytes, OK} && Tells(p, AtPacket(p, s))
  {
  }

  lemma HeaderTells(p: Parser, s: seq<byte>, packet: seq<byte>)
    requires p.Valid() && p.phase.WaitingForHeader?
    ensures AtHeader(p, s, packet).code in {NotEnoughBytes, OK, InvalidHeader} && Tells(p, AtHeader(p, s, packet))
  {
    if |s| >= 2 && FromLE16(s[..2]) <= MAX_PACK_LENGTH {
      hide AtPacket;
      PacketTells(p.(lastHeader := FromLE16(s[..2]), phase := WaitingForPacket), s[2..] + packet);
    }
  }

  lemma StartTells(p: Parser, s: seq<byte>, budget: nat, header: seq<byte>, packet: seq<byte>)
    requires p.Valid() && p.phase.LookingForStart? && s != []
    ensures Tells(p, AtStart(p, s, budget, header, packet))
  {
    hide AtHeader;
    var q := p.(valid := false, phase := WaitingForHeader);
    var n := ResyncCount(s, ScanLimit(s, budget));
    HeaderTells(q, s[1..] + header, packet);
    if n < |s| { HeaderTells(q, s[n + 1..] + header, packet); }
  }

  /** An empty stream is reported as such; too few bytes exactly when the parser is left in mid-frame,
      with fewer bytes than it then waits for; a header above 200 only as an invalid one; and a
      resync that found nothing leaves the parser as it was, with no packet to show. */
  lemma CodeTells(p: Parser, s: seq<byte>, budget: nat, m: Meanwhile)
    requires p.Valid()
    ensures var c := Process(p, s, budget, m);
            (c.code.StreamEmpty? <==> s == []) && (s != [] ==> Tells(p, c)) && (s == [] ==> c.parser == p)
  {
    hide AtStart, AtHeader, AtPacket;
    if s != [] {
      match p.phase
      case LookingForStart => StartTells(p, s + m.start, budget, m.header, m.packet);
      case WaitingForHeader => HeaderTells(p, s + (m.start + m.header), m.packet);
      case WaitingForPacket => PacketTells(p, s + m.All());
    }
  }

  // ---------- Reading back by calls alone ----------

  /** Frames never jam: between them the parser sees a start byte. */
  lemma {:induction false} FramesNeverJam(p: Parser, fs: seq<Frame>)
    requires p.Valid() && p.phase.LookingForStart? && forall f | f in fs :: Fits(f)
    ensures !Jams(p, EncodeAll(fs))
    decreases |fs|
  {
    if fs != [] {
      var q := FrameKeepsJams(p, fs[0], EncodeAll(fs[1..]));
      FramesNeverJam(q, fs[1..]);
    }
  }

  lemma FrameKeepsJams(p: Parser, f: Frame, s: seq<byte>) returns (q: Parser)
    requires p.Valid() && p.phase.LookingForStart? && Fits(f)
    ensures q.Valid() && q.phase.LookingForStart?
    ensures Jams(p, Encode(f) + s) <==> Jams(q, s)
  {
    hide Apply, Encode;
    var a, t, b, u, _ := FrameRules(p, f, s);
    q := Apply(b, u).parser;
    assert Jams(p, Encode(f) + s) == Jams(a, t) == Jams(b, u);
  }

  /** A multiple of 65536 lies above `rest` and not above `rest + garbage`. */
  predicate Straddles(garbage: nat, rest: nat) { (garbage + rest) / 0x1_0000 > rest / 0x1_0000 }

  /** Garbage in front of frames jams exactly when the count of unread bytes passes a multiple
      of 65536 within the garbage. */
  lemma {:induction false} GarbageJamsExactly(p: Parser, garbage: seq<byte>, fs: seq<Frame>)
    requires p.Valid() && p.phase.LookingForStart? && START !in garbage && forall f | f in fs :: Fits(f)
    ensures Jams(p, garbage + EncodeAll(fs)) <==> Straddles(|garbage|, |EncodeAll(fs)|)
    decreases |garbage|
  {
    var e := EncodeAll(fs);
    if garbage == [] {
      assert garbage + e == e;
      FramesNeverJam(p, fs);
    } else {
      var s := garbage + e;
      assert s[0] in garbage && s[1..] == garbage[1..] + e;
      assert forall b | b in garbage[1..] :: b in garbage;
      assert Apply(p, s) == Consume(p.(valid := false), s[1..], []);
      GarbageJamsExactly(p.(valid := false), garbage[1..], fs);
      PassesMultiple(|garbage|, |e|);
    }
  }

  lemma PassesMultiple(garbage: nat, rest: nat)
    requires garbage > 0
    ensures Straddles(garbage, rest) <==> (garbage + rest) % 0x1_0000 == 0 || Straddles(garbage - 1, rest)
  {
    var n := garbage + rest;
    if n % 0x1_0000 == 0 {
      assert n / 0x1_0000 == (n - 1) / 0x1_0000 + 1;
    } else {
      assert n / 0x1_0000 == (n - 1) / 0x1_0000;
    }
  }

  /** A call in the garbage of a jammed stream discards some of it and no more. */
  lemma GarbageCall(w: World, budget: nat, garbage: seq<byte>, rest: seq<byte>) returns (n: nat)
    requires w.parser.Valid() && w.parser.phase.LookingForStart?
    requires START !in garbage && w.stream == garbage + rest && Straddles(|garbage|, |rest|)
    ensures n < |garbage| && Straddles(|garbage| - n, |rest|)
    ensures Act(w, Call(budget, NOTHING)) == World(w.parser.(valid := false), garbage[n..] + rest, w.packets)
  {
    var s := w.stream;
    n := ScanLimit(s, budget);
    assert n <= |s| % 0x1_0000 < |garbage|;
    ResyncInGarbage(garbage, rest, n);
    QuietCall(w.parser, s, budget);
    assert s[0] == garbage[0] && garbage[0] in garbage;
    assert s[n..] + ([] + []) == s[n..] == garbage[n..] + rest && w.packets + [] == w.packets;
    assert (|garbage| - n + |rest|) / 0x1_0000 == |s| / 0x1_0000;
  }

  /** In the garbage of a jammed stream no call hands out anything. */
  lemma {:induction false} JamHandsOutNothing(w: World, calls: seq<Action>, garbage: seq<byte>, rest: seq<byte>)
    requires w.parser.Valid() && w.parser.phase.LookingForStart? && Calls(calls)
    requires START !in garbage && w.stream == garbage + rest && Straddles(|garbage|, |rest|)
    ensures Run(w, calls).packets == w.packets
    decreases |calls|
  {
    if calls != [] {
      hide Process, Straddles;
      var n := GarbageCall(w, calls[0].budget, garbage, rest);
      assert forall b | b in garbage[n..] :: b in garbage;
      JamHandsOutNothing(Act(w, calls[0]), calls[1..], garbage[n..], rest);
    }
  }

  lemma {:induction false} ResyncInGarbage(garbage: seq<byte>, rest: seq<byte>, limit: nat)
    requires START !in garbage && limit <= |garbage|
    ensures ResyncCount(garbage + rest, limit) == limit
  {
    if limit > 0 {
      assert garbage[0] in garbage && forall b | b in garbage[1..] :: b in garbage;
      assert (garbage + rest)[1..] == garbage[1..] + rest;
      ResyncInGarbage(garbage[1..], rest, limit - 1);
    }
  }

  /** Garbage and frames that wait unread are read back by patient calls, as many as there are
      bytes, exactly when no multiple of 65536 unread bytes is passed within the garbage.
      Otherwise calls alone never hand out a single packet. */
  lemma CallsReadBackExactly(w: World, calls: seq<Action>, garbage: seq<byte>, fs: seq<Frame>)
    requires w.parser.Valid() && w.parser.phase.LookingForStart? && w.stream == garbage + EncodeAll(fs)
    requires START !in garbage && fs != [] && forall f | f in fs :: Fits(f)
    requires Calls(calls) && Patient(calls) && |w.stream| <= |calls|
    ensures Run(w, calls).packets ==
            if Straddles(|garbage|, |EncodeAll(fs)|) then w.packets else w.packets + Bodies(fs)
    ensures w.packets != w.packets + Bodies(fs)
  {
    if Straddles(|garbage|, |EncodeAll(fs)|) {
      JamHandsOutNothing(w, calls, garbage, EncodeAll(fs));
    } else {
      GarbageJamsExactly(w.parser, garbage, fs);
      CallsSettle(w, calls);
      NothingArrives(calls);
      RunComputesDrain(w, calls);
      RoundTrip(w.parser, garbage, fs);
      assert w.stream + Arrived(calls) == garbage + EncodeAll(fs);
      SettledTotal(Run(w, calls));
    }
  }

  lemma {:induction false} NothingArrives(calls: seq<Action>)
    requires Calls(calls)
    ensures Arrived(calls) == []
  {
    if calls != [] { NothingArrives(calls[1..]); }
  }

  // ---------- The device object ----------

  class PacketizedSerial {
    var state: Phase
    var lastHeader: uint16
    var isPacketValid: bool
    const buffer: array<byte>
    var rx: seq<byte>  // bytes received and not yet read
    var tx: seq<byte>  // bytes written

    ghost predicate Valid()
      reads this, buffer
    {
      View().Valid()
    }

    ghost function View(): Parser
      reads this, buffer
    {
      Parser(state, lastHeader, isPacketValid, buffer[..])
    }

    constructor ()
      ensures Valid() && fresh(buffer) && rx == [] && tx == []
      ensures state == LookingForStart && !isPacketValid
    {
      state, lastHeader, isPacketValid := LookingForStart, 0, false;
      buffer := new byte[MAX_PACK_LENGTH](_ => 0);
      rx, tx := [], [];
    }

    /** Discards bytes up to the next start byte. */
    method Resync(budget: nat) returns (found: bool)
      modifies this`rx
      ensures var limit := ScanLimit(old(rx), budget);
              var n := ResyncCount(old(rx), limit);
              rx == old(rx)[n..] && found == (n < limit)
    {
      var available := |rx| % 0x1_0000;
      var i := 0;
      ghost var limit := ScanLimit(rx, budget);
      while i < available
        invariant 0 <= i <= limit && rx == old(rx)[i..]
        invariant ResyncCount(old(rx), limit) == i + ResyncCount(rx, limit - i)
        decreases available - i
      {
        if i >= budget { return false; }  // the millis() test
        if rx[0] == START { return true; }
        assert old(rx)[i..][1..] == old(rx)[i + 1..];
        rx := rx[1..];
        i := i + 1;
      }
      return false;
    }

    /** Reads n bytes into the packet buffer. */
    method ReadBytes(n: nat)
      requires Valid() && n <= |rx| && n <= MAX_PACK_LENGTH
      modifies this`rx, buffer
      ensures buffer[..] == Fill(old(buffer[..]), old(rx)[..n]) && rx == old(rx)[n..]
    {
      forall i | 0 <= i < n { buffer[i] := rx[i]; }
      assert buffer[..] == Fill(old(buffer[..]), rx[..n]);
      rx := rx[n..];
    }

    /** The bytes of m reach rx while the call runs, or once it has returned. */
    method ProcessStream(budget: nat, m: Meanwhile) returns (code: Code)
      requires Valid()
      modifies this`state, this`lastHeader, this`isPacketValid, this`rx, buffer
      ensures Valid()
      ensures var c := Process(old(View()), old(rx), budget, m);
              code == c.code && View() == c.parser && rx == c.Left()
    {
      CallSound(View(), rx, budget, m);
      var late := m.All();
      if |rx| == 0 {
        code := StreamEmpty;
      } else {
        match state
        case LookingForStart =>
          rx := rx + m.start;
          code, late := CaseStart(budget, m.header, m.packet);
        case WaitingForHeader =>
          rx := rx + (m.start + m.header);
          code, late := CaseHeader(m.packet);
        case WaitingForPacket =>
          rx := rx + m.All();
          code, late := CasePacket();
      }
      rx := rx + late;
    }

    method CaseStart(budget: nat, header: seq<byte>, packet: seq<byte>) returns (code: Code, late: seq<byte>)
      requires Valid() && state == LookingForStart && rx != []
      modifies this`state, this`lastHeader, this`isPacketValid, this`rx, buffer
      ensures Called(code, View(), rx, late) == AtStart(old(View()), old(rx), budget, header, packet)
    {
      isPacketValid := false;
      late := header + packet;
      if rx[0] != START {
        var found := Resync(budget);
        if !found { return ResyncTimeout, late; }
      }
      if |rx| == 0 || rx[0] != START { return WrongStartByte, late; }
      rx := rx[1..];
      state := WaitingForHeader;
      rx := rx + header;
      code, late := CaseHeader(packet);  // falls through
    }

    method CaseHeader(packet: seq<byte>) returns (code: Code, late: seq<byte>)
      requires Valid() && state == WaitingForHeader
      modifies this`state, this`lastHeader, this`isPacketValid, this`rx, buffer
      ensures Called(code, View(), rx, late) == AtHeader(old(View()), old(rx), packet)
    {
      if |rx| < 2 { return NotEnoughBytes, packet; }
      lastHeader := FromLE16(rx[..2]);
      rx := rx[2..];
      if lastHeader > MAX_PACK_LENGTH {
        state, isPacketValid := LookingForStart, false;
        return InvalidHeader, packet;
      }
      state := WaitingForPacket;
      rx := rx + packet;
      code, late := CasePacket();  // falls through
    }

    method CasePacket() returns (code: Code, late: seq<byte>)
      requires Valid() && state == WaitingForPacket
      modifies this`state, this`lastHeader, this`isPacketValid, this`rx, buffer
      ensures Called(code, View(), rx, late) == AtPacket(old(View()), old(rx))
    {
      late := [];
      if |rx| < lastHeader + 1 { return NotEnoughBytes, late; }
      ReadBytes(lastHeader);
      var endByte := rx[0];
      rx := rx[1..];
      state := LookingForStart;
      isPacketValid := endByte == END;
      return OK, late;
    }

    /** One call of recv_packet: it advances the device by one step of `Act`. */
    method RecvPacket(budget: nat, m: Meanwhile) returns (packet: Option<Packet>)
      requires Valid()
      modifies this`state, this`lastHeader, this`isPacketValid, this`rx, buffer
      ensures Valid()
      ensures World(View(), rx, if packet.Some? then [packet.value] else [])
           == Act(World(old(View()), old(rx), []), Call(budget, m))
    {
      CallSound(View(), rx, budget, m);
      var code := ProcessStream(budget, m);
      if code == OK && isPacketValid {
        packet := Some(buffer[..lastHeader]);
      } else {
        packet := None;
      }
    }

    method SendPacket(category: byte, data: seq<byte>)
      modifies this`tx
      ensures tx == old(tx) + Encode(Frame(category, data))
    {
      tx := tx + [START];
      WriteHeader(|data| + 1);
      tx := tx + [category];
      tx := tx + data;
      tx := tx + [END];
      assert tx == old(tx) + Encode(Frame(category, data));
    }

    method WriteHeader(length: nat)
      modifies this`tx
      ensures tx == old(tx) + LE16(length)
    {
      var rest := length;
      for i := 0 to 2
        invariant tx == old(tx) + LE16(length)[..i]
        invariant rest == if i == 0 then length else if i == 1 then length / 256 else length / 256 / 256
      {
        tx := tx + [rest % 256];
        rest := rest / 256;
      }
    }
  }
}
