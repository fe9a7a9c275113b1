/**
 Sender of the SerialDevice large-transfer protocol, the serial link and the receiver at
 its other end (src/firmware/platformio_project/lib/SerialDevice/src/SerialDevice.cpp).

 The link is a FIFO in each direction. What happens while the sender waits is a schedule of
 events: a request reaches the receiver, a reply reaches the sender, either is lost, or the
 wait times out. Packets of other ids may come in at any point. A link is punctual when nothing
 outlives the wait it was sent for.
 */
module LargeTx {
  import opened Bytes
  import opened Options
  import opened LargeRx

  const RETRIES := 5
  const TX_CAPACITY := 254        // bytes in the transmit buffer
  const MAX_CHUNK := TX_CAPACITY - 4
  const BEGIN: byte := 215
  const CHUNK: byte := 216
  const END: byte := 219

  // ---------- Packets ----------

  datatype RawFrame = Frame(id: byte, payload: seq<byte>)

  /** The packets the large-transfer sender emits carry every field their handler reads. */
  predicate WellFormed(f: RawFrame)
  {
    || (f.id == BEGIN && |f.payload| == 4)
    || (f.id == CHUNK && 4 <= |f.payload| <= TX_CAPACITY)
    || (f.id == END && |f.payload| == 1)
  }

  type Frame = f: RawFrame | WellFormed(f) witness Frame(END, [0])

  function Decode(f: Frame): Msg
  {
    if f.id == BEGIN then Begin(FromLE32(f.payload))
    else if f.id == CHUNK then Chunk(FromLE32(f.payload[..4]), f.payload[4..])
    else End(f.payload[0])
  }

  /** txObj and txBytes append to the transmit buffer, or append nothing when it is full. */
  function TxAppend(buf: seq<byte>, bytes: seq<byte>): (r: seq<byte>)
    requires |buf| <= TX_CAPACITY
    ensures |r| <= TX_CAPACITY
  {
    if |bytes| + |buf| > TX_CAPACITY then buf else buf + bytes
  }

  function BeginFrame(size: uint32): Frame { Frame(BEGIN, LE32(size)) }

  function ChunkFrame(offset: uint32, data: seq<byte>): Frame
  {
    Frame(CHUNK, TxAppend(TxAppend([], LE32(offset)), data))
  }

  function EndFrame(packId: byte): Frame { Frame(END, [packId]) }

  /** The receiver reads back what was sent, except that a chunk too large for the transmit
      buffer travels without its data. */
  lemma ChunkOnWire(offset: uint32, data: seq<byte>)
    ensures Decode(ChunkFrame(offset, data)) == Chunk(offset, if |data| <= MAX_CHUNK then data else [])
  {
    LE32RoundTrip(offset);
    var f := ChunkFrame(offset, data);
    assert f.payload[..4] == LE32(offset);
    assert f.payload[4..] == if |data| <= MAX_CHUNK then data else [];
  }

  lemma BeginOnWire(size: uint32)
    ensures Decode(BeginFrame(size)) == Begin(size)
  {
    LE32RoundTrip(size);
  }

  /** The packets byte by byte: ids 215, 216 and 219, sizes and offsets low byte first. */
  lemma FramesOnWire(size: uint32, offset: uint32, data: seq<byte>, packId: byte)
    requires |data| <= 250
    ensures var (b, c, e) := (BeginFrame(size), ChunkFrame(offset, data), EndFrame(packId));
            && b.id == 215 && b.payload == [size % 256, size / 256 % 256, size / 65536 % 256, size / 16777216]
            && c.id == 216
            && c.payload == [offset % 256, offset / 256 % 256, offset / 65536 % 256, offset / 16777216] + data
            && e.id == 219 && e.payload == [packId]
  {
  }

  // ---------- The link ----------

  /** `Foreign`: a packet that has nothing to do with the transfer is read. */
  datatype Event = Deliver(now: uint32) | LoseRequest | Arrive | LoseReply | Timeout | Foreign

  datatype Link = Link(rx: Rx, toRx: seq<Frame>, toTx: seq<Reply>, events: seq<Event>, punctual: bool)
  {
    ghost predicate Quiet() { toRx == [] && toTx == [] }
  }

  function Tail<T>(s: seq<T>): seq<T> { if s == [] then [] else s[1..] }

  /** The receiver polls the oldest request and its reply enters the link. */
  function Polled(l: Link, now: uint32): (r: Link)
    requires l.rx.Valid()
    ensures r.rx.Valid() && r.events == l.events && r.punctual == l.punctual && r.rx.hasHandler == l.rx.hasHandler
  {
    if l.toRx == [] then l
    else
      HandleKeepsValid(l.rx, now, Decode(l.toRx[0]));
      var (rx, reply) := Handle(l.rx, now, Decode(l.toRx[0]));
      l.(rx := rx, toRx := l.toRx[1..], toTx := if reply.Some? then l.toTx + [reply.value] else l.toTx)
  }

  /** A wait that ends without its packet: on a punctual link nothing survives it. */
  function GiveUp(l: Link): Link
  {
    if l.punctual then l.(toRx := [], toTx := []) else l
  }

  /** waitPacketOfId: replies of another kind are dropped. A schedule with nothing left is a
      wait that runs out. */
  function Wait(l: Link, ack: bool): (r: (Link, Option<Reply>))
    requires l.rx.Valid()
    ensures r.0.rx.Valid() && r.0.punctual == l.punctual && r.0.rx.hasHandler == l.rx.hasHandler
    ensures |r.0.events| <= |l.events| && (r.1.Some? ==> |r.0.events| < |l.events|)
    ensures r.1.Some? ==> r.1.value.Ack? == ack
    decreases |l.events|
  {
    if l.events == [] then (GiveUp(l), None)
    else
      var k := l.(events := l.events[1..]);
      match l.events[0]
      case Deliver(now) => Wait(Polled(k, now), ack)
      case LoseRequest => Wait(k.(toRx := Tail(k.toRx)), ack)
      case LoseReply => Wait(k.(toTx := Tail(k.toTx)), ack)
      case Timeout => (GiveUp(k), None)
      case Foreign => Wait(k, ack)
      case Arrive =>
        if k.toTx != [] && k.toTx[0].Ack? == ack then (k.(toTx := k.toTx[1..]), Some(k.toTx[0]))
        else Wait(k.(toTx := Tail(k.toTx)), ack)
  }

  /** What the rest of the schedule does once the sender no longer waits. */
  function Settle(l: Link): (r: Link)
    requires l.rx.Valid()
    decreases |l.events|
  {
    if l.events == [] then l
    else
      var k := l.(events := l.events[1..]);
      match l.events[0]
      case Deliver(now) => Settle(Polled(k, now))
      case LoseRequest => Settle(k.(toRx := Tail(k.toRx)))
      case LoseReply | Arrive => Settle(k.(toTx := Tail(k.toTx)))
      case Timeout | Foreign => Settle(k)
  }

  // ---------- The sender ----------

  datatype Outcome = OK | TIMED_OUT | NOT_INITIATED | REFUSED | CHUNK_OUT_OF_BOUNDS

  datatype Stream = Stream(buffSize: uint32, initiated: bool)

  function BeginSpec(s: Stream, l: Link, size: uint32): (r: (Stream, Link, Outcome))
    requires l.rx.Valid()
    ensures r.1.rx.Valid() && r.1.rx.hasHandler == l.rx.hasHandler && r.1.punctual == l.punctual
  {
    var (k, reply) := Wait(l.(toRx := l.toRx + [BeginFrame(size)]), false);
    var s' := s.(buffSize := size);
    if reply.None? then (s', k, TIMED_OUT)
    else (s'.(initiated := reply.value.ok), k, if reply.value.ok then OK else REFUSED)
  }

  /** Sends one chunk up to `tries` times, until an acknowledgement arrives. */
  function Attempts(l: Link, data: seq<byte>, offset: uint32, tries: nat): (r: (Link, bool))
    requires l.rx.Valid()
    ensures r.0.rx.Valid() && r.0.punctual == l.punctual && r.0.rx.hasHandler == l.rx.hasHandler
    ensures |r.0.events| <= |l.events| && (r.1 ==> |r.0.events| < |l.events|)
    decreases tries
  {
    if tries == 0 then (l, false)
    else
      var (k, reply) := Wait(l.(toRx := l.toRx + [ChunkFrame(offset, data)]), true);
      if reply.Some? then (k, true) else Attempts(k, data, offset, tries - 1)
  }

  function ChunkSpec(s: Stream, l: Link, data: seq<byte>, offset: uint32): (r: (Stream, Link, Outcome))
    requires l.rx.Valid()
    ensures r.1.rx.Valid() && r.1.rx.hasHandler == l.rx.hasHandler && r.1.punctual == l.punctual
    ensures r.2.OK? ==> |r.1.events| < |l.events| && r.0 == s
  {
    if !s.initiated then (s, l, NOT_INITIATED)
    else if (offset + |data|) % 0x1_0000_0000 > s.buffSize then (s, l, CHUNK_OUT_OF_BOUNDS)
    else
      var (k, acked) := Attempts(l, data, offset, RETRIES);
      if acked then (s, k, OK) else (s.(initiated := false), k, TIMED_OUT)
  }

  function EndSpec(s: Stream, l: Link, packId: byte): (r: (Stream, Link, Outcome))
    requires l.rx.Valid()
    ensures r.1.rx.Valid() && r.1.rx.hasHandler == l.rx.hasHandler && r.1.punctual == l.punctual
  {
    if !s.initiated then (s, l, NOT_INITIATED)
    else (s.(initiated := false), l.(toRx := l.toRx + [EndFrame(packId)]), OK)
  }

  /** The chunk loop of sendLarge from `offset` on; true when every chunk was acknowledged. */
  function Chunks(s: Stream, l: Link, data: seq<byte>, offset: nat, chunkSize: byte): (r: (Stream, Link, bool))
    requires l.rx.Valid() && offset <= |data| < 0x1_0000_0000
    ensures r.1.rx.Valid() && r.1.rx.hasHandler == l.rx.hasHandler && r.1.punctual == l.punctual
    decreases |l.events|
  {
    if offset == |data| then (s, l, true)
    else
      var n := Min(chunkSize, |data| - offset);
      var (s', k, out) := ChunkSpec(s, l, data[offset..offset + n], offset);
      if out != OK then (s', k, false) else Chunks(s', k, data, offset + n, chunkSize)
  }

  function SendSpec(s: Stream, l: Link, data: seq<byte>, packId: byte, chunkSize: byte): (r: (Stream, Link, nat))
    requires l.rx.Valid() && |data| < 0x1_0000_0000
    ensures r.1.rx.Valid() && r.1.rx.hasHandler == l.rx.hasHandler && r.1.punctual == l.punctual
    ensures r.2 == 0 || r.2 == |data|
  {
    var (s1, l1, out) := BeginSpec(s, l, |data|);
    if out != OK then (s1, l1, 0)
    else
      var (s2, l2, done) := Chunks(s1, l1, data, 0, chunkSize);
      if !done then (s2, l2, 0)
      else
        var (s3, l3, _) := EndSpec(s2, l2, packId);
        (s3, l3, |data|)
  }

  // ---------- A nonzero result means delivered ----------

  /** The receiver is set up for this transfer, has stored the first n bytes, and its user
      handler has not run since `calls`. */
  ghost predicate Stored(rx: Rx, data: seq<byte>, n: nat, calls: seq<Call>)
    requires n <= |data|
  {
    && rx.Valid() && rx.buff.Some? && rx.expected == |data| <= rx.buffSize
    && rx.buff.value[..n] == data[..n] && rx.calls == calls
  }

  /** The buffer holds exactly the sender's bytes on [0, |data|). */
  ghost predicate Delivered(buff: Option<seq<byte>>, data: seq<byte>)
  {
    buff.Some? && |data| <= |buff.value| && buff.value[..|data|] == data
  }

  /** A chunk of the payload keeps what is stored, and an acknowledged one extends it. */
  lemma ChunkStores(rx: Rx, now: uint32, data: seq<byte>, n: nat, m: nat, calls: seq<Call>)
    requires n <= m <= |data| < 0x1_0000_0000
    requires Stored(rx, data, n, calls)
    ensures var (r, reply) := OnChunk(rx, now, n, data[n..m]);
            && Stored(r, data, n, calls)
            && (reply.Some? || Stored(rx, data, m, calls) ==> Stored(r, data, m, calls))
  {
    HandleKeepsValid(rx, now, Chunk(n, data[n..m]));
    var (r, reply) := OnChunk(rx, now, n, data[n..m]);
    if reply.Some? {
      var d := data[n..m];
      assert d[..m - n] == d;
      var w := Write(rx.buff.value, n, d);
      assert r.buff.value == w;
      assert w[..m] == w[..n] + w[n..m];
      assert data[..m] == data[..n] + d;
    }
  }

  /** Everything under way belongs to chunk [n, m): copies of it towards the receiver, and
      acknowledgements that exist only if the receiver has stored it. */
  ghost predicate OnlyChunk(l: Link, data: seq<byte>, n: nat, m: nat, calls: seq<Call>)
    requires n <= m <= |data| < 0x1_0000_0000
  {
    && l.rx.Valid() && Stored(l.rx, data, n, calls)
    && (forall i | 0 <= i < |l.toRx| :: l.toRx[i] == ChunkFrame(n, data[n..m]))
    && (l.toTx != [] ==> Stored(l.rx, data, m, calls))
  }

  lemma PolledOnlyChunk(l: Link, now: uint32, data: seq<byte>, n: nat, m: nat, calls: seq<Call>)
    requires n <= m <= |data| < 0x1_0000_0000 && m - n <= MAX_CHUNK && OnlyChunk(l, data, n, m, calls)
    ensures OnlyChunk(Polled(l, now), data, n, m, calls)
  {
    if l.toRx != [] {
      ChunkOnWire(n, data[n..m]);
      ChunkStores(l.rx, now, data, n, m, calls);
    }
  }

  /** However late copies and acknowledgements are: waiting keeps the link to this chunk, and a
      reply means the chunk is stored. */
  lemma {:induction false} WaitStores(l: Link, data: seq<byte>, n: nat, m: nat, calls: seq<Call>)
    requires n <= m <= |data| < 0x1_0000_0000 && m - n <= MAX_CHUNK && OnlyChunk(l, data, n, m, calls)
    ensures var (k, reply) := Wait(l, true);
            OnlyChunk(k, data, n, m, calls) && (reply.Some? ==> Stored(k.rx, data, m, calls))
    decreases |l.events|
  {
    hide ChunkFrame, Stored, Polled;
    if l.events != [] {
      var k := l.(events := l.events[1..]);
      match l.events[0]
      case Deliver(now) =>
        PolledOnlyChunk(k, now, data, n, m, calls);
        WaitStores(Polled(k, now), data, n, m, calls);
      case LoseRequest => WaitStores(k.(toRx := Tail(k.toRx)), data, n, m, calls);
      case LoseReply => WaitStores(k.(toTx := Tail(k.toTx)), data, n, m, calls);
      case Foreign => WaitStores(k, data, n, m, calls);
      case Timeout =>
      case Arrive =>
        if !(k.toTx != [] && k.toTx[0].Ack?) { WaitStores(k.(toTx := Tail(k.toTx)), data, n, m, calls); }
    }
  }

  lemma {:induction false} AttemptsStore(l: Link, data: seq<byte>, n: nat, m: nat, tries: nat, calls: seq<Call>)
    requires n <= m <= |data| < 0x1_0000_0000 && m - n <= MAX_CHUNK && OnlyChunk(l, data, n, m, calls)
    ensures var (k, acked) := Attempts(l, data[n..m], n, tries);
            OnlyChunk(k, data, n, m, calls) && (acked ==> Stored(k.rx, data, m, calls))
    decreases tries
  {
    hide Wait, Stored;
    if tries > 0 {
      var sent := l.(toRx := l.toRx + [ChunkFrame(n, data[n..m])]);
      WaitStores(sent, data, n, m, calls);
      var (k, reply) := Wait(sent, true);
      if reply.None? { AttemptsStore(k, data, n, m, tries - 1, calls); }
    }
  }

  /** The link is empty whenever the loop begins a chunk, and when it ends: nothing outlives
      the chunk it belongs to. */
  ghost predicate QuietStarts(s: Stream, l: Link, data: seq<byte>, offset: nat, chunkSize: byte)
    requires l.rx.Valid() && offset <= |data| < 0x1_0000_0000
    decreases |l.events|
  {
    && l.Quiet()
    && (offset < |data| ==>
          var n := Min(chunkSize, |data| - offset);
          var (s', k, out) := ChunkSpec(s, l, data[offset..offset + n], offset);
          out == OK ==> QuietStarts(s', k, data, offset + n, chunkSize))
  }

  lemma {:induction false} ChunksStore(s: Stream, l: Link, data: seq<byte>, n: nat, chunkSize: byte, calls: seq<Call>)
    requires n <= |data| < 0x1_0000_0000 && Min(chunkSize, |data|) <= MAX_CHUNK
    requires l.rx.Valid() && Stored(l.rx, data, n, calls) && QuietStarts(s, l, data, n, chunkSize)
    ensures var (s', k, done) := Chunks(s, l, data, n, chunkSize);
            done ==> k.Quiet() && Stored(k.rx, data, |data|, calls) && s' == s
    decreases |l.events|
  {
    hide Wait, Attempts, Stored;
    if n < |data| {
      var m := n + Min(chunkSize, |data| - n);
      AttemptsStore(l, data, n, m, RETRIES, calls);
      var (s', k, out) := ChunkSpec(s, l, data[n..m], n);
      if out == OK { ChunksStore(s', k, data, m, chunkSize, calls); }
    }
  }

  /** Request f is all the link has carried since the receiver was at rx: it waits in the
      link, or was lost, or was handled and its reply waits or was lost. */
  ghost predicate Carries(l: Link, rx: Rx, f: Frame, now: uint32)
    requires rx.Valid()
  {
    && l.rx.Valid()
    && var (rx', reply) := Handle(rx, now, Decode(f));
       || (l.toRx == [f] && l.toTx == [] && l.rx == rx)
       || (l.Quiet() && l.rx == rx)
       || (l.Quiet() && l.rx == rx')
       || (l.toRx == [] && l.rx == rx' && reply.Some? && l.toTx == [reply.value])
  }

  /** A reply to f means that the receiver handled f, once, and that the link is empty. */
  lemma {:induction false} WaitForReply(l: Link, rx: Rx, f: Frame, t: uint32, ack: bool) returns (now: uint32)
    requires rx.Valid() && Carries(l, rx, f, t)
    ensures var (k, reply) := Wait(l, ack);
            reply.Some? ==> k.Quiet() && Handle(rx, now, Decode(f)) == (k.rx, reply)
    decreases |l.events|
  {
    now := t;
    if l.events != [] && !l.events[0].Timeout? {
      var k := l.(events := l.events[1..]);
      match l.events[0]
      case Deliver(at) =>
        HandleKeepsValid(rx, at, Decode(f));
        now := WaitForReply(Polled(k, at), rx, f, if l.toRx == [f] then at else t, ack);
      case LoseRequest => now := WaitForReply(k.(toRx := Tail(k.toRx)), rx, f, t, ack);
      case LoseReply => now := WaitForReply(k.(toTx := Tail(k.toTx)), rx, f, t, ack);
      case Foreign => now := WaitForReply(k, rx, f, t, ack);
      case Arrive =>
        if !(k.toTx != [] && k.toTx[0].Ack? == ack) {
          now := WaitForReply(k.(toTx := Tail(k.toTx)), rx, f, t, ack);
        }
    }
  }

  lemma BeginAccepted(s: Stream, l: Link, size: uint32)
    requires l.rx.Valid() && l.Quiet()
    ensures var (s', k, out) := BeginSpec(s, l, size);
            out == OK ==>
              && k.Quiet() && k.rx.calls == l.rx.calls && s' == Stream(size, true)
              && k.rx.buff.Some? && k.rx.expected == size <= k.rx.buffSize
  {
    var f := BeginFrame(size);
    BeginOnWire(size);
    var sent := l.(toRx := l.toRx + [f]);
    assert sent.toRx == [f];
    var now := WaitForReply(sent, l.rx, f, 0, false);
  }

  /** Once begun, no packet of the transfer outlives its chunk. */
  ghost predicate Orderly(s: Stream, l: Link, data: seq<byte>, chunkSize: byte)
    requires l.rx.Valid() && |data| < 0x1_0000_0000
  {
    && l.Quiet()
    && var (s1, l1, out) := BeginSpec(s, l, |data|);
       out == OK ==> QuietStarts(s1, l1, data, 0, chunkSize)
  }

  /** Whatever the schedule loses, delays within a chunk, and however often chunks are resent:
      when sendLarge returns a nonzero size, the receiver's buffer holds exactly the sender's
      bytes on [0, size), and only the end packet is still under way. */
  lemma SuccessMeansDelivered(s: Stream, l: Link, data: seq<byte>, packId: byte, chunkSize: byte)
    requires l.rx.Valid() && |data| < 0x1_0000_0000
    requires Orderly(s, l, data, chunkSize) && Min(chunkSize, |data|) <= MAX_CHUNK
    ensures var (s', k, sent) := SendSpec(s, l, data, packId, chunkSize);
            sent != 0 ==>
              && sent == |data| && Stored(k.rx, data, |data|, l.rx.calls)
              && k.toRx == [EndFrame(packId)] && k.toTx == []
  {
    hide Wait, Attempts, ChunkSpec, QuietStarts;
    BeginAccepted(s, l, |data|);
    var (s1, l1, out) := BeginSpec(s, l, |data|);
    if out == OK {
      ChunksStore(s1, l1, data, 0, chunkSize, l.rx.calls);
      var (s2, l2, done) := Chunks(s1, l1, data, 0, chunkSize);
      if done { assert l2.toRx + [EndFrame(packId)] == [EndFrame(packId)]; }
    }
  }

  // ---------- Punctual links are orderly ----------

  lemma {:induction false} WaitEndsQuiet(l: Link, ack: bool)
    requires l.rx.Valid() && l.punctual && |l.toRx| + |l.toTx| <= 1
    ensures Wait(l, ack).0.Quiet()
    decreases |l.events|
  {
    if l.events != [] {
      var k := l.(events := l.events[1..]);
      match l.events[0]
      case Deliver(now) => WaitEndsQuiet(Polled(k, now), ack);
      case LoseRequest => WaitEndsQuiet(k.(toRx := Tail(k.toRx)), ack);
      case LoseReply => WaitEndsQuiet(k.(toTx := Tail(k.toTx)), ack);
      case Foreign => WaitEndsQuiet(k, ack);
      case Timeout =>
      case Arrive =>
        if !(k.toTx != [] && k.toTx[0].Ack? == ack) { WaitEndsQuiet(k.(toTx := Tail(k.toTx)), ack); }
    }
  }

  lemma {:induction false} AttemptsEndQuiet(l: Link, data: seq<byte>, offset: uint32, tries: nat)
    requires l.rx.Valid() && l.punctual && l.Quiet()
    ensures Attempts(l, data, offset, tries).0.Quiet()
    decreases tries
  {
    if tries > 0 {
      var sent := l.(toRx := l.toRx + [ChunkFrame(offset, data)]);
      WaitEndsQuiet(sent, true);
      AttemptsEndQuiet(Wait(sent, true).0, data, offset, tries - 1);
    }
  }

  lemma {:induction false} PunctualQuietStarts(s: Stream, l: Link, data: seq<byte>, offset: nat, chunkSize: byte)
    requires l.rx.Valid() && offset <= |data| < 0x1_0000_0000 && l.punctual && l.Quiet()
    ensures QuietStarts(s, l, data, offset, chunkSize)
    decreases |l.events|
  {
    hide Wait, Attempts;
    if offset < |data| {
      var n := Min(chunkSize, |data| - offset);
      AttemptsEndQuiet(l, data[offset..offset + n], offset, RETRIES);
      var (s', k, out) := ChunkSpec(s, l, data[offset..offset + n], offset);
      if out == OK { PunctualQuietStarts(s', k, data, offset + n, chunkSize); }
    }
  }

  lemma PunctualIsOrderly(s: Stream, l: Link, data: seq<byte>, chunkSize: byte)
    requires l.rx.Valid() && |data| < 0x1_0000_0000 && l.punctual && l.Quiet()
    ensures Orderly(s, l, data, chunkSize)
  {
    hide ChunkSpec;
    BeginAccepted(s, l, |data|);
    var (s1, l1, out) := BeginSpec(s, l, |data|);
    if out == OK { PunctualQuietStarts(s1, l1, data, 0, chunkSize); }
  }

  // ---------- The user handler ----------

  /** When the only request under way reaches the receiver, if it does. */
  function Reached(events: seq<Event>): Option<uint32>
  {
    if events == [] then None
    else match events[0]
      case Deliver(now) => Some(now)
      case LoseRequest => None
      case _ => Reached(events[1..])
  }

  /** The end packet reaches a receiver that has a handler, is still in the transfer, and heard
      from the sender less than the timeout ago. */
  predicate EndInTime(rx: Rx, events: seq<Event>)
  {
    rx.hasHandler && rx.state.RECVING? && Reached(events).Some? && !TimedOut(rx.start, Reached(events).value)
  }

  lemma {:induction false} EndSettles(l: Link, data: seq<byte>, packId: byte, calls: seq<Call>)
    requires l.rx.Valid() && l.toTx == []
    requires l.toRx == [EndFrame(packId)] && Stored(l.rx, data, |data|, calls)
    ensures var r := Settle(l).rx;
            && r.buff == l.rx.buff
            && r.calls == if EndInTime(l.rx, l.events) then calls + [Call(r.buff, |data|, packId)] else calls
    decreases |l.events|
  {
    if l.events != [] {
      var k := l.(events := l.events[1..]);
      match l.events[0]
      case Deliver(now) => SettleQuiet(Polled(k, now));
      case LoseRequest => SettleQuiet(k.(toRx := Tail(k.toRx)));
      case LoseReply | Arrive => EndSettles(k.(toTx := Tail(k.toTx)), data, packId, calls);
      case Timeout | Foreign => EndSettles(k, data, packId, calls);
    }
  }

  lemma {:induction false} SettleQuiet(l: Link)
    requires l.rx.Valid() && l.Quiet()
    ensures Settle(l).rx == l.rx
    decreases |l.events|
  {
    if l.events != [] { SettleQuiet(l.(events := l.events[1..])); }
  }

  lemma {:induction false} AttemptsEndReceiving(l: Link, data: seq<byte>, offset: uint32, tries: nat)
    requires l.rx.Valid() && l.punctual && l.Quiet()
    ensures var (k, acked) := Attempts(l, data, offset, tries); acked ==> k.rx.state.RECVING?
    decreases tries
  {
    hide Wait;
    if tries > 0 {
      var f := ChunkFrame(offset, data);
      var sent := l.(toRx := l.toRx + [f]);
      assert sent.toRx == [f];
      ChunkOnWire(offset, data);
      var _ := WaitForReply(sent, l.rx, f, 0, true);
      WaitEndsQuiet(sent, true);
      AttemptsEndReceiving(Wait(sent, true).0, data, offset, tries - 1);
    }
  }

  /** On a punctual link the last acknowledgement comes from a receiver that is still in the
      transfer. */
  lemma {:induction false} ChunksEndReceiving(s: Stream, l: Link, data: seq<byte>, offset: nat, chunkSize: byte)
    requires l.rx.Valid() && l.punctual && l.Quiet() && offset < |data| < 0x1_0000_0000
    ensures var (_, k, done) := Chunks(s, l, data, offset, chunkSize); done ==> k.rx.state.RECVING?
    decreases |l.events|
  {
    hide Wait, Attempts;
    var m := offset + Min(chunkSize, |data| - offset);
    AttemptsEndQuiet(l, data[offset..m], offset, RETRIES);
    AttemptsEndReceiving(l, data[offset..m], offset, RETRIES);
    var (s', k, out) := ChunkSpec(s, l, data[offset..m], offset);
    if out == OK && m < |data| { ChunksEndReceiving(s', k, data, m, chunkSize); }
  }

  /** Once the rest of the schedule has played out: the buffer holds the payload, and the user
      handler has run for this transfer exactly when the end packet came in time, then once, with
      that buffer, the payload's size and its id. */
  lemma HandlerGetsPayload(s: Stream, l: Link, data: seq<byte>, packId: byte, chunkSize: byte)
    requires l.rx.Valid() && |data| < 0x1_0000_0000
    requires Orderly(s, l, data, chunkSize) && Min(chunkSize, |data|) <= MAX_CHUNK
    ensures var (s', k, sent) := SendSpec(s, l, data, packId, chunkSize);
            var r := Settle(k).rx;
            sent != 0 ==>
              && r.buff == k.rx.buff && Delivered(r.buff, data)
              && r.calls == if EndInTime(k.rx, k.events) then l.rx.calls + [Call(k.rx.buff, |data|, packId)]
                            else l.rx.calls
  {
    SuccessMeansDelivered(s, l, data, packId, chunkSize);
    var (s', k, sent) := SendSpec(s, l, data, packId, chunkSize);
    if sent != 0 {
      EndSettles(k, data, packId, l.rx.calls);
      assert data[..|data|] == data;
    }
  }

  /** On a punctual link a nonzero result leaves the receiver in the transfer, so that whether the
      handler runs depends on the end packet and the clock alone. */
  lemma PunctualEndsReceiving(s: Stream, l: Link, data: seq<byte>, packId: byte, chunkSize: byte)
    requires l.rx.Valid() && l.punctual && l.Quiet() && |data| < 0x1_0000_0000
    ensures var (_, k, sent) := SendSpec(s, l, data, packId, chunkSize);
            sent != 0 ==>
              && k.rx.state.RECVING?
              && (EndInTime(k.rx, k.events) <==>
                    l.rx.hasHandler && Reached(k.events).Some? && !TimedOut(k.rx.start, Reached(k.events).value))
  {
    hide Wait, Attempts, ChunkSpec;
    BeginAccepted(s, l, |data|);
    var (s1, l1, out) := BeginSpec(s, l, |data|);
    if out == OK && data != [] { ChunksEndReceiving(s1, l1, data, 0, chunkSize); }
  }

  // ---------- Packets of other ids ----------

  /** A schedule without its foreign packets. */
  function Stripped(events: seq<Event>): (r: seq<Event>)
    ensures |r| <= |events|
  {
    if events == [] then []
    else (if events[0].Foreign? then [] else [events[0]]) + Stripped(events[1..])
  }

  function Pure(l: Link): Link { l.(events := Stripped(l.events)) }

  lemma PureStep(l: Link)
    requires l.events != [] && !l.events[0].Foreign?
    ensures Pure(l).events != [] && Pure(l).events[0] == l.events[0]
    ensures Pure(l).events[1..] == Stripped(l.events[1..])
  {
  }

  lemma {:induction false} WaitPure(l: Link, ack: bool)
    requires l.rx.Valid()
    ensures var (k, reply) := Wait(l, ack); Wait(Pure(l), ack) == (Pure(k), reply)
    decreases |l.events|
  {
    hide Polled;
    if l.events != [] {
      var k := l.(events := l.events[1..]);
      if !l.events[0].Foreign? { PureStep(l); }
      match l.events[0]
      case Deliver(now) =>
        PolledPure(k, now);
        WaitPure(Polled(k, now), ack);
      case LoseRequest => WaitPure(k.(toRx := Tail(k.toRx)), ack);
      case LoseReply => WaitPure(k.(toTx := Tail(k.toTx)), ack);
      case Timeout =>
      case Foreign =>
        WaitPure(k, ack);
        assert Pure(l) == Pure(k);
      case Arrive =>
        if !(k.toTx != [] && k.toTx[0].Ack? == ack) { WaitPure(k.(toTx := Tail(k.toTx)), ack); }
    }
  }

  lemma PolledPure(l: Link, now: uint32)
    requires l.rx.Valid()
    ensures Polled(Pure(l), now) == Pure(Polled(l, now))
  {
  }

  lemma {:induction false} SettlePure(l: Link)
    requires l.rx.Valid()
    ensures Settle(Pure(l)) == Settle(l)
    decreases |l.events|
  {
    hide Polled;
    if l.events != [] {
      var k := l.(events := l.events[1..]);
      if !l.events[0].Foreign? { PureStep(l); }
      match l.events[0]
      case Deliver(now) =>
        PolledPure(k, now);
        SettlePure(Polled(k, now));
      case LoseRequest => SettlePure(k.(toRx := Tail(k.toRx)));
      case LoseReply | Arrive => SettlePure(k.(toTx := Tail(k.toTx)));
      case Timeout => SettlePure(k);
      case Foreign =>
        SettlePure(k);
        assert Pure(l) == Pure(k);
    }
  }

  lemma {:induction false} AttemptsPure(l: Link, data: seq<byte>, offset: uint32, tries: nat)
    requires l.rx.Valid()
    ensures var (k, acked) := Attempts(l, data, offset, tries);
            Attempts(Pure(l), data, offset, tries) == (Pure(k), acked)
    decreases tries
  {
    hide Wait, Stripped, ChunkFrame;
    if tries > 0 {
      var sent := l.(toRx := l.toRx + [ChunkFrame(offset, data)]);
      WaitPure(sent, true);
      assert Pure(sent) == Pure(l).(toRx := Pure(l).toRx + [ChunkFrame(offset, data)]);
      var (k, reply) := Wait(sent, true);
      if reply.None? { AttemptsPure(k, data, offset, tries - 1); }
    }
  }

  lemma {:induction false} ChunksPure(s: Stream, l: Link, data: seq<byte>, offset: nat, chunkSize: byte)
    requires l.rx.Valid() && offset <= |data| < 0x1_0000_0000
    ensures var (s', k, done) := Chunks(s, l, data, offset, chunkSize);
            Chunks(s, Pure(l), data, offset, chunkSize) == (s', Pure(k), done)
    decreases |l.events|
  {
    hide Wait, Attempts, Stripped;
    if offset < |data| {
      var n := Min(chunkSize, |data| - offset);
      var d := data[offset..offset + n];
      AttemptsPure(l, d, offset, RETRIES);
      var (s', k, out) := ChunkSpec(s, l, d, offset);
      assert ChunkSpec(s, Pure(l), d, offset) == (s', Pure(k), out);
      if out == OK { ChunksPure(s', k, data, offset + n, chunkSize); }
    }
  }

  /** Packets of other ids, however many and whenever they come in during a transfer, change
      nothing: sendLarge makes the same of the link as under the schedule without them, and so does
      the rest of the schedule. */
  lemma ForeignPacketsIgnored(s: Stream, l: Link, data: seq<byte>, packId: byte, chunkSize: byte)
    requires l.rx.Valid() && |data| < 0x1_0000_0000
    ensures var (s', k, sent) := SendSpec(s, l, data, packId, chunkSize);
            SendSpec(s, Pure(l), data, packId, chunkSize) == (s', Pure(k), sent) && Settle(Pure(k)) == Settle(k)
  {
    hide Wait, Chunks, Stripped, Settle, BeginFrame;
    var begin := l.(toRx := l.toRx + [BeginFrame(|data|)]);
    WaitPure(begin, false);
    assert Pure(begin) == Pure(l).(toRx := Pure(l).toRx + [BeginFrame(|data|)]);
    var (s1, l1, out) := BeginSpec(s, l, |data|);
    assert BeginSpec(s, Pure(l), |data|) == (s1, Pure(l1), out);
    if out == OK { ChunksPure(s1, l1, data, 0, chunkSize); }
    SettlePure(SendSpec(s, l, data, packId, chunkSize).1);
  }

  function Arrivals(n: nat): seq<Event> { seq(n, _ => Arrive) }

  /** Replies of the other kind that are still under way are skipped, and the first of the wanted
      kind behind them ends the wait. */
  lemma {:induction false} StaleRepliesSkipped(l: Link, ack: bool, stale: seq<Reply>, reply: Reply, more: seq<Reply>,
                                               rest: seq<Event>)
    requires l.rx.Valid() && l.toTx == stale + ([reply] + more) && l.events == Arrivals(|stale| + 1) + rest
    requires reply.Ack? == ack && forall i | 0 <= i < |stale| :: stale[i].Ack? != ack
    ensures Wait(l, ack) == (l.(toTx := more, events := rest), Some(reply))
    decreases |stale|
  {
    assert l.events[1..] == Arrivals(|stale|) + rest;
    if stale == [] {
      assert l.toTx[1..] == more && Arrivals(0) + rest == rest;
    } else {
      assert l.toTx[1..] == stale[1..] + ([reply] + more);
      StaleRepliesSkipped(l.(toTx := l.toTx[1..], events := l.events[1..]), ack, stale[1..], reply, more, rest);
    }
  }

  // ---------- Losses and retries ----------

  /** A failed attempt at a chunk: the request is lost, or it is handled at `now` and the
      acknowledgement is lost. The wait then runs out. */
  datatype Attempt = Lost | Unanswered(now: uint32)

  /** What becomes of one chunk: attempts that fail, then one that is handled at `now` and
      acknowledged. */
  datatype Round = Round(failures: seq<Attempt>, now: uint32)

  function AttemptEvents(a: Attempt): seq<Event>
  {
    if a.Lost? then [LoseRequest, Timeout] else [Deliver(a.now), LoseReply, Timeout]
  }

  function FailureEvents(failures: seq<Attempt>): seq<Event>
  {
    if failures == [] then [] else AttemptEvents(failures[0]) + FailureEvents(failures[1..])
  }

  function RoundEvents(rounds: seq<Round>): seq<Event>
  {
    if rounds == [] then []
    else FailureEvents(rounds[0].failures) + ([Deliver(rounds[0].now), Arrive] + RoundEvents(rounds[1..]))
  }

  /** When the receiver last heard from the sender. */
  function Heard(start: uint32, failures: seq<Attempt>): uint32
    decreases |failures|
  {
    if failures == [] then start
    else Heard(if failures[0].Lost? then start else failures[0].now, failures[1..])
  }

  /** The receiver hears from the sender again before each timeout. */
  predicate InTime(start: uint32, failures: seq<Attempt>)
    decreases |failures|
  {
    failures != [] ==>
    && (failures[0].Unanswered? ==> !TimedOut(start, failures[0].now))
    && InTime(if failures[0].Lost? then start else failures[0].now, failures[1..])
  }

  predicate Timely(start: uint32, rounds: seq<Round>)
    decreases |rounds|
  {
    rounds != [] ==>
    && InTime(start, rounds[0].failures)
    && !TimedOut(Heard(start, rounds[0].failures), rounds[0].now)
    && Timely(rounds[0].now, rounds[1..])
  }

  function LastHeard(start: uint32, rounds: seq<Round>): uint32
    decreases |rounds|
  {
    if rounds == [] then start else LastHeard(rounds[0].now, rounds[1..])
  }

  /** How many chunks are left to send. */
  function Rounds(left: nat, chunkSize: nat): nat
    requires chunkSize > 0
  {
    if left == 0 then 0 else 1 + Rounds(left - Min(chunkSize, left), chunkSize)
  }

  lemma WaitDeliver(l: Link, now: uint32, rest: seq<Event>, ack: bool)
    requires l.rx.Valid() && l.events == [Deliver(now)] + rest
    ensures Wait(l, ack) == Wait(Polled(l.(events := rest), now), ack)
  {
    assert l.events[1..] == rest;
  }

  lemma WaitArrive(l: Link, reply: Reply, rest: seq<Event>)
    requires l.rx.Valid() && l.toTx == [reply] && l.events == [Arrive] + rest
    ensures Wait(l, reply.Ack?) == (l.(toTx := [], events := rest), Some(reply))
  {
    assert l.events[1..] == rest && l.toTx[1..] == [];
  }

  lemma LosslessWait(l: Link, f: Frame, now: uint32, rest: seq<Event>, ack: bool)
    requires l.rx.Valid() && l.Quiet() && l.events == [Deliver(now), Arrive] + rest
    requires var (_, reply) := Handle(l.rx, now, Decode(f)); reply.Some? && reply.value.Ack? == ack
    ensures var (rx, reply) := Handle(l.rx, now, Decode(f));
            Wait(l.(toRx := l.toRx + [f]), ack) == (l.(rx := rx, events := rest), reply)
  {
    hide Wait, Handle, Decode;
    HandleKeepsValid(l.rx, now, Decode(f));
    var (rx, reply) := Handle(l.rx, now, Decode(f));
    var sent := l.(toRx := l.toRx + [f]);
    assert sent.toRx[1..] == [] && l.toTx + [reply.value] == [reply.value];
    assert sent.events == [Deliver(now)] + ([Arrive] + rest);
    WaitDeliver(sent, now, [Arrive] + rest, ack);
    WaitArrive(l.(rx := rx, events := [Arrive] + rest, toTx := [reply.value]), reply.value, rest);
  }

  /** The receiver is open for this transfer. */
  ghost predicate Open(rx: Rx, size: nat)
  {
    rx.Valid() && rx.state.RECVING? && rx.expected == size
  }

  /** Same handler, same handler calls, same bound buffer up to its contents. */
  ghost predicate Similar(r: Rx, q: Rx)
  {
    r.calls == q.calls && r.hasHandler == q.hasHandler && r.buffSize == q.buffSize
  }

  ghost predicate ByteKept(r: Rx, q: Rx, at: nat)
  {
    && r.buff.Some? && q.buff.Some? && at < |r.buff.value| && at < |q.buff.value|
    && r.buff.value[at] == q.buff.value[at]
  }

  /** Chunk [n, m) of the payload does not carry the byte at this position: it lies elsewhere, or
      the data did not fit. */
  predicate Misses(n: nat, m: nat, at: nat) { at < n || m <= at || m - n > MAX_CHUNK }

  /** A chunk that reaches an open receiver in time is acknowledged, fitted or not. */
  lemma ChunkHandled(rx: Rx, data: seq<byte>, n: nat, m: nat, now: uint32, at: nat)
    requires n < m <= |data| < 0x1_0000_0000 && Open(rx, |data|) && !TimedOut(rx.start, now)
    ensures var (r, reply) := Handle(rx, now, Decode(ChunkFrame(n, data[n..m])));
            && reply.Some? && reply.value.Ack? && Open(r, |data|) && r.start == now && Similar(r, rx)
            && (at < |data| && Misses(n, m, at) ==> ByteKept(r, rx, at))
  {
    var d := data[n..m];
    ChunkOnWire(n, d);
    var carried := if |d| <= MAX_CHUNK then d else [];
    HandleKeepsValid(rx, now, Chunk(n, carried));
    ChunkWritesInside(rx, now, n, carried);
  }

  function AfterFailure(rx: Rx, f: Frame, a: Attempt): Rx
    requires rx.Valid()
  {
    if a.Lost? then rx else Handle(rx, a.now, Decode(f)).0
  }

  lemma FailedWait(l: Link, f: Frame, a: Attempt, rest: seq<Event>)
    requires l.rx.Valid() && l.Quiet() && l.events == AttemptEvents(a) + rest
    ensures AfterFailure(l.rx, f, a).Valid()
    ensures Wait(l.(toRx := l.toRx + [f]), true) == (l.(rx := AfterFailure(l.rx, f, a), events := rest), None)
  {
    hide Handle, Decode;
    var sent := l.(toRx := l.toRx + [f]);
    assert sent.toRx == [f] && sent.toRx[1..] == [];
    if a.Lost? {
      WaitLoses(sent, rest);
    } else {
      HandleKeepsValid(l.rx, a.now, Decode(f));
      assert l.events == [Deliver(a.now)] + ([LoseReply, Timeout] + rest);
      WaitDeliver(sent, a.now, [LoseReply, Timeout] + rest, true);
      WaitLosesReply(Polled(sent.(events := [LoseReply, Timeout] + rest), a.now), rest);
    }
  }

  lemma WaitLoses(l: Link, rest: seq<Event>)
    requires l.rx.Valid() && |l.toRx| == 1 && l.toTx == [] && l.events == [LoseRequest, Timeout] + rest
    ensures Wait(l, true) == (l.(toRx := [], events := rest), None)
  {
    assert l.events[1..] == [Timeout] + rest && l.events[1..][1..] == rest && l.toRx[1..] == [];
  }

  lemma WaitLosesReply(l: Link, rest: seq<Event>)
    requires l.rx.Valid() && l.toRx == [] && |l.toTx| <= 1 && l.events == [LoseReply, Timeout] + rest
    ensures Wait(l, true) == (l.(toTx := [], events := rest), None)
  {
    assert l.events[1..] == [Timeout] + rest && l.events[1..][1..] == rest;
    assert Tail(l.toTx) == [];
  }

  /** However many attempts fail, up to one less than are made, the next one succeeds. */
  lemma {:induction false} AttemptsRetried(l: Link, data: seq<byte>, n: nat, m: nat, tries: nat,
                                           round: Round, rest: seq<Event>, at: nat) returns (rx: Rx)
    requires n < m <= |data| < 0x1_0000_0000 && l.Quiet() && Open(l.rx, |data|)
    requires InTime(l.rx.start, round.failures) && !TimedOut(Heard(l.rx.start, round.failures), round.now)
    requires l.events == FailureEvents(round.failures) + ([Deliver(round.now), Arrive] + rest)
    requires |round.failures| < tries
    ensures Attempts(l, data[n..m], n, tries) == (l.(rx := rx, events := rest), true)
    ensures Open(rx, |data|) && rx.start == round.now && Similar(rx, l.rx)
    ensures at < |data| && Misses(n, m, at) ==> ByteKept(rx, l.rx, at)
    decreases |round.failures|
  {
    hide Wait, Handle, Decode, ChunkFrame;
    var d, failures, last := data[n..m], round.failures, [Deliver(round.now), Arrive] + rest;
    var f := ChunkFrame(n, d);
    if failures == [] {
      ChunkHandled(l.rx, data, n, m, round.now, at);
      rx := Handle(l.rx, round.now, Decode(f)).0;
      assert l.events == [Deliver(round.now), Arrive] + rest;
      LosslessWait(l, f, round.now, rest, true);
    } else {
      var tail := FailureEvents(failures[1..]) + last;
      assert l.events == AttemptEvents(failures[0]) + tail;
      FailedWait(l, f, failures[0], tail);
      if failures[0].Unanswered? { ChunkHandled(l.rx, data, n, m, failures[0].now, at); }
      var k := l.(rx := AfterFailure(l.rx, f, failures[0]), events := tail);
      rx := AttemptsRetried(k, data, n, m, tries - 1, Round(failures[1..], round.now), rest, at);
    }
  }

  /** As many failures as attempts, and the chunk is given up. */
  lemma {:induction false} AttemptsGiveUp(l: Link, d: seq<byte>, n: uint32, tries: nat, failures: seq<Attempt>,
                                          rest: seq<Event>)
    requires l.rx.Valid() && l.Quiet() && l.events == FailureEvents(failures) + rest && tries <= |failures|
    ensures !Attempts(l, d, n, tries).1
    decreases tries
  {
    hide Wait, ChunkFrame;
    if tries > 0 {
      var f := ChunkFrame(n, d);
      var tail := FailureEvents(failures[1..]) + rest;
      assert l.events == AttemptEvents(failures[0]) + tail;
      FailedWait(l, f, failures[0], tail);
      var k := l.(rx := AfterFailure(l.rx, f, failures[0]), events := tail);
      AttemptsGiveUp(k, d, n, tries - 1, failures[1..], rest);
    }
  }

  lemma ChunksStep(s: Stream, l: Link, data: seq<byte>, n: nat, chunkSize: byte, k: Link)
    requires l.rx.Valid() && k.rx.Valid() && n < |data| < 0x1_0000_0000
    requires ChunkSpec(s, l, data[n..n + Min(chunkSize, |data| - n)], n) == (s, k, OK)
    ensures Chunks(s, l, data, n, chunkSize) == Chunks(s, k, data, n + Min(chunkSize, |data| - n), chunkSize)
  {
  }

  /** One chunk of the loop, given what becomes of it. */
  lemma ChunkRetried(s: Stream, l: Link, data: seq<byte>, n: nat, m: nat, round: Round, rest: seq<Event>, at: nat)
    returns (k: Link)
    requires n < m <= |data| < 0x1_0000_0000
    requires s == Stream(|data|, true) && l.Quiet() && Open(l.rx, |data|) && Timely(l.rx.start, [round])
    requires l.events == FailureEvents(round.failures) + ([Deliver(round.now), Arrive] + rest)
    ensures |round.failures| <= 4 ==>
              && ChunkSpec(s, l, data[n..m], n) == (s, k, OK)
              && k == l.(rx := k.rx, events := rest) && Open(k.rx, |data|) && k.rx.start == round.now
              && Similar(k.rx, l.rx) && (at < |data| && Misses(n, m, at) ==> ByteKept(k.rx, l.rx, at))
    ensures |round.failures| > 4 ==> ChunkSpec(s, l, data[n..m], n).2 == TIMED_OUT
  {
    hide Attempts, Wait;
    k := l;
    if |round.failures| <= 4 {
      var rx := AttemptsRetried(l, data, n, m, RETRIES, round, rest, at);
      k := l.(rx := rx, events := rest);
    } else {
      AttemptsGiveUp(l, data[n..m], n, RETRIES, round.failures, [Deliver(round.now), Arrive] + rest);
    }
  }

  /** No chunk meets more than four failed attempts. */
  ghost predicate FewFailures(rounds: seq<Round>)
  {
    forall i | 0 <= i < |rounds| :: |rounds[i].failures| <= 4
  }

  lemma {:induction false} ChunksRetried(s: Stream, l: Link, data: seq<byte>, n: nat, chunkSize: byte,
                                         rounds: seq<Round>, rest: seq<Event>, at: nat)
    requires n <= |data| < 0x1_0000_0000 && chunkSize > 0 && |rounds| == Rounds(|data| - n, chunkSize)
    requires s == Stream(|data|, true) && l.Quiet() && Open(l.rx, |data|) && Timely(l.rx.start, rounds)
    requires l.events == RoundEvents(rounds) + rest
    ensures QuietStarts(s, l, data, n, chunkSize)
    ensures var (s', k, done) := Chunks(s, l, data, n, chunkSize);
            && (done <==> FewFailures(rounds))
            && (done ==>
                  && s' == s && k.Quiet() && k.events == rest && Open(k.rx, |data|)
                  && k.rx.start == LastHeard(l.rx.start, rounds) && Similar(k.rx, l.rx)
                  && (at < |data| && (at < n || (at == 0 && Min(chunkSize, |data|) > MAX_CHUNK)) ==>
                        ByteKept(k.rx, l.rx, at)))
    decreases |rounds|
  {
    hide Wait, Attempts, ChunkSpec, FailureEvents, InTime, Heard;
    var left := |data| - n;
    if left == 0 {
      assert l.events == rest;
    } else {
      var m := n + Min(chunkSize, left);
      var round, others := rounds[0], rounds[1..];
      var tail := RoundEvents(others) + rest;
      assert l.events == FailureEvents(round.failures) + ([Deliver(round.now), Arrive] + tail);
      assert Timely(l.rx.start, [round]);
      var k := ChunkRetried(s, l, data, n, m, round, tail, at);
      if |round.failures| <= 4 {
        ChunksStep(s, l, data, n, chunkSize, k);
        ChunksRetried(s, k, data, m, chunkSize, others, rest, at);
        assert FewFailures(rounds) <==> FewFailures(others) by {
          assert rounds == [round] + others;
        }
      }
    }
  }

  /** Begin is delivered at `begun` and what then waits for the sender arrives; every chunk meets its
      round; the end packet arrives at `ended`. Packets of other ids come in at any points. */
  ghost predicate Schedule(l: Link, size: nat, chunkSize: byte, begun: uint32, rounds: seq<Round>, ended: uint32)
  {
    && chunkSize > 0 && |rounds| == Rounds(size, chunkSize)
    && Timely(begun, rounds) && !TimedOut(LastHeard(begun, rounds), ended)
    && Stripped(l.events) ==
       [Deliver(begun)] + (Arrivals(|l.toTx| + 1) + (RoundEvents(rounds) + [Deliver(ended)]))
  }

  /** The receiver takes a transfer of this size: it is in none, or that one has timed out, and its
      buffer has room. */
  predicate Takes(rx: Rx, now: uint32, size: nat)
  {
    (rx.state.READY? || TimedOut(rx.start, now)) && rx.buff.Some? && size <= rx.buffSize
  }

  /** Only acknowledgements of earlier transfers are under way. */
  ghost predicate Stale(l: Link) { l.toRx == [] && forall i | 0 <= i < |l.toTx| :: l.toTx[i].Ack? }

  /** Whatever requests and acknowledgements are lost, whatever other packets come in, whatever old
      acknowledgements are still under way, and at whatever times the rest arrives, as long as the
      receiver hears from the sender before each timeout: sendLarge of a nonempty payload succeeds
      exactly when the receiver takes the transfer and no chunk meets more than four failed
      attempts. The handler then runs once, with the payload if the chunks fitted the transmit
      buffer. */
  lemma RetriesSucceedExactly(s: Stream, l: Link, data: seq<byte>, packId: byte, chunkSize: byte,
                              begun: uint32, rounds: seq<Round>, ended: uint32)
    requires |data| < 0x1_0000_0000 && Schedule(l, |data|, chunkSize, begun, rounds, ended)
    requires l.rx.Valid() && Stale(l)
    ensures var (_, k, sent) := SendSpec(s, l, data, packId, chunkSize);
            && (data != [] ==> (sent == |data| <==> Takes(l.rx, begun, |data|) && FewFailures(rounds)))
            && (Takes(l.rx, begun, |data|) && FewFailures(rounds) ==>
                  && k.rx.buff.Some? && k.rx.buffSize == l.rx.buffSize
                  && (l.rx.hasHandler ==> Settle(k).rx.calls == l.rx.calls + [Call(k.rx.buff, |data|, packId)])
                  && (Min(chunkSize, |data|) <= MAX_CHUNK ==> Delivered(k.rx.buff, data))
                  && (Min(chunkSize, |data|) > MAX_CHUNK ==> ByteKept(k.rx, l.rx, 0)))
  {
    hide Wait, Attempts, ChunkSpec, BeginSpec, Chunks, Settle, Stripped;
    ForeignPacketsIgnored(s, l, data, packId, chunkSize);
    var p := Pure(l);
    var later := RoundEvents(rounds) + [Deliver(ended)];
    if Takes(l.rx, begun, |data|) {
      var l1 := BeginTaken(s, p, |data|, begun, later);
      var s1 := Stream(|data|, true);
      ChunksRetried(s1, l1, data, 0, chunkSize, rounds, [Deliver(ended)], 0);
      var (_, l2, done) := Chunks(s1, l1, data, 0, chunkSize);
      if done {
        EndLossless(l2, |data|, packId, ended);
        if Min(chunkSize, |data|) <= MAX_CHUNK { RetriedDelivers(s1, l1, data, chunkSize); }
      }
    } else {
      BeginNotTaken(s, p, |data|, begun, later);
    }
    if data == [] { assert rounds == []; }
  }

  /** What the begin packet's delivery leaves on the link. */
  lemma BeginDelivered(l: Link, size: uint32, now: uint32, later: seq<Event>) returns (k: Link)
    requires l.rx.Valid() && l.toRx == [] && l.events == [Deliver(now)] + later
    ensures var (rx, reply) := Handle(l.rx, now, Begin(size));
            && rx.Valid()
            && k == l.(rx := rx, toTx := l.toTx + (if reply.Some? then [reply.value] else []), events := later)
            && Wait(l.(toRx := l.toRx + [BeginFrame(size)]), false) == Wait(k, false)
  {
    hide Wait, Handle;
    HandleKeepsValid(l.rx, now, Begin(size));
    BeginOnWire(size);
    var (rx, reply) := Handle(l.rx, now, Begin(size));
    var sent := l.(toRx := l.toRx + [BeginFrame(size)]);
    WaitDeliver(sent, now, later, false);
    assert sent.toRx[1..] == [];
    k := l.(rx := rx, toTx := l.toTx + (if reply.Some? then [reply.value] else []), events := later);
    assert Polled(sent.(events := later), now) == k;
  }

  lemma BeginTaken(s: Stream, l: Link, size: uint32, now: uint32, rest: seq<Event>) returns (k: Link)
    requires l.rx.Valid() && Stale(l) && Takes(l.rx, now, size)
    requires l.events == [Deliver(now)] + (Arrivals(|l.toTx| + 1) + rest)
    ensures BeginSpec(s, l, size) == (Stream(size, true), k, OK)
    ensures k == l.(rx := k.rx, toTx := [], events := rest) && Open(k.rx, size) && k.rx.start == now
    ensures Similar(k.rx, l.rx) && k.rx.buff == l.rx.buff
  {
    hide Wait, BeginFrame;
    var d := BeginDelivered(l, size, now, Arrivals(|l.toTx| + 1) + rest);
    BeginAnswered(l.rx, now, size);
    var yes := BeginResp(true);
    assert d.toTx == l.toTx + ([yes] + []);
    StaleRepliesSkipped(d, false, l.toTx, yes, [], rest);
    k := d.(toTx := [], events := rest);
  }

  lemma {:induction false} NoBeginResponse(l: Link)
    requires l.rx.Valid() && Stale(l)
    ensures Wait(l, false).1.None?
    decreases |l.events|
  {
    if l.events != [] {
      var k := l.(events := l.events[1..]);
      match l.events[0]
      case Deliver(_) | LoseRequest | Foreign => NoBeginResponse(k);
      case LoseReply | Arrive => NoBeginResponse(k.(toTx := Tail(k.toTx)));
      case Timeout =>
    }
  }

  /** A busy receiver leaves a begin unanswered, one without room refuses it. */
  lemma BeginNotTaken(s: Stream, l: Link, size: uint32, now: uint32, rest: seq<Event>)
    requires l.rx.Valid() && Stale(l) && !Takes(l.rx, now, size)
    requires l.events == [Deliver(now)] + (Arrivals(|l.toTx| + 1) + rest)
    ensures BeginSpec(s, l, size).2 == if l.rx.state.RECVING? && !TimedOut(l.rx.start, now) then TIMED_OUT else REFUSED
  {
    hide Wait, BeginFrame;
    var d := BeginDelivered(l, size, now, Arrivals(|l.toTx| + 1) + rest);
    BeginAnswered(l.rx, now, size);
    if l.rx.state.RECVING? && !TimedOut(l.rx.start, now) {
      NoBeginResponse(d);
    } else {
      var no := BeginResp(false);
      assert d.toTx == l.toTx + ([no] + []);
      StaleRepliesSkipped(d, false, l.toTx, no, [], rest);
    }
  }

  lemma RetriedDelivers(s: Stream, l: Link, data: seq<byte>, chunkSize: byte)
    requires |data| < 0x1_0000_0000 && Min(chunkSize, |data|) <= MAX_CHUNK && Open(l.rx, |data|)
    requires QuietStarts(s, l, data, 0, chunkSize)
    ensures var (_, k, done) := Chunks(s, l, data, 0, chunkSize); done ==> Delivered(k.rx.buff, data)
  {
    hide Wait, Attempts, ChunkSpec, Chunks;
    ChunksStore(s, l, data, 0, chunkSize, l.rx.calls);
    assert data[..|data|] == data;
  }

  lemma BeginLossless(s: Stream, l: Link, size: uint32, now: uint32, rest: seq<Event>) returns (k: Link)
    requires l.rx.Valid() && l.rx.state.READY? && l.rx.buff.Some? && size <= l.rx.buffSize && l.Quiet()
    requires l.events == [Deliver(now), Arrive] + rest
    ensures BeginSpec(s, l, size) == (Stream(size, true), k, OK)
    ensures k == l.(rx := k.rx, events := rest) && Open(k.rx, size) && k.rx.start == now
    ensures Similar(k.rx, l.rx) && k.rx.buff == l.rx.buff
  {
    assert l.events == [Deliver(now)] + (Arrivals(1) + rest);
    k := BeginTaken(s, l, size, now, rest);
  }

  lemma EndLossless(l: Link, size: uint32, packId: byte, now: uint32)
    requires l.Quiet() && l.events == [Deliver(now)] && Open(l.rx, size) && !TimedOut(l.rx.start, now)
    ensures l.rx.hasHandler ==>
              Settle(l.(toRx := l.toRx + [EndFrame(packId)])).rx.calls == l.rx.calls + [Call(l.rx.buff, size, packId)]
  {
    var k := l.(toRx := l.toRx + [EndFrame(packId)]);
    assert k.toRx == [EndFrame(packId)];
    assert Settle(k) == Settle(Polled(k.(events := []), now));
  }

  /** Nothing is lost and the clock stands still. */
  function Plain(n: nat): seq<Round>
  {
    if n == 0 then [] else [Round([], 0)] + Plain(n - 1)
  }

  lemma {:induction false} PlainTimely(n: nat)
    ensures |Plain(n)| == n && Timely(0, Plain(n)) && LastHeard(0, Plain(n)) == 0 && FewFailures(Plain(n))
  {
    if n > 0 {
      PlainTimely(n - 1);
      assert Plain(n)[1..] == Plain(n - 1);
    }
  }

  lemma {:induction false} PlainPure(n: nat)
    ensures Stripped(RoundEvents(Plain(n)) + [Deliver(0)]) == RoundEvents(Plain(n)) + [Deliver(0)]
  {
    if n == 0 {
      assert Stripped([Deliver(0)]) == [Deliver(0)];
    } else {
      PlainPure(n - 1);
      var tail := RoundEvents(Plain(n - 1)) + [Deliver(0)];
      assert Plain(n)[1..] == Plain(n - 1);
      assert RoundEvents(Plain(n)) + [Deliver(0)] == [Deliver(0)] + ([Arrive] + tail);
      StrippedCons(Arrive, tail);
      StrippedCons(Deliver(0), [Arrive] + tail);
    }
  }

  lemma PlainSchedule(l: Link, size: nat, chunkSize: byte)
    requires chunkSize > 0 && l.toTx == []
    requires l.events == [Deliver(0), Arrive] + (RoundEvents(Plain(Rounds(size, chunkSize))) + [Deliver(0)])
    ensures Schedule(l, size, chunkSize, 0, Plain(Rounds(size, chunkSize)), 0)
  {
    hide Plain, RoundEvents, Stripped, Timely, LastHeard, Rounds;
    var n := Rounds(size, chunkSize);
    PlainTimely(n);
    PlainPure(n);
    var tail := RoundEvents(Plain(n)) + [Deliver(0)];
    TwoMore(l.events, tail);
    assert Arrivals(1) == [Arrive];
  }

  lemma TwoMore(events: seq<Event>, tail: seq<Event>)
    requires events == [Deliver(0), Arrive] + tail && Stripped(tail) == tail
    ensures Stripped(events) == [Deliver(0)] + ([Arrive] + tail)
  {
    hide Stripped;
    assert events == [Deliver(0)] + ([Arrive] + tail);
    StrippedCons(Arrive, tail);
    StrippedCons(Deliver(0), [Arrive] + tail);
    assert Stripped(events) == [Deliver(0)] + Stripped([Arrive] + tail);
  }

  lemma StrippedCons(e: Event, rest: seq<Event>)
    requires !e.Foreign?
    ensures Stripped([e] + rest) == [e] + Stripped(rest)
  {
    assert ([e] + rest)[1..] == rest;
  }

  // ---------- Exactly when ----------

  /** On every punctual link, from every receiver state and under every schedule, a nonzero
      result means delivered. */
  ghost predicate Reliable(data: seq<byte>, chunkSize: byte)
    requires |data| < 0x1_0000_0000
  {
    forall s: Stream, l: Link, packId: byte | l.rx.Valid() && l.punctual && l.Quiet() ::
      var (_, k, sent) := SendSpec(s, l, data, packId, chunkSize);
      sent != 0 ==> Delivered(k.rx.buff, data)
  }

  /** sendLarge is reliable exactly when its chunks fit the transmit buffer beside their
      offset. From 251 bytes on, txBytes appends nothing and the empty chunks are acknowledged. */
  lemma ReliableExactly(data: seq<byte>, chunkSize: byte)
    requires |data| < 0x1_0000_0000
    ensures Reliable(data, chunkSize) <==> chunkSize <= MAX_CHUNK || |data| <= MAX_CHUNK
  {
    hide Wait, Attempts, ChunkSpec, Chunks, BeginSpec;
    if chunkSize <= MAX_CHUNK || |data| <= MAX_CHUNK {
      forall s: Stream, l: Link, packId: byte | l.rx.Valid() && l.punctual && l.Quiet()
        ensures var (_, k, sent) := SendSpec(s, l, data, packId, chunkSize);
                sent != 0 ==> Delivered(k.rx.buff, data)
      {
        PunctualIsOrderly(s, l, data, chunkSize);
        SuccessMeansDelivered(s, l, data, packId, chunkSize);
        assert data[..|data|] == data;
      }
    } else {
      var stale: byte := if data[0] == 0 then 1 else 0;
      var buff := seq(|data|, _ => stale);
      var rx := Rx(READY, 0, Some(buff), |data|, 0, false, []);
      var rounds := Plain(Rounds(|data|, chunkSize));
      var l := Link(rx, [], [], [Deliver(0), Arrive] + (RoundEvents(rounds) + [Deliver(0)]), true);
      var s := Stream(0, false);
      PlainTimely(Rounds(|data|, chunkSize));
      PlainSchedule(l, |data|, chunkSize);
      RetriesSucceedExactly(s, l, data, 0, chunkSize, 0, rounds, 0);
      var (_, k, sent) := SendSpec(s, l, data, 0, chunkSize);
      assert k.rx.buff.value[0] == stale;
      assert sent != 0 && !Delivered(k.rx.buff, data);
    }
  }

  // ---------- On links that may be late ----------

  /** A chunk is handled, but the wait runs out before its acknowledgement arrives. */
  lemma LateAckWait(l: Link, f: Frame, rest: seq<Event>)
    requires l.rx.Valid() && l.Quiet() && !l.punctual && l.events == [Deliver(0), Timeout] + rest
    requires Handle(l.rx, 0, Decode(f)).1.Some?
    ensures var (rx, reply) := Handle(l.rx, 0, Decode(f));
            && rx.Valid()
            && Wait(l.(toRx := l.toRx + [f]), true) == (l.(rx := rx, toTx := [reply.value], events := rest), None)
  {
    hide Handle, Decode;
    HandleKeepsValid(l.rx, 0, Decode(f));
    var (rx, reply) := Handle(l.rx, 0, Decode(f));
    var sent := l.(toRx := l.toRx + [f]);
    assert sent.toRx[1..] == [] && l.toTx + [reply.value] == [reply.value];
    assert l.events == [Deliver(0)] + ([Timeout] + rest);
    WaitDeliver(sent, 0, [Timeout] + rest, true);
    assert ([Timeout] + rest)[1..] == rest;
  }

  /** An acknowledgement already under way answers the next copy, which stays under way. */
  lemma StaleAckAnswers(l: Link, d: seq<byte>, n: uint32, reply: Reply, rest: seq<Event>)
    requires l.rx.Valid() && l.toRx == [] && l.toTx == [reply] && reply.Ack? && l.events == [Arrive] + rest
    ensures Attempts(l, d, n, RETRIES - 1) == (l.(toRx := [ChunkFrame(n, d)], toTx := [], events := rest), true)
  {
    hide Wait, ChunkFrame;
    var c: Frame := ChunkFrame(n, d);
    assert l.toRx + [c] == [c];
    WaitArrive(l.(toRx := [c]), reply, rest);
  }

  /** The first chunk: handled, its acknowledgement late, which then answers the second copy. */
  lemma LateAckFirst(s: Stream, l: Link, data: seq<byte>, m: nat, rest: seq<Event>) returns (k: Link)
    requires 0 < m < |data| < 0x1_0000_0000 && s == Stream(|data|, true)
    requires Open(l.rx, |data|) && l.rx.start == 0 && l.Quiet() && !l.punctual
    requires l.events == [Deliver(0), Timeout, Arrive] + rest
    ensures ChunkSpec(s, l, data[0..m], 0) == (s, k, OK)
    ensures k == l.(rx := k.rx, toRx := [ChunkFrame(0, data[0..m])], events := rest)
    ensures Open(k.rx, |data|) && k.rx.start == 0 && ByteKept(k.rx, l.rx, m)
  {
    hide Wait, ChunkFrame, Handle, Decode;
    var d := data[0..m];
    var f := ChunkFrame(0, d);
    ChunkHandled(l.rx, data, 0, m, 0, m);
    var (rx, reply) := Handle(l.rx, 0, Decode(f));
    assert l.events == [Deliver(0), Timeout] + ([Arrive] + rest);
    LateAckWait(l, f, [Arrive] + rest);
    var expired := l.(rx := rx, toTx := [reply.value], events := [Arrive] + rest);
    StaleAckAnswers(expired, d, 0, reply.value, rest);
    assert Attempts(l, d, 0, RETRIES) == Attempts(expired, d, 0, RETRIES - 1);
    k := l.(rx := rx, toRx := [f], events := rest);
  }

  /** The second chunk: lost, and acknowledged by the handling of the copy of the first. */
  lemma LateAckSecond(s: Stream, l: Link, data: seq<byte>, n: nat, m: nat, rest: seq<Event>) returns (k: Link)
    requires 0 < n < m <= |data| < 0x1_0000_0000 && s == Stream(|data|, true)
    requires Open(l.rx, |data|) && l.rx.start == 0 && l.toRx == [ChunkFrame(0, data[0..n])] && l.toTx == []
    requires l.events == [Deliver(0), LoseRequest, Arrive] + rest
    ensures ChunkSpec(s, l, data[n..m], n) == (s, k, OK)
    ensures k == l.(rx := k.rx, toRx := [], events := rest)
    ensures Open(k.rx, |data|) && k.rx.start == 0 && ByteKept(k.rx, l.rx, n)
  {
    hide Wait, ChunkFrame, Handle, Decode;
    var c, f := ChunkFrame(n, data[n..m]), ChunkFrame(0, data[0..n]);
    ChunkHandled(l.rx, data, 0, n, 0, n);
    HandleKeepsValid(l.rx, 0, Decode(f));
    var (rx, reply) := Handle(l.rx, 0, Decode(f));
    var sent := l.(toRx := l.toRx + [c]);
    var later := [LoseRequest, Arrive] + rest;
    assert sent.events == [Deliver(0)] + later && sent.toRx[0] == f && sent.toRx[1..] == [c];
    assert l.toTx + [reply.value] == [reply.value];
    WaitDeliver(sent, 0, later, true);
    var handled := l.(rx := rx, toRx := [c], toTx := [reply.value], events := later);
    assert Polled(sent.(events := later), 0) == handled;
    WaitLosesRequest(handled, [Arrive] + rest);
    WaitArrive(handled.(toRx := [], events := [Arrive] + rest), reply.value, rest);
    k := l.(rx := rx, toRx := [], events := rest);
    assert Attempts(l, data[n..m], n, RETRIES) == (k, true);
  }

  lemma WaitLosesRequest(l: Link, rest: seq<Event>)
    requires l.rx.Valid() && |l.toRx| == 1 && l.events == [LoseRequest] + rest
    ensures Wait(l, true) == Wait(l.(toRx := [], events := rest), true)
  {
    assert l.events[1..] == rest && l.toRx[1..] == [];
  }

  /** An acknowledgement names no offset. For every payload of more than one chunk: when a resent
      chunk outlives its wait, its late acknowledgement is taken for that of a chunk that was
      lost, and sendLarge returns the size of a payload that was not delivered. */
  lemma LateAckBreaksDelivery(data: seq<byte>, chunkSize: byte) returns (s: Stream, l: Link)
    requires 0 < chunkSize < |data| < 0x1_0000_0000
    ensures l.rx.Valid() && l.Quiet() && !l.punctual
    ensures var (_, k, sent) := SendSpec(s, l, data, 0, chunkSize); sent == |data| && !Delivered(k.rx.buff, data)
  {
    hide Wait, Attempts, ChunkSpec, BeginSpec, Chunks, QuietStarts;
    var n := chunkSize;
    var m := n + Min(n, |data| - n);
    var rounds := Plain(Rounds(|data| - m, n));
    PlainTimely(Rounds(|data| - m, n));
    var e3 := RoundEvents(rounds) + [];
    var e2 := [Deliver(0), LoseRequest, Arrive] + e3;
    var e1 := [Deliver(0), Timeout, Arrive] + e2;
    var stale: byte := if data[n] == 0 then 1 else 0;
    var ready := Rx(READY, 0, Some(seq(|data|, _ => stale)), |data|, 0, false, []);
    var s1 := Stream(|data|, true);
    s, l := Stream(0, false), Link(ready, [], [], [Deliver(0), Arrive] + e1, false);
    var l1 := BeginLossless(s, l, |data|, 0, e1);
    var l2 := LateAckFirst(s1, l1, data, n, e2);
    var l3 := LateAckSecond(s1, l2, data, n, m, e3);
    ChunksStep(s1, l1, data, 0, n, l2);
    ChunksStep(s1, l2, data, n, n, l3);
    ChunksRetried(s1, l3, data, m, n, rounds, [], n);
    var (_, k, sent) := SendSpec(s, l, data, 0, chunkSize);
    assert k.rx.buff.value[n] == stale != data[n];
  }

  /** A payload of one chunk that fits is delivered on every quiet link, however late its packets:
      every acknowledgement is its own. */
  lemma OneChunkDelivers(s: Stream, l: Link, data: seq<byte>, packId: byte, chunkSize: byte)
    requires l.rx.Valid() && l.Quiet() && |data| <= Min(chunkSize, MAX_CHUNK)
    ensures var (_, k, sent) := SendSpec(s, l, data, packId, chunkSize); sent != 0 ==> Delivered(k.rx.buff, data)
  {
    hide Wait, Attempts, BeginSpec;
    BeginAccepted(s, l, |data|);
    var (s1, l1, out) := BeginSpec(s, l, |data|);
    if out == OK && data != [] {
      assert data[0..|data|] == data && data[..|data|] == data;
      AttemptsStore(l1, data, 0, |data|, RETRIES, l1.rx.calls);
      var (s2, l2, chunk) := ChunkSpec(s1, l1, data, 0);
      if chunk == OK {
        assert Chunks(s1, l1, data, 0, chunkSize) == Chunks(s2, l2, data, |data|, chunkSize) == (s2, l2, true);
      }
    }
  }

  /** Empty chunks never get anywhere. */
  lemma {:induction false} EmptyChunksNeverDone(s: Stream, l: Link, data: seq<byte>, offset: nat)
    requires l.rx.Valid() && offset < |data| < 0x1_0000_0000
    ensures !Chunks(s, l, data, offset, 0).2
    decreases |l.events|
  {
    hide Wait, Attempts;
    var (s', k, out) := ChunkSpec(s, l, data[offset..offset], offset);
    if out == OK { EmptyChunksNeverDone(s', k, data, offset); }
  }

  /** On every quiet link, punctual or late, from every receiver state and under every schedule, a
      nonzero result means delivered. */
  ghost predicate ReliableAnywhere(data: seq<byte>, chunkSize: byte)
    requires |data| < 0x1_0000_0000
  {
    forall s: Stream, l: Link, packId: byte | l.rx.Valid() && l.Quiet() ::
      var (_, k, sent) := SendSpec(s, l, data, packId, chunkSize);
      sent != 0 ==> Delivered(k.rx.buff, data)
  }

  /** Without any promise about late packets, sendLarge is reliable exactly for payloads of one
      chunk that fits the transmit buffer, and in the void for chunks of no bytes. */
  lemma ReliableAnywhereExactly(data: seq<byte>, chunkSize: byte)
    requires |data| < 0x1_0000_0000
    ensures ReliableAnywhere(data, chunkSize) <==> chunkSize == 0 || |data| <= Min(chunkSize, MAX_CHUNK)
  {
    hide Chunks, BeginSpec;
    if chunkSize == 0 || |data| <= Min(chunkSize, MAX_CHUNK) {
      forall s: Stream, l: Link, packId: byte | l.rx.Valid() && l.Quiet()
        ensures var (_, k, sent) := SendSpec(s, l, data, packId, chunkSize);
                sent != 0 ==> Delivered(k.rx.buff, data)
      {
        if chunkSize > 0 {
          OneChunkDelivers(s, l, data, packId, chunkSize);
        } else if data != [] {
          var (s1, l1, _) := BeginSpec(s, l, |data|);
          EmptyChunksNeverDone(s1, l1, data, 0);
        }
      }
    } else if chunkSize < |data| {
      var s, l := LateAckBreaksDelivery(data, chunkSize);
    } else {
      ReliableExactly(data, chunkSize);
    }
  }

  // ---------- The stream operations in any order ----------

  datatype Use = UseBegin(size: uint32) | UseChunk(data: seq<byte>, offset: uint32) | UseEnd(packId: byte)

  function UseSpec(s: Stream, l: Link, u: Use): (r: (Stream, Link, Outcome))
    requires l.rx.Valid()
    ensures r.1.rx.Valid()
  {
    match u
    case UseBegin(size) => BeginSpec(s, l, size)
    case UseChunk(data, offset) => ChunkSpec(s, l, data, offset)
    case UseEnd(packId) => EndSpec(s, l, packId)
  }

  /** A sequence of stream operations and what each returned. */
  function UseAll(s: Stream, l: Link, uses: seq<Use>): (r: (Stream, Link, seq<Outcome>))
    requires l.rx.Valid()
    ensures r.1.rx.Valid() && |r.2| == |uses|
  {
    if uses == [] then (s, l, [])
    else
      var (s1, l1, outs) := UseAll(s, l, uses[..|uses| - 1]);
      var (s2, l2, out) := UseSpec(s1, l1, uses[|uses| - 1]);
      (s2, l2, outs + [out])
  }

  /** Whether the stream is open, told from the operations and what they returned: an accepted begin
      opens it; a refused one, a chunk that timed out and an end close it. A begin that timed out
      leaves it as it was. */
  predicate OpenTold(first: bool, uses: seq<Use>, outs: seq<Outcome>)
    requires |uses| == |outs|
  {
    if uses == [] then first
    else
      var n := |uses| - 1;
      match outs[n]
      case OK => uses[n].UseBegin? || (uses[n].UseChunk? && OpenTold(first, uses[..n], outs[..n]))
      case REFUSED => false
      case TIMED_OUT => uses[n].UseBegin? && OpenTold(first, uses[..n], outs[..n])
      case NOT_INITIATED | CHUNK_OUT_OF_BOUNDS => OpenTold(first, uses[..n], outs[..n])
  }

  /** The size of the last begin, whatever became of it. */
  function SizeTold(first: uint32, uses: seq<Use>): uint32
  {
    if uses == [] then first
    else
      var u := uses[|uses| - 1];
      if u.UseBegin? then u.size else SizeTold(first, uses[..|uses| - 1])
  }

  /** After any stream operations in any order, over any link: the stream is open and bounded as
      told. So a chunk or an end is refused exactly when the stream is not open, a chunk beyond the
      size of the last begin exactly when it is, and neither refusal puts anything on the link; an
      end of an open stream puts one packet on it. */
  lemma {:induction false} StreamGuards(s: Stream, l: Link, uses: seq<Use>, data: seq<byte>, offset: uint32,
                                        packId: byte)
    requires l.rx.Valid()
    ensures var (s1, l1, outs) := UseAll(s, l, uses);
            var open, size := OpenTold(s.initiated, uses, outs), SizeTold(s.buffSize, uses);
            var (_, l2, chunk) := ChunkSpec(s1, l1, data, offset);
            var (_, l3, end) := EndSpec(s1, l1, packId);
            && s1 == Stream(size, open)
            && (chunk == NOT_INITIATED <==> !open)
            && (chunk == CHUNK_OUT_OF_BOUNDS <==> open && (offset + |data|) % 0x1_0000_0000 > size)
            && (chunk in {NOT_INITIATED, CHUNK_OUT_OF_BOUNDS} ==> l2 == l1)
            && end == (if open then OK else NOT_INITIATED)
            && l3 == if open then l1.(toRx := l1.toRx + [EndFrame(packId)]) else l1
    decreases |uses|
  {
    hide Wait, Attempts;
    if uses != [] {
      var n := |uses| - 1;
      StreamGuards(s, l, uses[..n], data, offset, packId);
      var (_, _, outs) := UseAll(s, l, uses);
      assert outs[..n] == UseAll(s, l, uses[..n]).2;
    }
  }

  // ---------- The device object ----------

  class Sender {
    var buffSize: uint32
    var initiated: bool
    var link: Link
    var txBuff: seq<byte>

    ghost predicate Valid()
      reads this
    {
      link.rx.Valid() && |txBuff| <= TX_CAPACITY
    }

    ghost function View(): Stream
      reads this
    {
      Stream(buffSize, initiated)
    }

    constructor (l: Link)
      requires l.rx.Valid()
      ensures Valid() && link == l && View() == Stream(0, false)
    {
      buffSize, initiated, link, txBuff := 0, false, l, [];
    }

    /** Appends to the transmit buffer; false, and no change, when it would overflow. */
    method TxBytes(bytes: seq<byte>) returns (ok: bool)
      requires Valid()
      modifies this`txBuff
      ensures Valid() && txBuff == TxAppend(old(txBuff), bytes)
      ensures ok <==> |old(txBuff)| + |bytes| <= TX_CAPACITY
    {
      ok := |bytes| + |txBuff| <= TX_CAPACITY;
      if ok { txBuff := txBuff + bytes; }
    }

    /** Blocks until a reply of the wanted kind arrives or the wait runs out. */
    method WaitPacketOfId(ack: bool) returns (reply: Option<Reply>)
      requires Valid()
      modifies this`link
      ensures Valid() && (link, reply) == Wait(old(link), ack)
    {
      while link.events != []
        invariant Valid() && Wait(link, ack) == Wait(old(link), ack)
        decreases |link.events|
      {
        var e := link.events[0];
        link := link.(events := link.events[1..]);
        match e
        case Deliver(now) => link := Polled(link, now);
        case LoseRequest => link := link.(toRx := Tail(link.toRx));
        case LoseReply => link := link.(toTx := Tail(link.toTx));
        case Foreign =>
        case Timeout =>
          link := GiveUp(link);
          return None;
        case Arrive =>
          if link.toTx != [] {
            var r := link.toTx[0];
            link := link.(toTx := link.toTx[1..]);
            if r.Ack? == ack { return Some(r); }
          }
      }
      link := GiveUp(link);
      return None;
    }

    method StreamBegin(size: uint32) returns (out: Outcome)
      requires Valid()
      modifies this`link, this`buffSize, this`initiated
      ensures Valid() && (View(), link, out) == BeginSpec(old(View()), old(link), size)
    {
      link := link.(toRx := link.toRx + [BeginFrame(size)]);
      buffSize := size;
      var reply := WaitPacketOfId(false);
      if reply.None? { return TIMED_OUT; }
      initiated := reply.value.ok;
      return if initiated then OK else REFUSED;
    }

    method StreamChunk(data: seq<byte>, offset: uint32) returns (out: Outcome)
      requires Valid()
      modifies this`link, this`initiated, this`txBuff
      ensures Valid() && (View(), link, out) == ChunkSpec(old(View()), old(link), data, offset)
    {
      if !initiated { return NOT_INITIATED; }
      if (offset + |data|) % 0x1_0000_0000 > buffSize { return CHUNK_OUT_OF_BOUNDS; }
      txBuff := [];
      var i := 0;
      while i < RETRIES
        invariant 0 <= i <= RETRIES && Valid() && txBuff == [] && View() == old(View())
        invariant Attempts(link, data, offset, RETRIES - i) == Attempts(old(link), data, offset, RETRIES)
      {
        var _ := TxBytes(LE32(offset));
        var _ := TxBytes(data);
        link := link.(toRx := link.toRx + [Frame(CHUNK, txBuff)]);
        txBuff := [];
        var reply := WaitPacketOfId(true);
        if reply.Some? { return OK; }
        i := i + 1;
      }
      initiated := false;
      return TIMED_OUT;
    }

    method StreamEnd(packId: byte) returns (out: Outcome)
      requires Valid()
      modifies this`link, this`initiated
      ensures Valid() && (View(), link, out) == EndSpec(old(View()), old(link), packId)
    {
      if !initiated { return NOT_INITIATED; }
      link := link.(toRx := link.toRx + [EndFrame(packId)]);
      initiated := false;
      return OK;
    }

    /** The chunk loop of sendLarge. */
    method SendChunks(data: seq<byte>, chunkSize: byte) returns (done: bool)
      requires Valid() && |data| < 0x1_0000_0000
      modifies this`link, this`initiated, this`txBuff
      ensures Valid() && (View(), link, done) == Chunks(old(View()), old(link), data, 0, chunkSize)
    {
      hide Wait, Attempts, ChunkSpec;
      var offset := 0;
      while offset < |data|
        invariant 0 <= offset <= |data| && Valid() && buffSize == old(buffSize)
        invariant Chunks(View(), link, data, offset, chunkSize) == Chunks(old(View()), old(link), data, 0, chunkSize)
        decreases |link.events|
      {
        var n := Min(chunkSize, |data| - offset);
        ghost var s, l := View(), link;
        var out := StreamChunk(data[offset..offset + n], offset);
        if out != OK { return false; }
        ChunksStep(s, l, data, offset, chunkSize, link);
        offset := offset + n;
      }
      return true;
    }

    method SendLarge(data: seq<byte>, packId: byte, chunkSize: byte) returns (sent: nat)
      requires Valid() && |data| < 0x1_0000_0000
      modifies this`link, this`buffSize, this`initiated, this`txBuff
      ensures Valid() && (View(), link, sent) == SendSpec(old(View()), old(link), data, packId, chunkSize)
    {
      var out := StreamBegin(|data|);
      if out != OK { return 0; }
      var done := SendChunks(data, chunkSize);
      if !done { return 0; }
      var _ := StreamEnd(packId);
      return |data|;
    }
  }
}
