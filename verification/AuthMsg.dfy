/**
 The authmsg wire protocol (shared_libs/authmsg): frames that carry a sequence number on eight
 big-endian bytes, the payload, and a 32-byte HMAC (section 2 of RFC 2104) over both.
 The HMAC is an arbitrary function of key and data with 32-byte results.
 */
module AuthMsg {
  import opened Bytes
  import opened Options

  const SEQUENCE_SIZE := 8
  const HMAC_SIZE := 32
  const MIN_PACKET_SIZE := SEQUENCE_SIZE + HMAC_SIZE
  const SEQUENCE_LIMIT := 0x1_0000_0000_0000_0000

  type Data = seq<byte>

  type Mac = f: (Data, Data) -> Data | forall k: Data, d: Data :: |f(k, d)| == HMAC_SIZE
    witness (k, d) => seq(HMAC_SIZE, _ => 0)

  datatype Error = OverflowError | FramingError | AuthenticationError | SequenceError

  datatype Result<T> = Ok(value: T) | Err(error: Error)

  function Signature(mac: Mac, psk: Data, sequence: nat, payload: Data): (r: Data)
    ensures |r| == HMAC_SIZE
  {
    mac(psk, ToBE(sequence, SEQUENCE_SIZE) + payload)
  }

  function EncodePacket(mac: Mac, psk: Data, sequence: nat, payload: Data): Result<Data>
  {
    if sequence >= SEQUENCE_LIMIT then Err(OverflowError)
    else Ok(ToBE(sequence, SEQUENCE_SIZE) + payload + Signature(mac, psk, sequence, payload))
  }

  function DecodePacket(mac: Mac, psk: Data, data: Data, last: Option<nat>): Result<(nat, Data)>
  {
    if |data| < MIN_PACKET_SIZE then Err(FramingError)
    else
      var sequence := FromBE(data[..SEQUENCE_SIZE]);
      var tag := data[|data| - HMAC_SIZE..];
      var payload := data[SEQUENCE_SIZE..|data| - HMAC_SIZE];
      if Signature(mac, psk, sequence, payload) != tag then Err(AuthenticationError)
      else if last.Some? && sequence <= last.value then Err(SequenceError)
      else Ok((sequence, payload))
  }

  lemma SequenceRange()
    ensures Pow256(SEQUENCE_SIZE) == SEQUENCE_LIMIT
  {
    assert Pow256(2) == 0x1_0000;
    assert Pow256(4) == 0x1_0000_0000;
    assert Pow256(6) == 0x1_0000_0000_0000;
  }

  /** Decoding undoes encoding for every payload and 64-bit sequence number; a stale number is
      refused as such. */
  lemma DecodeUndoesEncode(mac: Mac, psk: Data, sequence: nat, payload: Data, last: Option<nat>)
    requires sequence < SEQUENCE_LIMIT
    ensures DecodePacket(mac, psk, EncodePacket(mac, psk, sequence, payload).value, last)
         == if last.Some? && sequence <= last.value then Err(SequenceError) else Ok((sequence, payload))
  {
    SequenceRange();
    FromToBE(sequence, SEQUENCE_SIZE);
    var data := EncodePacket(mac, psk, sequence, payload).value;
    assert data[..SEQUENCE_SIZE] == ToBE(sequence, SEQUENCE_SIZE);
    assert data[SEQUENCE_SIZE..|data| - HMAC_SIZE] == payload;
    assert data[|data| - HMAC_SIZE..] == Signature(mac, psk, sequence, payload);
  }

  /** Any byte string that decodes re-encodes to exactly the same bytes. */
  lemma EncodeUndoesDecode(mac: Mac, psk: Data, data: Data, last: Option<nat>)
    requires DecodePacket(mac, psk, data, last).Ok?
    ensures var (sequence, payload) := DecodePacket(mac, psk, data, last).value;
            && sequence < SEQUENCE_LIMIT && (last.Some? ==> last.value < sequence)
            && EncodePacket(mac, psk, sequence, payload) == Ok(data)
  {
    SequenceRange();
    ToFromBE(data[..SEQUENCE_SIZE]);
    var n := |data| - HMAC_SIZE;
    assert data == data[..SEQUENCE_SIZE] + data[SEQUENCE_SIZE..n] + data[n..];
  }

  /** A byte string is accepted exactly when it is the encoding of something newer than `last`. */
  lemma AcceptedExactly(mac: Mac, psk: Data, data: Data, last: Option<nat>)
    ensures DecodePacket(mac, psk, data, last).Ok? <==>
            exists sequence: nat, payload: Data ::
              EncodePacket(mac, psk, sequence, payload) == Ok(data) && (last.Some? ==> last.value < sequence)
  {
    if DecodePacket(mac, psk, data, last).Ok? {
      EncodeUndoesDecode(mac, psk, data, last);
      var (sequence, payload) := DecodePacket(mac, psk, data, last).value;
      assert EncodePacket(mac, psk, sequence, payload) == Ok(data);
    }
    if sequence: nat, payload: Data :|
      EncodePacket(mac, psk, sequence, payload) == Ok(data) && (last.Some? ==> last.value < sequence)
    {
      DecodeUndoesEncode(mac, psk, sequence, payload, last);
    }
  }

  /** The number that eight bytes spell, the first one the highest. */
  function EightBytes(b: Data): int
    requires |b| == 8
  {
    0x100_0000_0000_0000 * (b[0] as int) + 0x1_0000_0000_0000 * (b[1] as int)
    + 0x100_0000_0000 * (b[2] as int) + 0x1_0000_0000 * (b[3] as int)
    + 0x100_0000 * (b[4] as int) + 0x1_0000 * (b[5] as int) + 0x100 * (b[6] as int) + (b[7] as int)
  }

  lemma LastTwo(b: Data, n: nat)
    requires n + 2 <= |b|
    ensures FromBE(b[..n + 2]) == 0x1_0000 * FromBE(b[..n]) + 0x100 * (b[n] as int) + (b[n + 1] as int)
  {
    assert b[..n + 2][..n + 1] == b[..n + 1] && b[..n + 1][..n] == b[..n];
    assert FromBE(b[..n + 1]) == 0x100 * FromBE(b[..n]) + (b[n] as int);
  }

  lemma EightBytesRead(b: Data)
    requires |b| == 8
    ensures FromBE(b) == EightBytes(b)
  {
    assert b[..8] == b && b[..0] == [];
    LastTwo(b, 0);
    LastTwo(b, 2);
    LastTwo(b, 4);
    LastTwo(b, 6);
  }

  /** The bytes of a frame: the number, high byte first, the payload, and the HMAC of both under the
      key. */
  lemma FrameBytes(mac: Mac, psk: Data, sequence: nat, payload: Data)
    requires sequence < SEQUENCE_LIMIT
    ensures var r := EncodePacket(mac, psk, sequence, payload);
            && r.Ok? && |r.value| == 8 + |payload| + 32
            && r.value[8..8 + |payload|] == payload
            && EightBytes(r.value[..8]) == sequence
            && r.value[8 + |payload|..] == mac(psk, r.value[..8 + |payload|])
  {
    SequenceRange();
    FromToBE(sequence, SEQUENCE_SIZE);
    var data := EncodePacket(mac, psk, sequence, payload).value;
    assert data[..8] == ToBE(sequence, SEQUENCE_SIZE);
    EightBytesRead(data[..8]);
    assert data[..8 + |payload|] == ToBE(sequence, SEQUENCE_SIZE) + payload;
  }

  /** Why bytes are refused, and when they are not: too few of them; a tag that is not the HMAC of
      all bytes before it; a number that is not above the last one, in this order. */
  lemma RefusedExactly(mac: Mac, psk: Data, data: Data, last: Option<nat>)
    ensures var r := DecodePacket(mac, psk, data, last);
            var authentic := |data| >= 40 && mac(psk, data[..|data| - 32]) == data[|data| - 32..];
            && (r == Err(FramingError) <==> |data| < 40)
            && (r == Err(AuthenticationError) <==> |data| >= 40 && !authentic)
            && (r == Err(SequenceError) <==> authentic && last.Some? && EightBytes(data[..8]) <= last.value)
            && (r.Ok? ==> r.value == (EightBytes(data[..8]), data[8..|data| - 32]))
  {
    if |data| >= 40 {
      EightBytesRead(data[..8]);
      ToFromBE(data[..8]);
      assert data[..|data| - 32] == data[..8] + data[8..|data| - 32];
    }
  }

  /** A frame packed under one key is accepted under another exactly when the two tags agree and its
      number is new. */
  lemma OtherKeyExactly(mac: Mac, psk: Data, other: Data, sequence: nat, payload: Data, last: Option<nat>)
    requires sequence < SEQUENCE_LIMIT
    ensures var data := EncodePacket(mac, other, sequence, payload).value;
            var signed := data[..8 + |payload|];
            DecodePacket(mac, psk, data, last).Ok? <==>
            mac(psk, signed) == mac(other, signed) && (last.Some? ==> last.value < sequence)
  {
    FrameBytes(mac, other, sequence, payload);
    RefusedExactly(mac, psk, EncodePacket(mac, other, sequence, payload).value, last);
  }

  /** A frame changed in number or payload but not in its tag is accepted exactly when the HMACs
      collide. */
  lemma TamperedExactly(mac: Mac, psk: Data, sequence: nat, payload: Data, signed: Data)
    requires sequence < SEQUENCE_LIMIT && |signed| >= 8
    ensures var frame := EncodePacket(mac, psk, sequence, payload).value;
            DecodePacket(mac, psk, signed + frame[8 + |payload|..], None).Ok? <==>
            mac(psk, signed) == mac(psk, frame[..8 + |payload|])
  {
    FrameBytes(mac, psk, sequence, payload);
    var frame := EncodePacket(mac, psk, sequence, payload).value;
    var data := signed + frame[8 + |payload|..];
    assert data[..|data| - 32] == signed && data[|data| - 32..] == frame[8 + |payload|..];
    RefusedExactly(mac, psk, data, None);
  }

  // ---------- A session over an unreliable channel ----------

  /** One endpoint's numbers: what it sent last, what it accepted last. */
  datatype Endpoint = Endpoint(sent: nat, received: nat)

  function Pack(mac: Mac, psk: Data, e: Endpoint, msg: Data): (Endpoint, Result<Data>)
  {
    (e.(sent := e.sent + 1), EncodePacket(mac, psk, e.sent + 1, msg))
  }

  function Unpack(mac: Mac, psk: Data, e: Endpoint, data: Data): (Endpoint, Option<Data>)
  {
    match DecodePacket(mac, psk, data, Some(e.received))
    case Ok((sequence, payload)) => (e.(received := sequence), Some(payload))
    case Err(_) => (e, None)
  }

  /** The frames a new endpoint produces for these messages, in order. */
  function PackAll(mac: Mac, psk: Data, e: Endpoint, msgs: seq<Data>): seq<Result<Data>>
    decreases |msgs|
  {
    if msgs == [] then []
    else
      var (e', frame) := Pack(mac, psk, e, msgs[0]);
      [frame] + PackAll(mac, psk, e', msgs[1..])
  }

  lemma {:induction false} PackAllFrames(mac: Mac, psk: Data, e: Endpoint, msgs: seq<Data>)
    ensures |PackAll(mac, psk, e, msgs)| == |msgs|
    ensures forall i | 0 <= i < |msgs| ::
              PackAll(mac, psk, e, msgs)[i] == EncodePacket(mac, psk, e.sent + 1 + i, msgs[i])
    decreases |msgs|
  {
    if msgs != [] { PackAllFrames(mac, psk, e.(sent := e.sent + 1), msgs[1..]); }
  }

  function UnpackAll(mac: Mac, psk: Data, e: Endpoint, arrivals: seq<Data>): seq<Option<Data>>
    decreases |arrivals|
  {
    if arrivals == [] then []
    else
      var (e', msg) := Unpack(mac, psk, e, arrivals[0]);
      [msg] + UnpackAll(mac, psk, e', arrivals[1..])
  }

  /** What the channel hands over: the frame of the peer's message i, the frame of the
      endpoint's own message i, or bytes that nobody holding the key produced. It may drop,
      repeat and reorder frames at will. Both directions use one key and no direction mark. */
  datatype Delivery = Packed(i: nat) | Reflected(i: nat) | Forged(data: Data)

  /** The messages the peer packs and those the endpoint itself packs. */
  datatype Traffic = Traffic(peer: seq<Data>, own: seq<Data>)
  {
    ghost predicate Valid() { |peer| < SEQUENCE_LIMIT && |own| < SEQUENCE_LIMIT }

    predicate Has(d: Delivery)
    {
      match d
      case Packed(i) => i < |peer|
      case Reflected(i) => i < |own|
      case Forged(_) => true
    }

    function Message(d: Delivery): Data
      requires Has(d) && !d.Forged?
    {
      if d.Packed? then peer[d.i] else own[d.i]
    }
  }

  ghost predicate Channel(mac: Mac, psk: Data, t: Traffic, ds: seq<Delivery>)
  {
    && t.Valid()
    && forall k | 0 <= k < |ds| :: t.Has(ds[k]) && (ds[k].Forged? ==> DecodePacket(mac, psk, ds[k].data, None).Err?)
  }

  function Arrival(mac: Mac, psk: Data, t: Traffic, d: Delivery): Data
    requires t.Valid() && t.Has(d)
  {
    if d.Forged? then d.data
    else
      var msgs := if d.Packed? then t.peer else t.own;
      PackAllFrames(mac, psk, Endpoint(0, 0), msgs);
      PackAll(mac, psk, Endpoint(0, 0), msgs)[d.i].value
  }

  /** Delivery k carries a number above those of all frames before it, in either direction. */
  predicate Newest(ds: seq<Delivery>, k: nat)
    requires k < |ds|
  {
    !ds[k].Forged? && forall j | 0 <= j < k :: !ds[j].Forged? ==> ds[j].i < ds[k].i
  }

  /** The highest number among the frames delivered so far. */
  ghost predicate Highest(ds: seq<Delivery>, k: nat, received: nat)
    requires k <= |ds|
  {
    && (forall j | 0 <= j < k :: !ds[j].Forged? ==> ds[j].i < received)
    && (received > 0 ==> exists j | 0 <= j < k :: !ds[j].Forged? && ds[j].i == received - 1)
  }

  /** The number of the newest frame moves on exactly when a newer one arrives. */
  lemma HighestNext(ds: seq<Delivery>, k: nat, received: nat)
    requires k < |ds| && Highest(ds, k, received)
    ensures Newest(ds, k) <==> !ds[k].Forged? && received <= ds[k].i
    ensures Highest(ds, k + 1, if Newest(ds, k) then ds[k].i + 1 else received)
  {
  }

  /** What a frame with number i + 1 does to an endpoint, whoever packed it. */
  lemma UnpackFrame(mac: Mac, psk: Data, t: Traffic, d: Delivery, e: Endpoint)
    requires t.Valid() && t.Has(d) && !d.Forged?
    ensures Unpack(mac, psk, e, Arrival(mac, psk, t, d))
         == if e.received <= d.i then (e.(received := d.i + 1), Some(t.Message(d))) else (e, None)
  {
    hide DecodePacket, EncodePacket;
    var msgs := if d.Packed? then t.peer else t.own;
    PackAllFrames(mac, psk, Endpoint(0, 0), msgs);
    DecodeUndoesEncode(mac, psk, d.i + 1, msgs[d.i], Some(e.received));
  }

  lemma UnpackNewest(mac: Mac, psk: Data, t: Traffic, ds: seq<Delivery>, k: nat, e: Endpoint)
    requires Channel(mac, psk, t, ds)
    requires k < |ds| && Highest(ds, k, e.received)
    ensures var (e', msg) := Unpack(mac, psk, e, Arrival(mac, psk, t, ds[k]));
            && msg == (if Newest(ds, k) then Some(t.Message(ds[k])) else None)
            && Highest(ds, k + 1, e'.received)
  {
    HighestNext(ds, k, e.received);
    if !ds[k].Forged? {
      hide Unpack, Arrival;
      UnpackFrame(mac, psk, t, ds[k], e);
    }
  }

  lemma {:induction false} UnpackFrom(mac: Mac, psk: Data, t: Traffic, ds: seq<Delivery>, n: nat, e: Endpoint)
    requires Channel(mac, psk, t, ds)
    requires n <= |ds| && Highest(ds, n, e.received)
    ensures var out := UnpackAll(mac, psk, e, Arrivals(mac, psk, t, ds[n..]));
            && |out| == |ds| - n
            && forall k | n <= k < |ds| :: out[k - n] == if Newest(ds, k) then Some(t.Message(ds[k])) else None
    decreases |ds| - n
  {
    hide Unpack, UnpackAll, Arrival, DecodePacket, Highest, Newest;
    if n == |ds| {
      assert Arrivals(mac, psk, t, ds[n..]) == [];
      NothingUnpacked(mac, psk, e);
    } else {
      UnpackNewest(mac, psk, t, ds, n, e);
      var (e', msg) := Unpack(mac, psk, e, Arrival(mac, psk, t, ds[n]));
      UnpackFrom(mac, psk, t, ds, n + 1, e');
      UnpackAllStep(mac, psk, t, ds, n, e);
    }
  }

  lemma NothingUnpacked(mac: Mac, psk: Data, e: Endpoint)
    ensures UnpackAll(mac, psk, e, []) == []
  {
  }

  lemma UnpackAllStep(mac: Mac, psk: Data, t: Traffic, ds: seq<Delivery>, n: nat, e: Endpoint)
    requires t.Valid() && (forall k | 0 <= k < |ds| :: t.Has(ds[k])) && n < |ds|
    ensures var (e', msg) := Unpack(mac, psk, e, Arrival(mac, psk, t, ds[n]));
            UnpackAll(mac, psk, e, Arrivals(mac, psk, t, ds[n..]))
            == [msg] + UnpackAll(mac, psk, e', Arrivals(mac, psk, t, ds[n + 1..]))
  {
    hide Unpack, Arrival;
    var rest := Arrivals(mac, psk, t, ds[n + 1..]);
    assert Arrivals(mac, psk, t, ds[n..]) == [Arrival(mac, psk, t, ds[n])] + rest;
    assert ([Arrival(mac, psk, t, ds[n])] + rest)[1..] == rest;
  }

  function Arrivals(mac: Mac, psk: Data, t: Traffic, ds: seq<Delivery>): seq<Data>
    requires t.Valid() && forall k | 0 <= k < |ds| :: t.Has(ds[k])
  {
    seq(|ds|, k requires 0 <= k < |ds| => Arrival(mac, psk, t, ds[k]))
  }

  /** Whatever the channel drops, repeats, reorders, reflects or forges: delivery k is accepted
      exactly when its number is above those of all frames before it, and then yields its
      message. This holds of a frame of the endpoint's own that comes back, too. */
  lemma AcceptsNewest(mac: Mac, psk: Data, t: Traffic, ds: seq<Delivery>)
    requires Channel(mac, psk, t, ds)
    ensures var out := UnpackAll(mac, psk, Endpoint(0, 0), Arrivals(mac, psk, t, ds));
            && |out| == |ds|
            && forall k | 0 <= k < |ds| :: out[k] == if Newest(ds, k) then Some(t.Message(ds[k])) else None
  {
    assert ds[0..] == ds;
    UnpackFrom(mac, psk, t, ds, 0, Endpoint(0, 0));
  }

  /** The accepted messages carry strictly increasing numbers. Without reflection they form an
      in-order, duplicate-free subsequence of those the peer packed. */
  lemma AcceptedInOrder(mac: Mac, psk: Data, t: Traffic, ds: seq<Delivery>, j: nat, k: nat)
    requires Channel(mac, psk, t, ds) && j < k < |ds|
    ensures var out := UnpackAll(mac, psk, Endpoint(0, 0), Arrivals(mac, psk, t, ds));
            && |out| == |ds|
            && (out[j].Some? && out[k].Some? ==>
                  && !ds[j].Forged? && !ds[k].Forged? && ds[j].i < ds[k].i
                  && out[j].value == t.Message(ds[j]) && out[k].value == t.Message(ds[k])
                  && (!ds[j].Reflected? && !ds[k].Reflected? ==>
                        ds[k].i < |t.peer| && out[j].value == t.peer[ds[j].i] && out[k].value == t.peer[ds[k].i]))
  {
    AcceptsNewest(mac, psk, t, ds);
  }

  /** Every accepted message is the peer's exactly when no reflected frame was the newest. */
  lemma OnlyPeerExactly(mac: Mac, psk: Data, t: Traffic, ds: seq<Delivery>)
    requires Channel(mac, psk, t, ds)
    ensures var out := UnpackAll(mac, psk, Endpoint(0, 0), Arrivals(mac, psk, t, ds));
            && |out| == |ds|
            && ((forall k | 0 <= k < |ds| && out[k].Some? :: ds[k].Packed?) <==>
                forall k | 0 <= k < |ds| && ds[k].Reflected? :: !Newest(ds, k))
  {
    AcceptsNewest(mac, psk, t, ds);
    var out := UnpackAll(mac, psk, Endpoint(0, 0), Arrivals(mac, psk, t, ds));
    if k :| 0 <= k < |ds| && ds[k].Reflected? && Newest(ds, k) {
      assert out[k].Some?;
    }
  }

  /** Over a loss-free FIFO channel every message is accepted. */
  lemma FifoDeliversAll(mac: Mac, psk: Data, msgs: seq<Data>)
    requires |msgs| < SEQUENCE_LIMIT
    ensures var ds := seq(|msgs|, k requires 0 <= k => Packed(k));
            UnpackAll(mac, psk, Endpoint(0, 0), Arrivals(mac, psk, Traffic(msgs, []), ds))
            == seq(|msgs|, k requires 0 <= k < |msgs| => Some(msgs[k]))
  {
    AcceptsNewest(mac, psk, Traffic(msgs, []), seq(|msgs|, k requires 0 <= k => Packed(k)));
  }

  // ---------- The endpoint object ----------

  class SecureWireProtocol {
    const mac: Mac
    var psk: Data
    var sendSequence: nat
    var lastReceivedSequence: nat

    ghost function View(): Endpoint
      reads this
    {
      Endpoint(sendSequence, lastReceivedSequence)
    }

    constructor (mac: Mac, psk: Data)
      ensures this.mac == mac && this.psk == psk && View() == Endpoint(0, 0)
    {
      this.mac, this.psk, sendSequence, lastReceivedSequence := mac, psk, 0, 0;
    }

    method PackMessage(msg: Data) returns (frame: Result<Data>)
      modifies this`sendSequence
      ensures (View(), frame) == Pack(mac, psk, old(View()), msg)
    {
      sendSequence := sendSequence + 1;
      frame := EncodePacket(mac, psk, sendSequence, msg);
    }

    method UnpackRaise(data: Data) returns (r: Result<Data>)
      modifies this`lastReceivedSequence
      ensures var d := DecodePacket(mac, psk, data, Some(old(lastReceivedSequence)));
              && (d.Ok? ==> r == Ok(d.value.1) && lastReceivedSequence == d.value.0 > old(lastReceivedSequence))
              && (d.Err? ==> r == Err(d.error) && lastReceivedSequence == old(lastReceivedSequence))
    {
      var d := DecodePacket(mac, psk, data, Some(lastReceivedSequence));
      if d.Err? { return Err(d.error); }
      lastReceivedSequence := d.value.0;
      return Ok(d.value.1);
    }

    method UnpackMessage(data: Data) returns (msg: Option<Data>)
      modifies this`lastReceivedSequence
      ensures (View(), msg) == Unpack(mac, psk, old(View()), data)
    {
      var r := UnpackRaise(data);
      return if r.Ok? then Some(r.value) else None;
    }
  }
}
