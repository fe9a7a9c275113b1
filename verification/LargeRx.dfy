/**
 Receiver of the SerialDevice large-transfer protocol
 (src/firmware/platformio_project/lib/SerialDevice/src/SerialDevice.cpp, timer.h).

 The begin, chunk and end handlers as functions of the receive context, the laws they keep
 over every sequence of messages and clock values, and the device object that refines them.
 */
module LargeRx {
  import opened Bytes
  import opened Options

  const CHUNK_TIMEOUT_MS: uint32 := 3000
  const CLOCK_RANGE := 0x1_0000_0000  // millis() is a 32-bit counter

  // ---------- Timer ----------

  function Elapsed(start: uint32, now: uint32): (r: uint32)
  {
    (now as int - start as int) % CLOCK_RANGE
  }

  predicate TimedOut(start: uint32, now: uint32) { Elapsed(start, now) >= CHUNK_TIMEOUT_MS }

  /** The start time that makes a timer look expired at `now`. */
  function Fired(now: uint32): (r: uint32)
    ensures TimedOut(r, now)
  {
    (now as int - CHUNK_TIMEOUT_MS as int) % CLOCK_RANGE
  }

  /** Against an unbounded clock, a timer started at t answers by the elapsed time modulo
      2^32: rollover between start and test does no harm, a wait of a whole range does. */
  lemma TimerAcrossRollover(t: nat, waited: nat)
    ensures TimedOut(t % CLOCK_RANGE, (t + waited) % CLOCK_RANGE) <==> waited % CLOCK_RANGE >= CHUNK_TIMEOUT_MS
  {
    ModDifference(t, waited);
  }

  lemma ModDifference(t: nat, waited: nat)
    ensures ((t + waited) % CLOCK_RANGE - t % CLOCK_RANGE) % CLOCK_RANGE == waited % CLOCK_RANGE
  {
    var m := CLOCK_RANGE;
    var a, b, c := t / m, waited / m, (t + waited) / m;
    assert (t + waited) % m - t % m == waited % m + m * (a + b - c);
    var k := a + b - c;
    assert -1 <= k <= 0;
  }

  // ---------- Receive context ----------

  datatype State = READY | RECVING

  /** One invocation of the user handler: the bound buffer, the announced size, the packet id. */
  datatype Call = Call(buff: Option<seq<byte>>, size: uint32, packId: byte)

  datatype Rx = Rx(state: State, start: uint32, buff: Option<seq<byte>>, buffSize: uint32,
                   expected: uint32, hasHandler: bool, calls: seq<Call>)
  {
    /** configLargeRx's caller owns buffSize bytes at buff. */
    ghost predicate Bound() { buff.Some? ==> |buff.value| == buffSize }

    ghost predicate Valid() {
      Bound() && (state.RECVING? ==> buff.Some? && expected <= buffSize)
    }
  }

  datatype Msg = Begin(size: uint32) | Chunk(offset: uint32, data: seq<byte>) | End(packId: byte)
  datatype Reply = BeginResp(ok: bool) | Ack(size: nat)

  /** memcpy(buff + offset, data, |data|) */
  function Write(buff: seq<byte>, offset: nat, data: seq<byte>): (r: seq<byte>)
    requires offset + |data| <= |buff|
    ensures |r| == |buff|
    ensures r[offset..offset + |data|] == data
    ensures r[..offset] == buff[..offset] && r[offset + |data|..] == buff[offset + |data|..]
  {
    buff[..offset] + data + buff[offset + |data|..]
  }

  lemma WriteSnoc(buff: seq<byte>, at: nat, data: seq<byte>, i: nat)
    requires i < |data| && at + |data| <= |buff|
    ensures Write(buff, at, data[..i + 1]) == Write(buff, at, data[..i])[at + i := data[i]]
  {
  }

  /** Every handler first abandons a transfer whose timer has run out. */
  function Expire(rx: Rx, now: uint32): Rx
  {
    if TimedOut(rx.start, now) then rx.(state := READY) else rx
  }

  function OnBegin(rx: Rx, now: uint32, size: uint32): (Rx, Option<Reply>)
  {
    var r := Expire(rx, now);
    if r.state != READY then (r, None)
    else if r.buff.None? || r.buffSize < size then (r.(expected := size), Some(BeginResp(false)))
    else (r.(expected := size, state := RECVING, start := now), Some(BeginResp(true)))
  }

  function OnChunk(rx: Rx, now: uint32, offset: uint32, data: seq<byte>): (Rx, Option<Reply>)
    requires rx.Bound()
  {
    var r := Expire(rx, now);
    if r.state != RECVING then (r, None)
    else if r.buff.None? then (r.(state := READY, start := Fired(now)), None)
    else
      var at := Min(offset, r.buffSize);
      var n := Min(|data|, r.buffSize - at);
      (r.(buff := Some(Write(r.buff.value, at, data[..n])), start := now), Some(Ack(n)))
  }

  function OnEnd(rx: Rx, now: uint32, packId: byte): (Rx, Option<Reply>)
  {
    var r := Expire(rx, now);
    if r.state != RECVING then (r, None)
    else
      var calls := if r.hasHandler then r.calls + [Call(r.buff, r.expected, packId)] else r.calls;
      (r.(calls := calls, state := READY, start := Fired(now)), None)
  }

  function Handle(rx: Rx, now: uint32, m: Msg): (Rx, Option<Reply>)
    requires rx.Bound()
  {
    match m
    case Begin(size) => OnBegin(rx, now, size)
    case Chunk(offset, data) => OnChunk(rx, now, offset, data)
    case End(packId) => OnEnd(rx, now, packId)
  }

  // ---------- Laws over every sequence of messages and clock values ----------

  lemma HandleKeepsValid(rx: Rx, now: uint32, m: Msg)
    requires rx.Bound()
    ensures var r := Handle(rx, now, m).0;
            && r.Bound() && (rx.Valid() ==> r.Valid()) && r.buff.Some? == rx.buff.Some?
            && r.buffSize == rx.buffSize && r.hasHandler == rx.hasHandler
  {
  }

  /** The messages a device handles, each with the millis() value at that time. */
  function Run(rx: Rx, log: seq<(uint32, Msg)>): (r: Rx)
    requires rx.Bound()
    ensures r.Bound() && (rx.Valid() ==> r.Valid())
    decreases |log|
  {
    if log == [] then rx
    else
      HandleKeepsValid(rx, log[0].0, log[0].1);
      Run(Handle(rx, log[0].0, log[0].1).0, log[1..])
  }

  function Busy(rx: Rx): nat { if rx.state.RECVING? then 1 else 0 }

  /** How many begins were accepted along a run. */
  function Accepted(rx: Rx, log: seq<(uint32, Msg)>): nat
    requires rx.Valid()
    decreases |log|
  {
    if log == [] then 0
    else
      HandleKeepsValid(rx, log[0].0, log[0].1);
      var (r, reply) := Handle(rx, log[0].0, log[0].1);
      (if reply == Some(BeginResp(true)) then 1 else 0) + Accepted(r, log[1..])
  }

  /** The user handler fires at most once per accepted begin, and a transfer still open
      is a begin whose handler has not fired. The buffer is never rebound or resized. */
  lemma {:induction false} HandlerAtMostOncePerBegin(rx: Rx, log: seq<(uint32, Msg)>)
    requires rx.Valid()
    ensures var r := Run(rx, log);
            && rx.calls <= r.calls
            && |r.calls| - |rx.calls| + Busy(r) <= Accepted(rx, log) + Busy(rx)
            && r.buffSize == rx.buffSize && r.buff.Some? == rx.buff.Some?
    decreases |log|
  {
    if log != [] {
      HandleKeepsValid(rx, log[0].0, log[0].1);
      HandlerAtMostOncePerBegin(Handle(rx, log[0].0, log[0].1).0, log[1..]);
    }
  }

  /** Every handler call of every run gets the bound buffer and a size inside it. */
  lemma {:induction false} HandlerSizeInBounds(rx: Rx, log: seq<(uint32, Msg)>)
    requires rx.Valid()
    ensures forall i | |rx.calls| <= i < |Run(rx, log).calls| ::
              var c := Run(rx, log).calls[i];
              c.buff.Some? && |c.buff.value| == rx.buffSize && c.size <= rx.buffSize
    decreases |log|
  {
    if log != [] {
      HandleKeepsValid(rx, log[0].0, log[0].1);
      var r := Handle(rx, log[0].0, log[0].1).0;
      HandlerSizeInBounds(r, log[1..]);
      HandlerAtMostOncePerBegin(r, log[1..]);
    }
  }

  // ---------- The receiver told from what it was sent ----------

  /** The transfer in progress after a log: the size it announced and when its sender was last
      heard. `room` is what the bound buffer holds, or None without one. */
  datatype Transfer = Transfer(size: uint32, heard: uint32)

  function Room(rx: Rx): Option<uint32> { if rx.buff.Some? then Some(rx.buffSize) else None }

  /** The transfer that was in progress and has been heard of less than the timeout before `now`. */
  function Alive(t: Option<Transfer>, now: uint32): Option<Transfer>
  {
    if t.Some? && (now - t.value.heard) % CLOCK_RANGE < 3000 then t else None
  }

  /** Told from the messages alone: a begin with room opens a transfer unless one is alive, a chunk
      keeps an alive one alive, an end closes it, and silence of 3000 ms does too. */
  function InProgress(first: Option<Transfer>, room: Option<uint32>, log: seq<(uint32, Msg)>): Option<Transfer>
  {
    if log == [] then first
    else
      var (now, m) := log[|log| - 1];
      var before := Alive(InProgress(first, room, log[..|log| - 1]), now);
      match m
      case Begin(size) =>
        if before.None? && room.Some? && size <= room.value then Some(Transfer(size, now)) else before
      case Chunk(_, _) => if before.Some? then Some(Transfer(before.value.size, now)) else None
      case End(_) => None
  }

  /** The byte at a position of the buffer: that of the last chunk over it that came to an alive
      transfer. */
  function ByteAt(first: Option<Transfer>, room: Option<uint32>, was: byte, log: seq<(uint32, Msg)>, at: nat): byte
  {
    if log == [] then was
    else
      var rest, (now, m) := log[..|log| - 1], log[|log| - 1];
      if m.Chunk? && Alive(InProgress(first, room, rest), now).Some? && m.offset <= at < m.offset + |m.data|
      then m.data[at - m.offset]
      else ByteAt(first, room, was, rest, at)
  }

  /** An end that came to an alive transfer: the size that transfer announced, the id, and how much
      of the log had been handled by then. */
  datatype Ending = Ending(size: uint32, packId: byte, upTo: nat)

  function Endings(first: Option<Transfer>, room: Option<uint32>, log: seq<(uint32, Msg)>): seq<Ending>
  {
    if log == [] then []
    else
      var rest, (now, m) := log[..|log| - 1], log[|log| - 1];
      var t := Alive(InProgress(first, room, rest), now);
      Endings(first, room, rest) + if m.End? && t.Some? then [Ending(t.value.size, m.packId, |rest|)] else []
  }

  /** What a message is answered with when this transfer is in progress. */
  function Answer(progress: Option<Transfer>, room: Option<uint32>, now: uint32, m: Msg): Option<Reply>
  {
    var t := Alive(progress, now);
    match m
    case Begin(size) => if t.Some? then None else Some(BeginResp(room.Some? && size <= room.value))
    case Chunk(offset, data) =>
      if t.None? || room.None? then None
      else Some(Ack(if offset >= room.value then 0 else Min(|data|, room.value - offset)))
    case End(_) => None
  }

  function Opened(rx: Rx): Option<Transfer>
  {
    if rx.state.RECVING? then Some(Transfer(rx.expected, rx.start)) else None
  }

  lemma {:induction false} RunSnoc(rx: Rx, log: seq<(uint32, Msg)>, now: uint32, m: Msg)
    requires rx.Bound()
    ensures Run(rx, log + [(now, m)]) == Handle(Run(rx, log), now, m).0
    decreases |log|
  {
    var longer := log + [(now, m)];
    if log == [] {
      assert longer[1..] == [];
    } else {
      assert longer[1..] == log[1..] + [(now, m)];
      HandleKeepsValid(rx, log[0].0, log[0].1);
      RunSnoc(Handle(rx, log[0].0, log[0].1).0, log[1..], now, m);
    }
  }

  /** The buffer's bytes after this much of the log. */
  ghost predicate BytesTold(rx: Rx, log: seq<(uint32, Msg)>, buff: Option<seq<byte>>)
    requires rx.Bound()
  {
    && buff.Some? == rx.buff.Some?
    && (buff.Some? ==>
          && |buff.value| == rx.buffSize
          && forall at | 0 <= at < rx.buffSize ::
               buff.value[at] == ByteAt(Opened(rx), Room(rx), rx.buff.value[at], log, at))
  }

  /** A call of the handler with the size and the id of an ending and the buffer as it was then. */
  ghost predicate CallTold(rx: Rx, log: seq<(uint32, Msg)>, e: Ending, c: Call)
    requires rx.Bound()
  {
    e.upTo < |log| && c.size == e.size && c.packId == e.packId && BytesTold(rx, log[..e.upTo], c.buff)
  }

  /** The endings of which a handler, if one is set, is told. */
  function Due(rx: Rx, log: seq<(uint32, Msg)>): seq<Ending>
  {
    if rx.hasHandler then Endings(Opened(rx), Room(rx), log) else []
  }

  /** The handler calls of a log: one for each ending. */
  ghost predicate CallsTold(rx: Rx, log: seq<(uint32, Msg)>, calls: seq<Call>)
    requires rx.Bound()
  {
    && |calls| == |rx.calls| + |Due(rx, log)| && rx.calls <= calls
    && forall i | 0 <= i < |Due(rx, log)| :: CallTold(rx, log, Due(rx, log)[i], calls[|rx.calls| + i])
  }

  lemma ToldSnoc(first: Option<Transfer>, room: Option<uint32>, log: seq<(uint32, Msg)>, now: uint32, m: Msg)
    ensures var longer, t := log + [(now, m)], Alive(InProgress(first, room, log), now);
            && Endings(first, room, longer) == Endings(first, room, log) +
               (if m.End? && t.Some? then [Ending(t.value.size, m.packId, |log|)] else [])
            && forall was: byte, at: nat ::
                 ByteAt(first, room, was, longer, at) ==
                 if m.Chunk? && t.Some? && m.offset <= at < m.offset + |m.data| then m.data[at - m.offset]
                 else ByteAt(first, room, was, log, at)
  {
    assert (log + [(now, m)])[..|log|] == log;
  }

  /** A chunk leaves its bytes in the buffer exactly when it comes to an open transfer in time. */
  lemma ChunkByte(r: Rx, now: uint32, offset: uint32, data: seq<byte>, i: nat)
    requires r.Valid() && r.buff.Some? && i < r.buffSize
    ensures var b := OnChunk(r, now, offset, data).0.buff;
            && b.Some? && |b.value| == r.buffSize
            && b.value[i] == if Alive(Opened(r), now).Some? && offset <= i < offset + |data| then data[i - offset]
                             else r.buff.value[i]
  {
    var at := Min(offset, r.buffSize);
    var n := Min(|data|, r.buffSize - at);
    var w := Write(r.buff.value, at, data[..n]);
    if at <= i < at + n {
      assert w[i] == w[at..at + n][i - at] == data[..n][i - at];
    }
  }

  lemma StepBytesTold(rx: Rx, log: seq<(uint32, Msg)>, r: Rx, now: uint32, m: Msg)
    requires rx.Valid() && r.Valid() && Opened(r) == InProgress(Opened(rx), Room(rx), log) && r.buffSize == rx.buffSize
    requires BytesTold(rx, log, r.buff)
    ensures BytesTold(rx, log + [(now, m)], Handle(r, now, m).0.buff)
  {
    hide ByteAt, InProgress, Endings, OnChunk;
    ToldSnoc(Opened(rx), Room(rx), log, now, m);
    HandleKeepsValid(r, now, m);
    if m.Chunk? && rx.buff.Some? {
      forall i | 0 <= i < rx.buffSize
        ensures Handle(r, now, m).0.buff.value[i] ==
                ByteAt(Opened(rx), Room(rx), rx.buff.value[i], log + [(now, m)], i)
      {
        ChunkByte(r, now, m.offset, m.data, i);
      }
    }
  }

  lemma StepCallsTold(rx: Rx, log: seq<(uint32, Msg)>, r: Rx, now: uint32, m: Msg)
    requires rx.Valid() && r.Valid() && Opened(r) == InProgress(Opened(rx), Room(rx), log)
    requires r.hasHandler == rx.hasHandler && BytesTold(rx, log, r.buff) && CallsTold(rx, log, r.calls)
    ensures CallsTold(rx, log + [(now, m)], Handle(r, now, m).0.calls)
  {
    hide BytesTold, ByteAt, InProgress, Endings;
    var longer, q := log + [(now, m)], Handle(r, now, m).0;
    ToldSnoc(Opened(rx), Room(rx), log, now, m);
    var before, ends := Due(rx, log), Due(rx, longer);
    forall i | 0 <= i < |ends|
      ensures |rx.calls| + i < |q.calls| && CallTold(rx, longer, ends[i], q.calls[|rx.calls| + i])
    {
      if i < |before| {
        assert CallTold(rx, log, before[i], r.calls[|rx.calls| + i]);
        assert longer[..before[i].upTo] == log[..before[i].upTo];
      } else {
        assert longer[..|log|] == log;
      }
    }
  }

  /** Whatever is sent and whenever: the transfer the receiver is in, every byte of its buffer and
      every call of its handler are those told from the messages and their times alone. */
  lemma {:induction false} ReceiverTold(rx: Rx, log: seq<(uint32, Msg)>)
    requires rx.Valid()
    ensures var r := Run(rx, log);
            && Opened(r) == InProgress(Opened(rx), Room(rx), log)
            && Room(r) == Room(rx) && r.buffSize == rx.buffSize && r.hasHandler == rx.hasHandler
            && BytesTold(rx, log, r.buff) && CallsTold(rx, log, r.calls)
    decreases |log|
  {
    if log != [] {
      hide BytesTold, CallsTold, ByteAt, Endings;
      var rest := log[..|log| - 1];
      var (now, m) := log[|log| - 1];
      assert log == rest + [(now, m)];
      ReceiverTold(rx, rest);
      RunSnoc(rx, rest, now, m);
      var r := Run(rx, rest);
      HandleKeepsValid(r, now, m);
      StepBytesTold(rx, rest, r, now, m);
      StepCallsTold(rx, rest, r, now, m);
    }
  }

  /** And so is every answer. A begin is left unanswered exactly while a transfer is in progress
      whose sender was heard of less than 3000 ms ago; otherwise it is answered by whether the
      buffer has room. A chunk is acknowledged exactly in such a transfer. */
  lemma AnswersTold(rx: Rx, log: seq<(uint32, Msg)>, now: uint32, m: Msg)
    requires rx.Valid()
    ensures Handle(Run(rx, log), now, m).1 == Answer(InProgress(Opened(rx), Room(rx), log), Room(rx), now, m)
  {
    hide InProgress, BytesTold, CallsTold, Run, Handle;
    ReceiverTold(rx, log);
    AnswerNow(Run(rx, log), now, m);
  }

  lemma AnswerNow(r: Rx, now: uint32, m: Msg)
    requires r.Valid()
    ensures Handle(r, now, m).1 == Answer(Opened(r), Room(r), now, m)
  {
  }

  /** In any state, Valid or not: a begin gets no reply exactly when a transfer is open and not timed
      out, and changes nothing then; otherwise the reply says whether there is room, and a positive
      one opens the transfer at that moment. */
  lemma BeginAnswered(rx: Rx, now: uint32, size: uint32)
    ensures var (r, reply) := OnBegin(rx, now, size);
            && (reply.None? <==> rx.state.RECVING? && !TimedOut(rx.start, now))
            && (reply.None? ==> r == rx)
            && (reply.Some? ==> reply.value == BeginResp(rx.buff.Some? && size <= rx.buffSize))
            && (reply.Some? ==> Opened(r) == if reply.value.ok then Some(Transfer(size, now)) else None)
            && (reply.Some? ==> r.expected == size)
  {
  }

  /** Whatever ends a transfer that is alive, its end packet or a chunk that finds no buffer, leaves
      the receiver ready and its timer as if it had just run out; no other message does. */
  lemma TransferOver(rx: Rx, now: uint32, m: Msg)
    requires rx.Bound() && rx.state.RECVING? && !TimedOut(rx.start, now)
    ensures var r := Handle(rx, now, m).0;
            var over := m.End? || (m.Chunk? && rx.buff.None?);
            && (r.state.READY? <==> over) && (over ==> Elapsed(r.start, now) == 3000)
            && (!over ==> r.start == if m.Chunk? then now else rx.start)
  {
  }

  /** A chunk, whatever its offset and size, changes no byte outside [offset, offset + size)
      and none outside the buffer. */
  lemma ChunkWritesInside(rx: Rx, now: uint32, offset: uint32, data: seq<byte>)
    requires rx.Bound() && rx.buff.Some?
    ensures var b := OnChunk(rx, now, offset, data).0.buff;
            && b.Some? && |b.value| == |rx.buff.value|
            && forall i | 0 <= i < |b.value| && !(offset <= i < offset + |data|) :: b.value[i] == rx.buff.value[i]
  {
    var r := OnChunk(rx, now, offset, data).0;
    var at := Min(offset, rx.buffSize);
    var n := Min(|data|, rx.buffSize - at);
    var w := Write(rx.buff.value, at, data[..n]);
    forall i | 0 <= i < |w| && !(at <= i < at + n)
      ensures w[i] == rx.buff.value[i]
    {
    }
  }

  /** Receiving a chunk again, at any later time, changes nothing in the buffer. */
  lemma ChunkIdempotent(rx: Rx, t1: uint32, t2: uint32, offset: uint32, data: seq<byte>)
    requires rx.Valid()
    ensures var once := OnChunk(rx, t1, offset, data).0;
            once.Bound() && OnChunk(once, t2, offset, data).0.buff == once.buff
  {
    if rx.buff.Some? {
      var at := Min(offset, rx.buffSize);
      var n := Min(|data|, rx.buffSize - at);
      var w := Write(rx.buff.value, at, data[..n]);
      assert Write(w, at, data[..n]) == w;
    }
  }

  // ---------- Rebinding the buffer ----------

  /** configLargeRx, with the maxSize bytes at the new buffer, or none. It leaves a transfer
      in progress as it is. */
  function Rebind(rx: Rx, buff: Option<seq<byte>>, maxSize: uint32): (r: Rx)
    requires buff.Some? ==> |buff.value| == maxSize
    ensures r.Bound()
  {
    rx.(buff := buff, buffSize := maxSize)
  }

  /** A rebind keeps the invariant the handlers rely on exactly when no transfer is in progress
      or the new buffer has room for the one that is. */
  lemma RebindKeepsExactly(rx: Rx, buff: Option<seq<byte>>, maxSize: uint32)
    requires rx.Valid() && (buff.Some? ==> |buff.value| == maxSize)
    ensures Rebind(rx, buff, maxSize).Valid() <==> rx.state.READY? || (buff.Some? && rx.expected <= maxSize)
  {
  }

  /** The handler is called with more than the bound buffer holds. */
  ghost predicate Overruns(c: Call) { c.buff.None? || |c.buff.value| < c.size }

  /** An end packet is handled before the transfer times out: only begins, which a receiver in a
      transfer ignores, and chunks, if there is a buffer to take them, come in time before it. */
  predicate EndsInTime(start: uint32, bound: bool, log: seq<(uint32, Msg)>)
    decreases |log|
  {
    log != [] && !TimedOut(start, log[0].0) &&
    match log[0].1
    case Begin(_) => EndsInTime(start, bound, log[1..])
    case Chunk(_, _) => bound && EndsInTime(log[0].0, bound, log[1..])
    case End(_) => true
  }

  /** Some handler call made from rx on along the log goes beyond the bound buffer. */
  ghost predicate OverrunIn(rx: Rx, log: seq<(uint32, Msg)>)
    requires rx.Bound()
  {
    exists i :: |rx.calls| <= i < |Run(rx, log).calls| && Overruns(Run(rx, log).calls[i])
  }

  lemma {:induction false} RunExtendsCalls(rx: Rx, log: seq<(uint32, Msg)>)
    requires rx.Bound()
    ensures rx.calls <= Run(rx, log).calls
    decreases |log|
  {
    if log != [] {
      HandleKeepsValid(rx, log[0].0, log[0].1);
      RunExtendsCalls(Handle(rx, log[0].0, log[0].1).0, log[1..]);
    }
  }

  lemma ValidNeverOverruns(rx: Rx, log: seq<(uint32, Msg)>)
    requires rx.Valid()
    ensures !OverrunIn(rx, log)
  {
    HandlerSizeInBounds(rx, log);
  }

  lemma BrokenStep(rx: Rx, now: uint32, m: Msg)
    requires rx.Bound() && !rx.Valid() && !(m.End? && !TimedOut(rx.start, now) && rx.hasHandler)
    ensures var r := Handle(rx, now, m).0;
            && r.calls == rx.calls
            && (TimedOut(rx.start, now) || m.End? || (m.Chunk? && rx.buff.None?) ==> r.Valid())
            && (!TimedOut(rx.start, now) && m.Begin? ==> r == rx)
            && (!TimedOut(rx.start, now) && m.Chunk? && rx.buff.Some? ==> !r.Valid() && r.start == now)
  {
  }

  /** From a broken state, exactly an end in time overruns; anything else that ends the transfer
      heals the state. */
  lemma {:induction false} OverrunsExactly(rx: Rx, log: seq<(uint32, Msg)>)
    requires rx.Bound()
    ensures OverrunIn(rx, log) <==> rx.hasHandler && !rx.Valid() && EndsInTime(rx.start, rx.buff.Some?, log)
    decreases |log|
  {
    if rx.Valid() {
      ValidNeverOverruns(rx, log);
    } else if log != [] {
      var (now, m) := log[0];
      HandleKeepsValid(rx, now, m);
      var r := Handle(rx, now, m).0;
      RunExtendsCalls(r, log[1..]);
      if m.End? && !TimedOut(rx.start, now) && rx.hasHandler {
        assert Overruns(r.calls[|rx.calls|]) && r.calls[|rx.calls|] == Run(rx, log).calls[|rx.calls|];
      } else {
        BrokenStep(rx, now, m);
        OverrunsExactly(r, log[1..]);
        assert Run(rx, log) == Run(r, log[1..]);
        assert OverrunIn(rx, log) <==> OverrunIn(r, log[1..]);
      }
    }
  }

  /** After a rebind in any reachable state and whatever messages come then: the handler is made to
      run beyond the bound buffer exactly when one is set, the rebind broke the invariant, and an
      end packet is handled before the transfer times out. A chunk in between heals a rebind to
      no buffer; it does not heal one to a buffer that is too small. */
  lemma RebindOverrunsExactly(rx: Rx, log: seq<(uint32, Msg)>, buff: Option<seq<byte>>, maxSize: uint32,
                              later: seq<(uint32, Msg)>)
    requires rx.Valid() && (buff.Some? ==> |buff.value| == maxSize)
    ensures var r := Run(rx, log);
            OverrunIn(Rebind(r, buff, maxSize), later) <==>
            && r.hasHandler && r.state.RECVING? && (buff.None? || maxSize < r.expected)
            && EndsInTime(r.start, buff.Some?, later)
  {
    OverrunsExactly(Rebind(Run(rx, log), buff, maxSize), later);
  }

  /** Such a run: a begin is accepted, the buffer is replaced by one without room, and an end in
      time hands the announced size to the handler with the smaller buffer. */
  lemma RebindOverruns(rx: Rx, t: uint32, size: uint32, smaller: seq<byte>, now: uint32, packId: byte)
    requires rx.Valid() && rx.state.READY? && rx.buff.Some? && |smaller| < size <= rx.buffSize
    requires rx.hasHandler && !TimedOut(t, now)
    ensures var before := Rebind(Run(rx, [(t, Begin(size))]), Some(smaller), |smaller|);
            var c := Call(Some(smaller), size, packId);
            OnEnd(before, now, packId).0.calls == rx.calls + [c] && Overruns(c)
  {
    var log := [(t, Begin(size))];
    assert log[1..] == [];
    HandleKeepsValid(rx, t, Begin(size));
    assert Run(rx, log) == Handle(rx, t, Begin(size)).0;
  }

  // ---------- Bytes on the wire ----------

  /** How many bytes the chunk handler copies: bytesRead - 4 in 32-bit arithmetic, clamped. */
  function CopyCount(bytesRead: nat, room: uint32): (n: nat)
    requires bytesRead <= 254
    ensures n <= room
  {
    Min((bytesRead - 4) % CLOCK_RANGE, room)
  }

  /** The copy stays inside the received payload exactly when the packet carries the four
      offset bytes; a shorter one makes the subtraction wrap. */
  lemma ChunkReadsPayloadExactly(bytesRead: nat)
    requires bytesRead <= 254
    ensures (forall room: uint32 :: 4 + CopyCount(bytesRead, room) <= bytesRead) <==> bytesRead >= 4
  {
    if bytesRead < 4 {
      assert 4 + CopyCount(bytesRead, 0) > bytesRead;
    }
  }

  // ---------- The device object ----------

  class Timer {
    var duration: uint32
    var startTime: uint32

    constructor (durationMs: uint32)
      ensures duration == durationMs && startTime == 0
    {
      duration, startTime := durationMs, 0;
    }

    method Start(now: uint32)
      modifies this`startTime
      ensures startTime == now
    {
      startTime := now;
    }

    predicate HasTimedOut(now: uint32)
      reads this
    {
      Elapsed(startTime, now) >= duration
    }

    method Fire(now: uint32)
      modifies this`startTime
      ensures HasTimedOut(now) && Elapsed(startTime, now) == duration
    {
      startTime := (now as int - duration as int) % CLOCK_RANGE;
    }

    /** True at most once per period: a true answer restarts the timer. */
    method Expired(now: uint32) returns (r: bool)
      modifies this`startTime
      ensures r == old(HasTimedOut(now))
      ensures startTime == if r then now else old(startTime)
      ensures duration > 0 ==> !HasTimedOut(now)
    {
      r := HasTimedOut(now);
      if r { Start(now); }
    }
  }

  class Receiver {
    const timer: Timer
    var state: State
    var rxBuff: array?<byte>
    var rxBuffSize: uint32
    var expectedSize: uint32
    var hasHandler: bool
    var calls: seq<Call>

    ghost predicate Valid()
      reads this, timer, rxBuff
    {
      timer.duration == CHUNK_TIMEOUT_MS && (rxBuff != null ==> rxBuffSize <= rxBuff.Length)
    }

    ghost function View(): (r: Rx)
      requires Valid()
      reads this, timer, rxBuff
      ensures r.Bound()
    {
      Rx(state, timer.startTime, if rxBuff == null then None else Some(rxBuff[..rxBuffSize]), rxBuffSize,
         expectedSize, hasHandler, calls)
    }

    constructor ()
      ensures Valid() && fresh(timer) && View().Valid() && state == READY && rxBuff == null && calls == []
    {
      timer := new Timer(CHUNK_TIMEOUT_MS);
      state, rxBuff, rxBuffSize, expectedSize, hasHandler, calls := READY, null, 0, 0, false, [];
    }

    /** The caller owns at least maxSize bytes at buffer, or unbinds it. */
    method ConfigLargeRx(buffer: array?<byte>, maxSize: uint32)
      requires Valid() && (buffer != null ==> maxSize <= buffer.Length)
      modifies this`rxBuff, this`rxBuffSize
      ensures Valid() && rxBuff == buffer
      ensures View() == Rebind(old(View()), if buffer == null then None else Some(buffer[..maxSize]), maxSize)
    {
      rxBuff, rxBuffSize := buffer, maxSize;
    }

    method HandleLargeTxBegin(now: uint32, size: uint32) returns (reply: Option<Reply>)
      requires Valid()
      modifies this`state, this`expectedSize, timer`startTime
      ensures Valid() && (View(), reply) == OnBegin(old(View()), now, size)
      ensures reply.None? <==> old(state) == RECVING && !old(timer.HasTimedOut(now))
      ensures reply.Some? ==> reply.value == BeginResp(rxBuff != null && size <= rxBuffSize)
    {
      if timer.HasTimedOut(now) { state := READY; }
      if state != READY { return None; }
      expectedSize := size;
      if rxBuff == null || rxBuffSize < size {
        return Some(BeginResp(false));
      }
      state := RECVING;
      timer.Start(now);
      return Some(BeginResp(true));
    }

    method HandleLargeTxChunk(now: uint32, offset: uint32, data: seq<byte>) returns (reply: Option<Reply>)
      requires Valid()
      modifies this`state, timer`startTime, rxBuff
      ensures Valid() && (View(), reply) == OnChunk(old(View()), now, offset, data)
      ensures rxBuff != null ==> rxBuff[rxBuffSize..] == old(rxBuff[rxBuffSize..])
    {
      if timer.HasTimedOut(now) { state := READY; }
      if state != RECVING { return None; }
      if rxBuff == null {
        timer.Fire(now);
        state := READY;
        return None;
      }
      var at := Min(offset, rxBuffSize);
      var n := Min(|data|, rxBuffSize - at);
      CopyIn(at, data[..n]);
      timer.Start(now);
      return Some(Ack(n));
    }

    /** memcpy(rxBuff + at, data, |data|) */
    method CopyIn(at: nat, data: seq<byte>)
      requires Valid() && rxBuff != null && at + |data| <= rxBuffSize
      modifies rxBuff
      ensures rxBuff[..rxBuffSize] == Write(old(rxBuff[..rxBuffSize]), at, data)
      ensures rxBuff[rxBuffSize..] == old(rxBuff[rxBuffSize..])
    {
      var i := 0;
      while i < |data|
        invariant 0 <= i <= |data|
        invariant rxBuff[..rxBuffSize] == Write(old(rxBuff[..rxBuffSize]), at, data[..i])
        invariant rxBuff[rxBuffSize..] == old(rxBuff[rxBuffSize..])
        modifies rxBuff
      {
        ghost var before := rxBuff[..rxBuffSize];
        rxBuff[at + i] := data[i];
        assert rxBuff[..rxBuffSize] == before[at + i := data[i]];
        WriteSnoc(old(rxBuff[..rxBuffSize]), at, data, i);
        i := i + 1;
      }
      assert data[..i] == data;
    }

    method HandleLargeTxEnd(now: uint32, packId: byte)
      requires Valid()
      modifies this`state, this`calls, timer`startTime
      ensures Valid() && (View(), None) == OnEnd(old(View()), now, packId)
    {
      if timer.HasTimedOut(now) { state := READY; }
      if state != RECVING { return; }
      if hasHandler {
        calls := calls + [Call(if rxBuff == null then None else Some(rxBuff[..rxBuffSize]), expectedSize, packId)];
      }
      timer.Fire(now);
      state := READY;
    }
  }
}
