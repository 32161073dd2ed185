/** Whole runs: what the sender writes, cut into any network reads, is what the receiver is handed. */
module ChunkSync {
  import opened Bytes
  import opened ChunkParser
  import opened ChunkSender
  import opened ChunkRoundTrip

  /** The parser is between messages. */
  predicate AtBoundary(rx: Parser) {
    rx.phase == Fmt && rx.flag == Unset && rx.header == NO_HEADER && rx.buffer == [] && rx.mine == {}
  }

  /** Both caches hold the same header for every chunk stream. */
  predicate SameHeaders(tx: Sender, rx: Parser) {
    && tx.headersOut.Keys == rx.cache.Keys
    && (forall c | c in rx.cache :: rx.cache[c].header == tx.headersOut[c] && rx.cache[c].flag != Unset)
  }

  predicate Sync(tx: Sender, rx: Parser) {
    AtBoundary(rx) && SameHeaders(tx, rx) && rx.farChunkSize == tx.nearChunkSize > 0
  }

  predicate IsControl(h: Header) {
    h.streamID == 0 && h.typeID in {0x01, 0x02, 0x03, 0x05}
  }

  /** The receiver can process the message after the ones it has seen: a control message holds its four
      octets, and otherwise the stream handler returns no error. */
  predicate Processable(env: Env, seen: seq<Message>, m: Message) {
    && m.header.streamID in env.streams(seen)
    && (if IsControl(m.header) then |m.payload| >= 4 else env.accepts(seen, m))
  }

  predicate Sendable(env: Env, tx: Sender, rx: Parser, p: Packet) {
    && Allowed(p.csid)
    && 0 < |p.payload| < TWO24
    && p.timestamp < TWO32 && p.streamID < TWO32
    && Processable(env, rx.delivered, Expected(tx, rx, p))
  }

  function ControlValue(p: Packet): nat
    requires |p.payload| >= 4
  {
    PayloadValue(p.payload)
  }

  function PayloadValue(p: seq<byte>): nat
    requires |p| >= 4
  {
    Value4(p[0], p[1], p[2], p[3])
  }

  /** A message sent as such leaves both ends in step unless it is a control message that changes
      the receiver only. */
  predicate Harmless(tx: Sender, p: Packet)
    requires IsControl(HeaderOf(tx, p)) ==> |p.payload| >= 4
  {
    var h := HeaderOf(tx, p);
    && (IsChunkSize(h) ==> ControlValue(p) % 0x8000_0000 == tx.nearChunkSize)
    && (IsAbort(h) ==> ControlValue(p) !in AfterSend(tx, p).headersOut)
  }

  /** The timestamp flag of the delivered message. */
  function ExpectedFlag(tx: Sender, rx: Parser, p: Packet): Flag {
    var f := Compression(tx, p);
    if f == 0 then Absolute else if f < 3 then Delta else if p.csid in rx.cache then rx.cache[p.csid].flag else Unset
  }

  function Expected(tx: Sender, rx: Parser, p: Packet): Message {
    Message(p.csid, ExpectedFlag(tx, rx, p), HeaderOf(tx, p), p.payload)
  }

  /** The compression the sender picks is one the receiver can undo. */
  lemma {:induction false} CompressionConveys(tx: Sender, rx: Parser, p: Packet)
    requires Sync(tx, rx) && |p.payload| < TWO32
    ensures var f := Compression(tx, p);
            && Conveys(f, Bind(Opened(rx, f), p.csid).header, HeaderOf(tx, p))
            && Bind(Opened(rx, f), p.csid).flag == ExpectedFlag(tx, rx, p) != Unset
  {
  }

  /** On a chunk stream in use, the sender picks the shortest header that still conveys the message. */
  lemma {:induction false} CompressionBest(tx: Sender, p: Packet, f: byte)
    requires |p.payload| < TWO32 && f <= 3
    ensures if p.csid in tx.headersOut
            then Conveys(f, tx.headersOut[p.csid], HeaderOf(tx, p)) <==> f <= Compression(tx, p)
            else Compression(tx, p) == 0
  {
  }

  /** The receiver when the whole message is in its buffer. */
  function Received(tx: Sender, rx: Parser, p: Packet): Parser {
    Gathered(rx, Compression(tx, p), p.csid, HeaderOf(tx, p), p.payload)
  }

  function AfterReceive(env: Env, tx: Sender, rx: Parser, p: Packet): Outcome {
    Deliver(env, Received(tx, rx, p))
  }

  lemma {:induction false} ReceivedShape(tx: Sender, rx: Parser, p: Packet)
    requires Sync(tx, rx) && |p.payload| < TWO32
    ensures var r := Received(tx, rx, p);
            && Current(r) == Expected(tx, rx, p) && r.flag != Unset
            && r.mine == {p.csid} && r.cache == rx.cache - {p.csid}
            && r.farChunkSize == rx.farChunkSize && r.farAckWindow == rx.farAckWindow && r.delivered == rx.delivered
  {
    CompressionConveys(tx, rx, p);
    assert Received(tx, rx, p).buffer == p.payload;
  }

  /** A complete message is delivered exactly if its stream is registered and it can be processed. */
  lemma {:induction false} DeliversExactly(env: Env, r: Parser)
    ensures Deliver(env, r).Going? <==> Processable(env, r.delivered, Current(r))
    ensures Deliver(env, r).Going? ==> Deliver(env, r).state.delivered == r.delivered + [Current(r)]
  {
  }

  /** Header octets never fail. A payload octet fails for a chunk size of 0, for a message already longer
      than its header says, and when the message it completes or finds complete cannot be processed. */
  lemma {:induction false} FailsExactly(env: Env, s: Parser, b: byte)
    ensures s.phase != Data ==> Step(env, s, b).Going?
    ensures s.phase == Data ==>
              var o := Step(env, s, b);
              var whole := if |s.buffer| < s.header.length then s.buffer + [b] else s.buffer;
              && (o == Failed(s, DivideByZero) <==> s.farChunkSize == 0)
              && (o == Failed(s, NegativeSlice) <==> s.farChunkSize > 0 && |s.buffer| > s.header.length)
              && (s.farChunkSize > 0 && |s.buffer| <= s.header.length ==>
                    (o.Failed? <==> |whole| == s.header.length
                                    && !Processable(env, s.delivered, Current(s).(payload := whole))))
  {
    hide FmtStep, HeaderStep, Deliver, Processable;
    if s.phase == Data && s.farChunkSize > 0 && |s.buffer| <= s.header.length {
      DeliversExactly(env, s);
      DeliversExactly(env, Store(s, [b]));
      DeliveryErrors(env, s);
      DeliveryErrors(env, Store(s, [b]));
    }
  }

  lemma {:induction false} DeliveryErrors(env: Env, r: Parser)
    ensures Deliver(env, r).Failed? ==> Deliver(env, r).error !in {DivideByZero, NegativeSlice}
  {
  }

  /** Receiving succeeds and hands over exactly the packet. */
  lemma {:induction false} Delivers(env: Env, tx: Sender, rx: Parser, p: Packet)
    requires Sync(tx, rx) && Sendable(env, tx, rx, p)
    ensures AfterReceive(env, tx, rx, p).Going?
    ensures AfterReceive(env, tx, rx, p).state.delivered == rx.delivered + [Expected(tx, rx, p)]
  {
    hide Received, Deliver, Processable, Expected, Sync;
    ReceivedShape(tx, rx, p);
    DeliversExactly(env, Received(tx, rx, p));
  }

  predicate IsAbort(h: Header) {
    h.streamID == 0 && h.typeID == 0x02
  }

  predicate IsChunkSize(h: Header) {
    h.streamID == 0 && h.typeID == 0x01
  }

  predicate IsWindow(h: Header) {
    h.streamID == 0 && h.typeID == 0x05
  }

  /** Only an announcement on the control stream changes the acknowledgement window. */
  lemma {:induction false} WindowAfter(env: Env, r: Parser)
    requires Deliver(env, r).Going?
    ensures IsWindow(r.header) ==> |r.buffer| >= 4
    ensures Deliver(env, r).state.farAckWindow == if IsWindow(r.header) then PayloadValue(r.buffer) else r.farAckWindow
  {
  }

  /** What processing and finishing a gathered message changes. */
  lemma {:induction false} DeliverEffect(env: Env, r: Parser)
    requires r.mine == {r.csid} && Deliver(env, r).Going? && (IsControl(r.header) ==> |r.buffer| >= 4)
    ensures var s := Deliver(env, r).state;
            && AtBoundary(s)
            && s.cache == (if IsAbort(r.header)
                           then r.cache[r.csid := Cached(r.header, r.flag)] - {PayloadValue(r.buffer)}
                           else r.cache[r.csid := Cached(r.header, r.flag)])
            && s.farChunkSize == if IsChunkSize(r.header) then PayloadValue(r.buffer) % 0x8000_0000 else r.farChunkSize
  {
  }

  lemma {:induction false} ControlLength(env: Env, tx: Sender, rx: Parser, p: Packet)
    requires Sendable(env, tx, rx, p)
    ensures |p.payload| < TWO24 && (IsControl(HeaderOf(tx, p)) ==> |p.payload| >= 4)
  {
    hide Allowed, ExpectedFlag, HeaderOf;
  }

  /** The receiver afterwards: the message's entry is frozen, unless an abort drops one. */
  lemma {:induction false} CacheAfter(env: Env, tx: Sender, rx: Parser, p: Packet)
    requires Sync(tx, rx) && Sendable(env, tx, rx, p)
    ensures var h := HeaderOf(tx, p);
            var o := AfterReceive(env, tx, rx, p);
            o.Going? && AtBoundary(o.state)
            && o.state.cache == (if IsAbort(h)
                                 then rx.cache[p.csid := Cached(h, ExpectedFlag(tx, rx, p))] - {ControlValue(p)}
                                 else rx.cache[p.csid := Cached(h, ExpectedFlag(tx, rx, p))])
            && o.state.farChunkSize == (if IsChunkSize(h) then ControlValue(p) % 0x8000_0000 else rx.farChunkSize)
            && o.state.farAckWindow == if IsWindow(h) then ControlValue(p) else rx.farAckWindow
  {
    hide Received, HeaderOf, ExpectedFlag, Deliver, Sendable, Sync, SameHeaders;
    ControlLength(env, tx, rx, p);
    Delivers(env, tx, rx, p);
    ReceivedShape(tx, rx, p);
    DeliverEffect(env, Received(tx, rx, p));
    WindowAfter(env, Received(tx, rx, p));
  }

  /** Apart from an abort, the receiver's cache follows the sender's. */
  lemma {:induction false} HeadersAfter(env: Env, tx: Sender, rx: Parser, p: Packet)
    requires Sync(tx, rx) && Sendable(env, tx, rx, p)
    ensures var h := HeaderOf(tx, p);
            var o := AfterReceive(env, tx, rx, p);
            o.Going? && AtBoundary(o.state)
            && (SameHeaders(AfterSend(tx, p), o.state)
                <==> (IsAbort(h) ==> ControlValue(p) !in AfterSend(tx, p).headersOut))
  {
    CacheAfter(env, tx, rx, p);
    CompressionConveys(tx, rx, p);
    hide AfterReceive, HeaderOf, ExpectedFlag;
    var h := HeaderOf(tx, p);
    var out := AfterSend(tx, p).headersOut;
    var cache := AfterReceive(env, tx, rx, p).state.cache;
    var gone := if IsAbort(h) then {ControlValue(p)} else {};
    assert cache.Keys == out.Keys - gone;
    if IsAbort(h) && ControlValue(p) in out {
      assert ControlValue(p) !in cache;
    }
  }

  /** One message keeps both ends in step if and only if it is harmless. */
  lemma {:induction false} SyncKept(env: Env, tx: Sender, rx: Parser, p: Packet)
    requires Sync(tx, rx) && Sendable(env, tx, rx, p)
    ensures AfterReceive(env, tx, rx, p).Going?
    ensures Sync(AfterSend(tx, p), AfterReceive(env, tx, rx, p).state) <==> Harmless(tx, p)
  {
    HeadersAfter(env, tx, rx, p);
    CacheAfter(env, tx, rx, p);
    hide AfterReceive, HeaderOf, ExpectedFlag, SameHeaders;
  }

  /** The message SetAckWindowSize sends. */
  function WindowPacket(n: nat): Packet {
    Packet(PROTOCOL_CONTROL, ACK_WINDOW_SIZE, 0, 0, BE4(n))
  }

  /** An announced window is the one the receiver acknowledges by, and the ends stay in step. */
  lemma {:induction false} WindowConveyed(env: Env, tx: Sender, rx: Parser, n: nat)
    requires Sync(tx, rx) && Sendable(env, tx, rx, WindowPacket(n)) && n < TWO32
    ensures var o := AfterReceive(env, tx, rx, WindowPacket(n));
            o.Going? && o.state.farAckWindow == n && Sync(AfterSend(tx, WindowPacket(n)), o.state)
  {
    var p := WindowPacket(n);
    Wire4(n);
    hide BE4, Value4, Sync, Sendable, AfterSend, AfterReceive, ExpectedFlag;
    SyncKept(env, tx, rx, p);
    CacheAfter(env, tx, rx, p);
  }

  lemma {:induction false} RunNothing(env: Env, s: Parser)
    ensures Run(env, s, []) == Going(s)
  {
  }

  /** The octets of one message take the receiver to the delivered state. */
  lemma {:induction false} RunWritten(env: Env, tx: Sender, rx: Parser, p: Packet, rest: seq<byte>)
    requires Sync(tx, rx) && Sendable(env, tx, rx, p)
    ensures AfterReceive(env, tx, rx, p).Going?
    ensures Run(env, rx, Written(tx, p) + rest) == Run(env, AfterReceive(env, tx, rx, p).state, rest)
  {
    Delivers(env, tx, rx, p);
    CompressionConveys(tx, rx, p);
    RunChunks(env, rx, Compression(tx, p), p.csid, HeaderOf(tx, p), p.payload, rest);
  }

  /** An acknowledgement reaches the receiver as type 3 on stream 0, spells the count, and changes nothing
      else. */
  lemma {:induction false} AckConveyed(env: Env, tx: Sender, rx: Parser, n: nat)
    requires Sync(tx, rx) && Sendable(env, tx, rx, AckPacket(n)) && n < TWO32
    ensures var o := Run(env, rx, Written(tx, AckPacket(n)));
            && o.Going? && |o.state.delivered| == |rx.delivered| + 1
            && o.state.delivered[..|rx.delivered|] == rx.delivered
            && o.state.farAckWindow == rx.farAckWindow && Sync(AfterSend(tx, AckPacket(n)), o.state)
            && var m := o.state.delivered[|rx.delivered|];
               m.csid == 2 && m.header == Header(0x03, 4, 0, 0) && |m.payload| == 4 && PayloadValue(m.payload) == n
  {
    hide Sync, Sendable, AfterSend, AfterReceive, Expected, Run, Harmless, HeaderOf, PayloadValue, ControlValue;
    var p := AckPacket(n);
    AckContents(tx, rx, n);
    MessageArrives(env, tx, rx, p);
    CacheAfter(env, tx, rx, p);
    SyncKept(env, tx, rx, p);
  }

  lemma {:induction false} AckContents(tx: Sender, rx: Parser, n: nat)
    requires n < TWO32
    ensures var p, m := AckPacket(n), Expected(tx, rx, AckPacket(n));
            && m.csid == 2 && m.header == HeaderOf(tx, p) == Header(0x03, 4, 0, 0)
            && |m.payload| == 4 && PayloadValue(m.payload) == n && Harmless(tx, p)
  {
    Wire4(n);
    hide BE4, Value4, ExpectedFlag;
  }

  /** The octets of one message, and nothing more. */
  lemma {:induction false} MessageArrives(env: Env, tx: Sender, rx: Parser, p: Packet)
    requires Sync(tx, rx) && Sendable(env, tx, rx, p)
    ensures var o := Run(env, rx, Written(tx, p));
            && o == AfterReceive(env, tx, rx, p) && o.Going?
            && |o.state.delivered| == |rx.delivered| + 1 && o.state.delivered[..|rx.delivered|] == rx.delivered
            && o.state.delivered[|rx.delivered|] == Expected(tx, rx, p)
  {
    assert tx.nearChunkSize > 0;
    hide Sync, Sendable, AfterReceive, Expected, Written, Run;
    Delivers(env, tx, rx, p);
    RunWritten(env, tx, rx, p, []);
    RunNothing(env, AfterReceive(env, tx, rx, p).state);
    assert Written(tx, p) + [] == Written(tx, p);
  }

  // ---- runs ----------------------------------------------------------------

  datatype Op = Send(packet: Packet) | SetChunkSize(size: int)

  function PacketOf(op: Op): Packet {
    match op
    case Send(p) => p
    case SetChunkSize(n) => ChunkSizePacket(n)
  }

  function AfterOp(tx: Sender, op: Op): Sender {
    var tx' := AfterSend(tx, PacketOf(op));
    if op.SetChunkSize? then tx'.(nearChunkSize := op.size) else tx'
  }

  predicate AllowedOp(env: Env, tx: Sender, rx: Parser, op: Op) {
    && Sendable(env, tx, rx, PacketOf(op))
    && (op.SetChunkSize? ==> 0 < op.size < 0x8000_0000)
    && (op.Send? ==> Harmless(tx, op.packet))
  }

  /** Every operation is allowed at the state it meets: what the receiver has seen by then decides
      whether its handlers accept the next message. */
  predicate AllowedRun(env: Env, tx: Sender, rx: Parser, ops: seq<Op>)
    decreases |ops|
  {
    && tx.nearChunkSize > 0
    && (ops != [] ==>
          && AllowedOp(env, tx, rx, ops[0])
          && var o := AfterReceive(env, tx, rx, PacketOf(ops[0]));
             o.Going? && AllowedRun(env, AfterOp(tx, ops[0]), o.state, ops[1..]))
  }

  function AfterRun(tx: Sender, ops: seq<Op>): Sender
    decreases |ops|
  {
    if ops == [] then tx else AfterRun(AfterOp(tx, ops[0]), ops[1..])
  }

  /** Everything written to the connection. */
  function Wire(env: Env, tx: Sender, rx: Parser, ops: seq<Op>): seq<byte>
    requires AllowedRun(env, tx, rx, ops)
    decreases |ops|
  {
    if ops == [] then []
    else
      var p := PacketOf(ops[0]);
      Written(tx, p) + Wire(env, AfterOp(tx, ops[0]), AfterReceive(env, tx, rx, p).state, ops[1..])
  }

  /** The type a message travels under: with AMF3, data, shared objects and commands have their own. */
  predicate TravelsAs(amf3: bool, typ: byte, wire: byte) {
    && (!amf3 || typ !in {0x12, 0x13, 0x14} ==> wire == typ)
    && (amf3 && typ == 0x12 ==> wire == 0x0F)
    && (amf3 && typ == 0x13 ==> wire == 0x10)
    && (amf3 && typ == 0x14 ==> wire == 0x11)
  }

  /** The message says what was handed to the sender. */
  predicate Carries(m: Message, op: Op, amf3: bool) {
    var h := m.header;
    h.length == |m.payload| &&
      match op
      case Send(p) =>
        && m.csid == p.csid && m.payload == p.payload
        && h.timestamp == p.timestamp && h.streamID == p.streamID && TravelsAs(amf3, p.typeID, h.typeID)
      case SetChunkSize(n) =>
        && m.csid == 2 && h.timestamp == 0 && h.streamID == 0 && h.typeID == 0x01
        && |m.payload| == 4 && PayloadValue(m.payload) == n
  }

  /** The messages, in order, are those of the operations. */
  predicate AllCarry(ms: seq<Message>, ops: seq<Op>, amf3: bool) {
    |ms| == |ops| && forall i | 0 <= i < |ms| :: Carries(ms[i], ops[i], amf3)
  }

  /** The acknowledgement window after the announcements among the operations. */
  function LastWindow(ops: seq<Op>, window: nat): nat
    decreases |ops|
  {
    if ops == [] then window
    else if ops[0].Send? && ops[0].packet.streamID == 0 && ops[0].packet.typeID == 0x05 && |ops[0].packet.payload| >= 4
      then LastWindow(ops[1..], PayloadValue(ops[0].packet.payload))
    else LastWindow(ops[1..], window)
  }

  lemma {:induction false} WireTypeTravels(amf3: bool, typ: byte)
    ensures TravelsAs(amf3, typ, WireType(amf3, typ))
    ensures WireType(amf3, typ) == 0x05 <==> typ == 0x05
  {
  }

  /** What one operation hands over, and what it does to the window. */
  lemma {:induction false} OpDelivers(env: Env, tx: Sender, rx: Parser, op: Op)
    requires Sync(tx, rx) && AllowedOp(env, tx, rx, op)
    ensures AfterReceive(env, tx, rx, PacketOf(op)).Going?
    ensures var rx' := AfterReceive(env, tx, rx, PacketOf(op)).state;
            && |rx'.delivered| == |rx.delivered| + 1 && rx'.delivered[..|rx.delivered|] == rx.delivered
            && Carries(rx'.delivered[|rx.delivered|], op, tx.amf3)
            && rx'.farAckWindow == LastWindow([op], rx.farAckWindow)
  {
    var p := PacketOf(op);
    hide AfterReceive, Sync, Sendable, Carries, LastWindow, HeaderOf;
    Delivers(env, tx, rx, p);
    CacheAfter(env, tx, rx, p);
    OpCarries(env, tx, rx, op);
    OpWindow(env, tx, rx, op);
  }

  lemma {:induction false} OpCarries(env: Env, tx: Sender, rx: Parser, op: Op)
    requires AllowedOp(env, tx, rx, op)
    ensures Carries(Expected(tx, rx, PacketOf(op)), op, tx.amf3)
  {
    hide ExpectedFlag, Compression, BE4, Value4, Processable, Harmless;
    WireTypeTravels(tx.amf3, PacketOf(op).typeID);
    if op.SetChunkSize? {
      ChunkSizeValue(tx, op.size);
    }
  }

  lemma {:induction false} OpWindow(env: Env, tx: Sender, rx: Parser, op: Op)
    requires AllowedOp(env, tx, rx, op)
    ensures var p := PacketOf(op);
            LastWindow([op], rx.farAckWindow) == if IsWindow(HeaderOf(tx, p)) then ControlValue(p) else rx.farAckWindow
  {
    hide BE4, Value4, ExpectedFlag, WireType, Harmless, Allowed;
    assert [op][1..] == [];
    WireTypeTravels(tx.amf3, PacketOf(op).typeID);
  }

  /** The message of SetChunkSize changes both ends alike, also when it is itself cut into chunks
      of the old size. */
  lemma {:induction false} OpKeepsSync(env: Env, tx: Sender, rx: Parser, op: Op)
    requires Sync(tx, rx) && AllowedOp(env, tx, rx, op)
    ensures var o := AfterReceive(env, tx, rx, PacketOf(op));
            o.Going? && Sync(AfterOp(tx, op), o.state)
  {
    if op.SetChunkSize? {
      ChunkSizeKeepsSync(env, tx, rx, op.size);
    } else {
      SyncKept(env, tx, rx, op.packet);
    }
  }

  /** What the receiver makes of an announced size: its low 31 bits. */
  lemma {:induction false} ChunkSizeValue(tx: Sender, n: int)
    requires IsInt32(n)
    ensures var p := ChunkSizePacket(n);
            && IsChunkSize(HeaderOf(tx, p)) && !IsAbort(HeaderOf(tx, p)) && |p.payload| == 4
            && ControlValue(p) == (if n >= 0 then n else n + TWO32)
            && ControlValue(p) % 0x8000_0000 == if n >= 0 then n else n + 0x8000_0000
  {
    Wire4(n % TWO32);
    hide BE4, Value4;
    assert n % TWO32 == if n >= 0 then n else n + TWO32;
  }

  /** Of all int32 sizes exactly the positive ones keep the ends in step. */
  lemma {:induction false} ChunkSizeKeepsSync(env: Env, tx: Sender, rx: Parser, n: int)
    requires Sync(tx, rx) && Sendable(env, tx, rx, ChunkSizePacket(n)) && IsInt32(n)
    ensures var p := ChunkSizePacket(n);
            var o := AfterReceive(env, tx, rx, p);
            o.Going? && (Sync(AfterSend(tx, p).(nearChunkSize := n), o.state) <==> n > 0)
  {
    ChunkSizeValue(tx, n);
    hide AfterReceive, SameHeaders, ExpectedFlag, HeaderOf, Sendable, ChunkSizePacket, ControlValue;
    var p := ChunkSizePacket(n);
    CacheAfter(env, tx, rx, p);
    HeadersAfter(env, tx, rx, p);
    SameHeadersIgnoresSize(AfterSend(tx, p), AfterReceive(env, tx, rx, p).state, n);
  }

  lemma {:induction false} SameHeadersIgnoresSize(tx: Sender, rx: Parser, n: int)
    ensures SameHeaders(tx.(nearChunkSize := n), rx) == SameHeaders(tx, rx)
  {
  }

  /** One operation of a run, with whatever octets follow. */
  lemma {:induction false} OpRoundTrip(env: Env, tx: Sender, rx: Parser, op: Op, rest: seq<byte>)
    requires Sync(tx, rx) && AllowedOp(env, tx, rx, op)
    ensures AfterReceive(env, tx, rx, PacketOf(op)).Going?
    ensures var rx' := AfterReceive(env, tx, rx, PacketOf(op)).state;
            && Run(env, rx, Written(tx, PacketOf(op)) + rest) == Run(env, rx', rest)
            && Sync(AfterOp(tx, op), rx')
  {
    RunWritten(env, tx, rx, PacketOf(op), rest);
    OpKeepsSync(env, tx, rx, op);
  }

  lemma {:induction false} WindowCons(op: Op, ops: seq<Op>, window: nat)
    ensures LastWindow([op] + ops, window) == LastWindow(ops, LastWindow([op], window))
  {
    assert ([op] + ops)[1..] == ops && [op][1..] == [];
  }

  /** Messages handed over before, one more, and the others. */
  lemma {:induction false} CarryCons(before: seq<Message>, mid: seq<Message>, after: seq<Message>, op: Op,
      ops: seq<Op>, amf3: bool)
    requires |before| < |mid| <= |after| && |mid| == |before| + 1
    requires mid[..|before|] == before && after[..|mid|] == mid
    requires Carries(mid[|before|], op, amf3) && AllCarry(after[|mid|..], ops, amf3)
    ensures after[..|before|] == before && AllCarry(after[|before|..], [op] + ops, amf3)
  {
    hide Carries;
    assert after[|before|..] == [mid[|before|]] + after[|mid|..];
  }

  /** Every allowed run, from any pair of ends in step: the receiver is handed exactly what was
      sent, in order, the window is the last one announced, and the ends are in step again. */
  lemma {:induction false} RunRoundTrip(env: Env, tx: Sender, rx: Parser, ops: seq<Op>)
    requires Sync(tx, rx) && AllowedRun(env, tx, rx, ops)
    ensures var o := Run(env, rx, Wire(env, tx, rx, ops));
            && o.Going?
            && Sync(AfterRun(tx, ops), o.state)
            && |o.state.delivered| >= |rx.delivered| && o.state.delivered[..|rx.delivered|] == rx.delivered
            && AllCarry(o.state.delivered[|rx.delivered|..], ops, tx.amf3)
            && o.state.farAckWindow == LastWindow(ops, rx.farAckWindow)
    decreases |ops|
  {
    hide Step, Written, AllowedOp, SameHeaders, AfterReceive, Carries, LastWindow;
    if ops == [] {
      NoWindow(rx.farAckWindow);
    } else {
      var op, rest := ops[0], ops[1..];
      var tx' := AfterOp(tx, op);
      var rx' := AfterReceive(env, tx, rx, PacketOf(op)).state;
      assert ops == [op] + rest;
      OpRoundTrip(env, tx, rx, op, Wire(env, tx', rx', rest));
      OpDelivers(env, tx, rx, op);
      RunRoundTrip(env, tx', rx', rest);
      WindowCons(op, rest, rx.farAckWindow);
      var after := Run(env, rx', Wire(env, tx', rx', rest)).state.delivered;
      CarryCons(rx.delivered, rx'.delivered, after, op, rest, tx.amf3);
    }
  }

  lemma {:induction false} NoWindow(window: nat)
    ensures LastWindow([], window) == window
  {
  }

  /** A fresh connection, with the octets cut into reads of any sizes. */
  lemma {:induction false} ConnectionRoundTrip(env: Env, amf3: bool, ops: seq<Op>, pieces: seq<seq<byte>>)
    requires AllowedRun(env, Sender(map[], 128, amf3), INITIAL, ops)
    requires Concat(pieces) == Wire(env, Sender(map[], 128, amf3), INITIAL, ops)
    ensures var o := RunPieces(env, INITIAL, pieces);
            && o.Going?
            && AllCarry(o.state.delivered, ops, amf3)
            && o.state.farAckWindow == LastWindow(ops, 2500000)
            && Sync(AfterRun(Sender(map[], 128, amf3), ops), o.state)
  {
    hide Run, RunPieces, Wire, AllowedRun, AfterRun, LastWindow, Carries;
    Segmentation(env, INITIAL, pieces);
    RunRoundTrip(env, Sender(map[], 128, amf3), INITIAL, ops);
    var ms := RunPieces(env, INITIAL, pieces).state.delivered;
    assert ms[0..] == ms;
  }

  // ---- where the code falls short ------------------------------------------

  /** What Abort sends for a chunk stream is a command, not an abort. */
  function AbortPacket(c: nat): Packet {
    Packet(3, COMMAND, 0, 0, BE4(c))
  }

  /** So it reaches the command handler, and no cached header is dropped. */
  lemma {:induction false} AbortDropsNothing(env: Env, tx: Sender, rx: Parser, c: nat)
    requires Sync(tx, rx) && Sendable(env, tx, rx, AbortPacket(c))
    ensures var o := AfterReceive(env, tx, rx, AbortPacket(c));
            && o.Going? && rx.cache.Keys <= o.state.cache.Keys
            && |o.state.delivered| == |rx.delivered| + 1
            && o.state.delivered[|rx.delivered|].header.typeID == if tx.amf3 then 0x11 else 0x14
  {
    var p := AbortPacket(c);
    hide BE4, Value4, Sync, Sendable, AfterReceive, ExpectedFlag;
    Delivers(env, tx, rx, p);
    CacheAfter(env, tx, rx, p);
  }

  /** An empty payload is never delivered: nothing is written, but the sender's cache changes, so
      the ends part unless the cache already held that very header. */
  lemma {:induction false} EmptyPayload(env: Env, tx: Sender, rx: Parser, p: Packet)
    requires Sync(tx, rx) && p.payload == []
    ensures Written(tx, p) == [] && Run(env, rx, Written(tx, p)) == Going(rx)
    ensures Sync(AfterSend(tx, p), rx) <==> p.csid in tx.headersOut && tx.headersOut[p.csid] == HeaderOf(tx, p)
  {
    var out := AfterSend(tx, p).headersOut;
    assert p.csid in out && out[p.csid] == HeaderOf(tx, p);
    if p.csid in tx.headersOut && tx.headersOut[p.csid] == HeaderOf(tx, p) {
      assert out == tx.headersOut;
    }
  }
}
