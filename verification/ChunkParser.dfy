/** The incremental RTMP chunk parser of NetConnection.parseMessage, one octet at a time.

    A chunk stream's cache entry in the original is a pointer to a message, and the message in
    progress is itself in the cache. `mine` holds the chunk streams whose entry is the message in
    progress; `cache` holds what every other entry pointed to, which no longer changes. */
module ChunkParser {
  import opened Bytes

  const EXTENDED := 0xFF_FFFF

  const SET_CHUNK_SIZE: byte := 0x01
  const ABORT: byte := 0x02
  const ACK: byte := 0x03
  const ACK_WINDOW_SIZE: byte := 0x05

  datatype Phase =
    | Fmt | Csid0 | Csid1
    | Timestamp0 | Timestamp1 | Timestamp2
    | Length0 | Length1 | Length2
    | TypeId
    | StreamId0 | StreamId1 | StreamId2 | StreamId3
    | Extended0 | Extended1 | Extended2 | Extended3
    | Data

  datatype Flag = Unset | Absolute | Delta

  datatype Header = Header(typeID: byte, length: nat, timestamp: nat, streamID: nat)

  const NO_HEADER := Header(0, 0, 0, 0)

  datatype Cached = Cached(header: Header, flag: Flag)

  /** A message as handed to INetStream.process. */
  datatype Message = Message(csid: nat, flag: Flag, header: Header, payload: seq<byte>)

  /** What the parser does not own, after the messages delivered so far: the registered message
      streams, and whether the processing of a message (outside the protocol control messages below)
      returns without an error. */
  datatype Env = Env(streams: seq<Message> -> set<nat>, accepts: (seq<Message>, Message) -> bool)

  datatype Parser = Parser(
    phase: Phase,
    fmt: byte,
    csid: nat,
    flag: Flag,
    header: Header,
    buffer: seq<byte>,
    mine: set<nat>,
    cache: map<nat, Cached>,
    farChunkSize: nat,
    farAckWindow: nat,
    delivered: seq<Message>)

  datatype Error = StreamNotFound | Rejected | DivideByZero | NegativeSlice | ShortControl

  datatype Outcome = Going(state: Parser) | Failed(at: Parser, error: Error)

  const INITIAL := Parser(Fmt, 0, 0, Unset, NO_HEADER, [], {}, map[], 128, 2500000, [])

  /** The entry of chunk stream c. */
  function Lookup(s: Parser, c: nat): Option<Cached> {
    if c in s.mine then Some(Cached(s.header, s.flag))
    else if c in s.cache then Some(s.cache[c])
    else None
  }

  function AfterTimestamp(timestamp: nat): Phase {
    if timestamp < EXTENDED then Data else Extended0
  }

  /** The chunk stream is known: inherit its header and make it point to this message. */
  function Bind(s: Parser, c: nat): Parser {
    var last := Lookup(s, c);
    var header := if last.Some? then last.value.header else s.header;
    var flag := if last.Some? && s.fmt == 3 then last.value.flag else s.flag;
    s.(csid := c, header := header, flag := flag,
       mine := s.mine + {c}, cache := s.cache - {c},
       phase := if s.fmt == 3 then AfterTimestamp(header.timestamp) else Timestamp0)
  }

  /** First octet of the basic header. */
  function OpenChunk(s: Parser, b: byte): Parser {
    var flag := if s.flag != Unset then s.flag else if b / 64 == 0 then Absolute else Delta;
    s.(fmt := b / 64, csid := b % 64, flag := flag)
  }

  function FmtStep(s: Parser, b: byte): Parser {
    var t := OpenChunk(s, b);
    if t.csid == 0 then t.(phase := Csid1)
    else if t.csid == 1 then t.(phase := Csid0)
    else Bind(t, t.csid)
  }

  /** NetConnection.process on the control stream; every other message goes to env.accepts. */
  function Process(env: Env, s: Parser, m: Message): Outcome {
    var p := m.payload;
    if m.header.streamID == 0 && m.header.typeID in {SET_CHUNK_SIZE, ABORT, ACK, ACK_WINDOW_SIZE} then
      if |p| < 4 then Failed(s, ShortControl)
      else
        var v := Value4(p[0], p[1], p[2], p[3]);
        if m.header.typeID == SET_CHUNK_SIZE then Going(s.(farChunkSize := v % 0x8000_0000))
        else if m.header.typeID == ABORT then Going(s.(mine := s.mine - {v}, cache := s.cache - {v}))
        else if m.header.typeID == ACK then Going(s)
        else Going(s.(farAckWindow := v))
    else if env.accepts(s.delivered, m) then Going(s)
    else Failed(s, Rejected)
  }

  /** A fresh message takes over; the entries of the finished one are frozen. */
  function Finish(s: Parser, m: Message): Parser {
    Parser(Fmt, 0, 0, Unset, NO_HEADER, [], {},
           s.cache + (map c | c in s.mine :: Cached(s.header, s.flag)),
           s.farChunkSize, s.farAckWindow, s.delivered + [m])
  }

  function Current(s: Parser): Message {
    Message(s.csid, s.flag, s.header, s.buffer)
  }

  /** The buffer holds the declared length. */
  function Deliver(env: Env, s: Parser): Outcome {
    if s.header.streamID !in env.streams(s.delivered) then Failed(s, StreamNotFound)
    else match Process(env, s, Current(s))
      case Failed(at, e) => Failed(at, e)
      case Going(t) => Going(Finish(t, Current(s)))
  }

  /** Where k buffered octets leave the parser: at a chunk boundary or inside a chunk. */
  function PhaseAt(k: nat, chunk: nat): Phase
    requires chunk > 0
  {
    if k % chunk == 0 then Fmt else Data
  }

  function Store(s: Parser, d: seq<byte>): Parser
    requires s.farChunkSize > 0
  {
    s.(buffer := s.buffer + d, phase := PhaseAt(|s.buffer| + |d|, s.farChunkSize))
  }

  function Complete(env: Env, s: Parser): Outcome {
    if |s.buffer| == s.header.length then Deliver(env, s) else Going(s)
  }

  /** One payload octet. A message of declared length 0 is delivered first and the octet then
      starts the next chunk, as stepping the loop index back by one does. */
  function DataStep(env: Env, s: Parser, b: byte): Outcome {
    if s.farChunkSize == 0 then Failed(s, DivideByZero)
    else if s.header.length < |s.buffer| then Failed(s, NegativeSlice)
    else if s.header.length == |s.buffer| then
      match Deliver(env, s)
      case Failed(at, e) => Failed(at, e)
      case Going(t) => Going(FmtStep(t, b))
    else Complete(env, Store(s, [b]))
  }

  function SetTimestamp(s: Parser, t: nat, p: Phase): Parser {
    s.(header := s.header.(timestamp := t), phase := p)
  }

  function SetLength(s: Parser, n: nat, p: Phase): Parser {
    s.(header := s.header.(length := n), phase := p)
  }

  function SetStreamID(s: Parser, n: nat, p: Phase): Parser {
    s.(header := s.header.(streamID := n), phase := p)
  }

  /** Header octets. Fields are filled from zero, so the original's |= adds. */
  function HeaderStep(s: Parser, b: byte): Parser
    requires s.phase != Data
  {
    var h := s.header;
    match s.phase
    case Fmt => FmtStep(s, b)
    case Csid0 => s.(csid := b, phase := Csid1)
    case Csid1 => Bind(s, (if s.csid == 0 then b else s.csid + b * TWO8) + 64)
    case Timestamp0 => SetTimestamp(s, b * TWO16, Timestamp1)
    case Timestamp1 => SetTimestamp(s, h.timestamp + b * TWO8, Timestamp2)
    case Timestamp2 =>
      var t := h.timestamp + b;
      SetTimestamp(s, t, if s.fmt == 2 then AfterTimestamp(t) else Length0)
    case Length0 => SetLength(s, b * TWO16, Length1)
    case Length1 => SetLength(s, h.length + b * TWO8, Length2)
    case Length2 => SetLength(s, h.length + b, TypeId)
    case TypeId =>
      s.(header := h.(typeID := b), phase := if s.fmt == 1 then AfterTimestamp(h.timestamp) else StreamId0)
    case StreamId0 => SetStreamID(s, b, StreamId1)
    case StreamId1 => SetStreamID(s, h.streamID + b * TWO8, StreamId2)
    case StreamId2 => SetStreamID(s, h.streamID + b * TWO16, StreamId3)
    case StreamId3 => SetStreamID(s, h.streamID + b * TWO24, AfterTimestamp(h.timestamp))
    case Extended0 => SetTimestamp(s, b * TWO24, Extended1)
    case Extended1 => SetTimestamp(s, h.timestamp + b * TWO16, Extended2)
    case Extended2 => SetTimestamp(s, h.timestamp + b * TWO8, Extended3)
    case Extended3 => SetTimestamp(s, h.timestamp + b, Data)
  }

  function Step(env: Env, s: Parser, b: byte): Outcome {
    if s.phase == Data then DataStep(env, s, b) else Going(HeaderStep(s, b))
  }

  /** Feeding octets one at a time until the input ends or the parser fails. */
  function Run(env: Env, s: Parser, data: seq<byte>): Outcome
    decreases |data|
  {
    if data == [] then Going(s)
    else match Step(env, s, data[0])
      case Failed(at, e) => Failed(at, e)
      case Going(t) => Run(env, t, data[1..])
  }

  function AndThen(env: Env, o: Outcome, data: seq<byte>): Outcome {
    match o
    case Failed(at, e) => Failed(at, e)
    case Going(t) => Run(env, t, data)
  }

  /** Parsing a ++ b is parsing a and then, unless that failed, b. */
  lemma {:induction false} RunAppend(env: Env, s: Parser, a: seq<byte>, b: seq<byte>)
    ensures Run(env, s, a + b) == AndThen(env, Run(env, s, a), b)
    decreases |a|
  {
    if a == [] {
      assert a + b == b;
    } else {
      assert (a + b)[1..] == a[1..] + b;
      var o := Step(env, s, a[0]);
      if o.Going? {
        RunAppend(env, o.state, a[1..], b);
      }
    }
  }

  /** Calls of parseMessage on successive network reads. */
  function RunPieces(env: Env, s: Parser, pieces: seq<seq<byte>>): Outcome
    decreases |pieces|
  {
    if pieces == [] then Going(s)
    else match Run(env, s, pieces[0])
      case Failed(at, e) => Failed(at, e)
      case Going(t) => RunPieces(env, t, pieces[1..])
  }

  /** How the network cuts the octets into reads makes no difference, from any state. */
  lemma {:induction false} Segmentation(env: Env, s: Parser, pieces: seq<seq<byte>>)
    ensures RunPieces(env, s, pieces) == Run(env, s, Concat(pieces))
    decreases |pieces|
  {
    if pieces != [] {
      RunAppend(env, s, pieces[0], Concat(pieces[1..]));
      var o := Run(env, s, pieces[0]);
      if o.Going? {
        Segmentation(env, o.state, pieces[1..]);
      }
    }
  }

  /** A copy of several payload octets at once is the same as feeding them one at a time, as long
      as it stays inside the current chunk and the declared length. */
  lemma {:induction false} BulkCopy(env: Env, s: Parser, d: seq<byte>, rest: seq<byte>)
    requires s.phase == Data && s.farChunkSize > 0
    requires 0 < |d| <= s.header.length - |s.buffer|
    requires |d| <= s.farChunkSize - |s.buffer| % s.farChunkSize
    ensures Run(env, s, d + rest) == AndThen(env, Complete(env, Store(s, d)), rest)
    decreases |d|
  {
    var k, c := |s.buffer|, s.farChunkSize;
    NextMod(k, c);
    assert (d + rest)[0] == d[0] && (d + rest)[1..] == d[1..] + rest;
    var t := Store(s, [d[0]]);
    if |d| == 1 {
      assert d == [d[0]] && d[1..] + rest == rest;
    } else {
      assert Step(env, s, d[0]) == Going(t);
      BulkCopy(env, t, d[1..], rest);
      assert s.buffer + [d[0]] + d[1..] == s.buffer + d;
      assert Store(t, d[1..]) == Store(s, d);
    }
  }

  // ---- field bits ----------------------------------------------------------

  /** In every phase the bits still to be read of a field are zero, and no field outgrows its
      width: adding an octet is or-ing it in, and nothing overflows 32 bits. */
  predicate FieldBits(s: Parser) {
    var h := s.header;
    && s.fmt <= 3 && s.csid < 65600
    && h.length < TWO24 && h.timestamp < TWO32 && h.streamID < TWO32
    && (forall c <- s.cache.Keys :: var k := s.cache[c].header;
                                    k.length < TWO24 && k.timestamp < TWO32 && k.streamID < TWO32)
    && match s.phase
       case Csid1 => s.csid < TWO8
       case Timestamp1 => h.timestamp % TWO16 == 0 && h.timestamp < TWO24
       case Timestamp2 => h.timestamp % TWO8 == 0 && h.timestamp < TWO24
       case Length1 => h.length % TWO16 == 0
       case Length2 => h.length % TWO8 == 0
       case StreamId1 => h.streamID < TWO8
       case StreamId2 => h.streamID < TWO16
       case StreamId3 => h.streamID < TWO24
       case Extended1 => h.timestamp % TWO24 == 0
       case Extended2 => h.timestamp % TWO16 == 0
       case Extended3 => h.timestamp % TWO8 == 0
       case _ => true
  }

  lemma {:induction false} BindKeepsBits(s: Parser, c: nat)
    requires FieldBits(s) && c < 65600
    ensures FieldBits(Bind(s, c))
  {
  }

  lemma {:induction false} DeliverKeepsBits(env: Env, s: Parser)
    requires FieldBits(s) && Deliver(env, s).Going?
    ensures FieldBits(Deliver(env, s).state)
  {
  }

  /** Adding an octet right below the bits that are set, as far as there is room for it. */
  lemma {:induction false} AddSecond(t: nat, b: byte)
    requires t % TWO24 == 0 && t < TWO32
    ensures (t + b * TWO16) % TWO16 == 0 && t + b * TWO16 < TWO32
  {
    var q := t / TWO24;
    assert t + b * TWO16 == (q * TWO8 + b) * TWO16 && q < TWO8;
  }

  lemma {:induction false} AddThird(t: nat, b: byte)
    requires t % TWO16 == 0 && t < TWO32
    ensures (t + b * TWO8) % TWO8 == 0 && t + b * TWO8 < TWO32
    ensures t < TWO24 ==> t + b * TWO8 < TWO24
  {
    var q := t / TWO16;
    assert t + b * TWO8 == (q * TWO8 + b) * TWO8 && q < TWO16;
  }

  lemma {:induction false} AddFourth(t: nat, b: byte)
    requires t % TWO8 == 0 && t < TWO32
    ensures t + b < TWO32 && (t < TWO24 ==> t + b < TWO24)
  {
    var q := t / TWO8;
    assert t + b == q * TWO8 + b && q < TWO24;
  }

  lemma {:induction false} AddOctet(t: nat, b: byte)
    requires t < TWO32
    ensures t % TWO24 == 0 ==> (t + b * TWO16) % TWO16 == 0 && t + b * TWO16 < TWO32
    ensures t % TWO16 == 0 ==> (t + b * TWO8) % TWO8 == 0 && t + b * TWO8 < TWO32
    ensures t % TWO8 == 0 ==> t + b < TWO32
    ensures t % TWO16 == 0 && t < TWO24 ==> t + b * TWO8 < TWO24
    ensures t % TWO8 == 0 && t < TWO24 ==> t + b < TWO24
  {
    if t % TWO24 == 0 {
      AddSecond(t, b);
    }
    if t % TWO16 == 0 {
      AddThird(t, b);
    }
    if t % TWO8 == 0 {
      AddFourth(t, b);
    }
  }

  lemma {:induction false} TimestampKeepsBits(s: Parser, b: byte)
    requires FieldBits(s) && s.phase in {Timestamp0, Timestamp1, Timestamp2}
    ensures FieldBits(HeaderStep(s, b))
  {
    hide Bind, FmtStep;
    AddOctet(s.header.timestamp, b);
  }

  lemma {:induction false} ExtendedKeepsBits(s: Parser, b: byte)
    requires FieldBits(s) && s.phase in {Extended0, Extended1, Extended2, Extended3}
    ensures FieldBits(HeaderStep(s, b))
  {
    hide Bind, FmtStep;
    AddOctet(s.header.timestamp, b);
  }

  lemma {:induction false} LengthKeepsBits(s: Parser, b: byte)
    requires FieldBits(s)
    requires s.phase in {Length0, Length1, Length2, TypeId, StreamId0, StreamId1, StreamId2, StreamId3, Csid0}
    ensures FieldBits(HeaderStep(s, b))
  {
    hide Bind, FmtStep;
  }

  lemma {:induction false} HeaderStepKeepsBits(s: Parser, b: byte)
    requires FieldBits(s) && s.phase != Data
    ensures FieldBits(HeaderStep(s, b))
  {
    if s.phase == Fmt {
      FmtStepKeepsBits(s, b);
    } else if s.phase == Csid1 {
      BindKeepsBits(s, (if s.csid == 0 then b else s.csid + b * TWO8) + 64);
    } else if s.phase in {Length0, Length1, Length2, TypeId, StreamId0, StreamId1, StreamId2, StreamId3, Csid0} {
      LengthKeepsBits(s, b);
    } else if s.phase in {Timestamp0, Timestamp1, Timestamp2} {
      TimestampKeepsBits(s, b);
    } else {
      ExtendedKeepsBits(s, b);
    }
  }

  lemma {:induction false} FmtStepKeepsBits(s: Parser, b: byte)
    requires FieldBits(s)
    ensures FieldBits(FmtStep(s, b))
  {
    var t := OpenChunk(s, b);
    if t.csid >= 2 {
      BindKeepsBits(t.(phase := Fmt), t.csid);
    }
  }

  /** On every input, from the initial state on. */
  lemma {:induction false} RunKeepsBits(env: Env, s: Parser, data: seq<byte>)
    requires FieldBits(s) && Run(env, s, data).Going?
    ensures FieldBits(Run(env, s, data).state)
    decreases |data|
  {
    if data != [] {
      if s.phase != Data {
        HeaderStepKeepsBits(s, data[0]);
      } else if s.header.length == |s.buffer| {
        DeliverKeepsBits(env, s);
        FmtStepKeepsBits(Deliver(env, s).state, data[0]);
      } else if s.header.length == |s.buffer| + 1 {
        DeliverKeepsBits(env, Store(s, [data[0]]));
      }
      RunKeepsBits(env, Step(env, s, data[0]).state, data[1..]);
    }
  }
}
