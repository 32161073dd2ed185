/** The connection object: parseMessage and sendBytes as they update the connection in place. */
module NetConnections {
  import opened Bytes
  import opened ChunkParser
  import opened ChunkSender
  import opened ChunkSync
  import opened ChunkRoundTrip
  import opened Acknowledgement

  /** message.Message: one object per message; the cache keeps pointing to finished ones. */
  class MessageObject {
    var fmt: byte
    var csid: nat
    var flag: Flag
    var header: Header
    var buffer: seq<byte>

    constructor ()
      ensures fmt == 0 && csid == 0 && flag == Unset && header == NO_HEADER && buffer == []
    {
      fmt, csid, flag, header, buffer := 0, 0, Unset, NO_HEADER, [];
    }
  }

  class NetConnection {
    const env: Env
    const amf3: bool

    // receiver
    var state: Phase
    var message: MessageObject
    var messages: map<nat, MessageObject>
    var farChunkSize: nat
    var farAckWindowSize: nat
    var delivered: seq<Message>

    // sender
    var headersOut: map<nat, Header>
    var nearChunkSize: int
    var written: seq<byte>

    // acknowledgement
    var bytesIn: nat
    var lastAckWindowSize: nat

    constructor (env: Env, amf3: bool)
      ensures View() == INITIAL && Out() == Sender(map[], 128, amf3)
      ensures this.env == env && written == [] && Counts() == START && fresh(message)
    {
      this.env, this.amf3 := env, amf3;
      state := Fmt;
      message := new MessageObject();
      messages := map[];
      farChunkSize, farAckWindowSize, delivered := 128, 2500000, [];
      headersOut, nearChunkSize, written := map[], 128, [];
      bytesIn, lastAckWindowSize := 0, 0;
      new;
      assert View().mine == {} && View().cache == map[];
    }

    /** The receiver's half as a value. */
    ghost function View(): Parser
      reads this, message, messages.Values
    {
      Parser(state, message.fmt, message.csid, message.flag, message.header, message.buffer,
             set c | c in messages && messages[c] == message,
             map c | c in messages && messages[c] != message :: Cached(messages[c].header, messages[c].flag),
             farChunkSize, farAckWindowSize, delivered)
    }

    /** The sender's half as a value. */
    ghost function Out(): Sender
      reads this
    {
      Sender(headersOut, nearChunkSize, amf3)
    }

    /** The acknowledgement counters as a value. */
    ghost function Counts(): Counters
      reads this
    {
      Counters(bytesIn, lastAckWindowSize)
    }

    // ---- parseMessage ------------------------------------------------------

    /** Inherit the header of the cached message, and its flag on a chunk of format 3. */
    method Inherit(c: nat)
      modifies message
      ensures var s, t := old(View()), View();
              var last := Lookup(s, c);
              t == s.(csid := c, header := if last.Some? then last.value.header else s.header,
                      flag := if last.Some? && s.fmt == 3 then last.value.flag else s.flag)
    {
      message.csid := c;
      if c in messages {
        var last := messages[c];
        message.header := last.header;
        if message.fmt == 3 {
          message.flag := last.flag;
        }
      }
      assert View().mine == old(View()).mine;
      assert View().cache == old(View()).cache;
    }

    /** Make the cache point to the message in progress. */
    method Enter(c: nat)
      modifies this`messages
      ensures var s := old(View()); View() == s.(mine := s.mine + {c}, cache := s.cache - {c})
    {
      messages := messages[c := message];
      assert View().mine == old(View()).mine + {c};
      assert View().cache == old(View()).cache - {c};
    }

    method BindStream(c: nat)
      modifies this`messages, this`state, message
      ensures View() == Bind(old(View()), c)
    {
      Inherit(c);
      Enter(c);
      state := if message.fmt == 3 then AfterTimestamp(message.header.timestamp) else Timestamp0;
    }

    method FmtOctet(b: byte)
      requires state == Fmt
      modifies this`messages, this`state, message
      ensures View() == FmtStep(old(View()), b)
    {
      message.fmt := b / 64;
      message.csid := b % 64;
      if message.flag == Unset {
        message.flag := if message.fmt == 0 then Absolute else Delta;
      }
      assert View() == OpenChunk(old(View()), b);
      if message.csid == 0 {
        state := Csid1;
      } else if message.csid == 1 {
        state := Csid0;
      } else {
        BindStream(message.csid);
      }
    }

    /** Assign a header field and move on. */
    method SetHeader(h: Header, p: Phase)
      modifies this`state, message`header
      ensures View() == old(View()).(header := h, phase := p)
    {
      message.header := h;
      state := p;
      assert View().mine == old(View()).mine && View().cache == old(View()).cache;
    }

    method CsidOctet(b: byte)
      requires state in {Csid0, Csid1}
      modifies this`messages, this`state, message
      ensures View() == HeaderStep(old(View()), b)
    {
      if state == Csid0 {
        message.csid := b;
        state := Csid1;
      } else {
        if message.csid == 0 {
          message.csid := b;
        } else {
          message.csid := message.csid + b * TWO8;
        }
        message.csid := message.csid + 64;
        ghost var s := View();
        assert s == old(View()).(csid := message.csid);
        BindIgnores(old(View()), message.csid, old(View()).phase, message.csid);
        BindStream(message.csid);
      }
    }

    method HeaderOctet(b: byte)
      requires state != Data
      modifies this`messages, this`state, message
      ensures View() == HeaderStep(old(View()), b)
    {
      var h, f := message.header, message.fmt;
      match state
      case Fmt => FmtOctet(b);
      case Csid0 => CsidOctet(b);
      case Csid1 => CsidOctet(b);
      case Timestamp0 => SetHeader(h.(timestamp := b * TWO16), Timestamp1);
      case Timestamp1 => SetHeader(h.(timestamp := h.timestamp + b * TWO8), Timestamp2);
      case Timestamp2 =>
        var t := h.timestamp + b;
        SetHeader(h.(timestamp := t), if f == 2 then AfterTimestamp(t) else Length0);
      case Length0 => SetHeader(h.(length := b * TWO16), Length1);
      case Length1 => SetHeader(h.(length := h.length + b * TWO8), Length2);
      case Length2 => SetHeader(h.(length := h.length + b), TypeId);
      case TypeId => SetHeader(h.(typeID := b), if f == 1 then AfterTimestamp(h.timestamp) else StreamId0);
      case StreamId0 => SetHeader(h.(streamID := b), StreamId1);
      case StreamId1 => SetHeader(h.(streamID := h.streamID + b * TWO8), StreamId2);
      case StreamId2 => SetHeader(h.(streamID := h.streamID + b * TWO16), StreamId3);
      case StreamId3 => SetHeader(h.(streamID := h.streamID + b * TWO24), AfterTimestamp(h.timestamp));
      case Extended0 => SetHeader(h.(timestamp := b * TWO24), Extended1);
      case Extended1 => SetHeader(h.(timestamp := h.timestamp + b * TWO16), Extended2);
      case Extended2 => SetHeader(h.(timestamp := h.timestamp + b * TWO8), Extended3);
      case Extended3 => SetHeader(h.(timestamp := h.timestamp + b), Data);
    }

    /** NetConnection.process. */
    method ProcessMessage() returns (err: Option<Error>)
      modifies this`farChunkSize, this`farAckWindowSize, this`messages
      ensures match Process(env, old(View()), Current(old(View())))
              case Going(t) => err == None && View() == t
              case Failed(at, e) => err == Some(e) && View() == at
    {
      var h, data := message.header, message.buffer;
      if h.streamID == 0 && h.typeID in {SET_CHUNK_SIZE, ABORT, ACK, ACK_WINDOW_SIZE} {
        if |data| < 4 {
          return Some(ShortControl);
        }
        var v := Value4(data[0], data[1], data[2], data[3]);
        if h.typeID == SET_CHUNK_SIZE {
          farChunkSize := v % 0x8000_0000;
        } else if h.typeID == ABORT {
          messages := messages - {v};
          assert View().mine == old(View()).mine - {v};
          assert View().cache == old(View()).cache - {v};
        } else if h.typeID == ACK_WINDOW_SIZE {
          farAckWindowSize := v;
        }
        return None;
      }
      return if env.accepts(delivered, Message(message.csid, message.flag, h, data)) then None else Some(Rejected);
    }

    /** The buffer is complete: look up the stream, process, start a new message. */
    method DeliverMessage() returns (err: Option<Error>)
      modifies this
      ensures match Deliver(env, old(View()))
              case Going(t) => err == None && View() == t && fresh(message)
              case Failed(at, e) => err == Some(e) && View() == at && message == old(message)
      ensures Out() == old(Out()) && written == old(written) && Counts() == old(Counts())
    {
      if message.header.streamID !in env.streams(delivered) {
        return Some(StreamNotFound);
      }
      err := ProcessMessage();
      hide Process;
      if err == None {
        NewMessage();
      }
    }

    /** message.New: the finished message stays in the cache. */
    method NewMessage()
      modifies this`delivered, this`message, this`state
      ensures View() == Finish(old(View()), Current(old(View()))) && fresh(message)
    {
      delivered := delivered + [Message(message.csid, message.flag, message.header, message.buffer)];
      message := new MessageObject();
      state := Fmt;
      assert View().mine == {};
      assert View().cache == Finish(old(View()), Current(old(View()))).cache;
    }

    /** Append a run of payload octets, ending the chunk if it is full. */
    method Append(d: seq<byte>)
      requires farChunkSize > 0 && |d| <= farChunkSize - |message.buffer| % farChunkSize
      requires d != [] && state == Data
      modifies this`state, message`buffer
      ensures View() == Store(old(View()), d)
    {
      BoundaryIff(|message.buffer|, |d|, farChunkSize);
      if |d| >= farChunkSize - |message.buffer| % farChunkSize {
        state := Fmt;
      }
      message.buffer := message.buffer + d;
      assert View().mine == old(View()).mine && View().cache == old(View()).cache;
    }

    /** The payload case: copy as much as the message, the chunk and the input allow. n is how far
        the loop index moves; it is 0 exactly when nothing is missing from the message, which is
        then delivered without consuming an octet. */
    method DataOctets(data: seq<byte>, i: nat) returns (n: nat, err: Option<Error>)
      requires i < |data| && state == Data
      modifies this, message
      ensures i + n <= |data|
      ensures err == None ==> Run(env, old(View()), data[i..]) == Run(env, View(), data[i + n..])
      ensures err == None && n == 0 ==> state == Fmt
      ensures err.Some? ==> Run(env, old(View()), data[i..]) == Failed(View(), err.value)
      ensures message == old(message) || fresh(message)
      ensures Out() == old(Out()) && written == old(written) && Counts() == old(Counts())
    {
      ghost var s := View();
      if farChunkSize == 0 {
        return 0, Some(DivideByZero);
      }
      var fragmentary := farChunkSize - |message.buffer| % farChunkSize;
      if message.header.length < |message.buffer| {
        return 0, Some(NegativeSlice);
      }
      n := Min(Min(message.header.length - |message.buffer|, |data| - i), fragmentary);
      if n > 0 {
        var d := data[i..i + n];
        assert data[i..] == d + data[i + n..];
        BulkCopy(env, s, d, data[i + n..]);
        Append(d);
      }
      err := None;
      hide Deliver, FmtStep, HeaderStep;
      if |message.buffer| == message.header.length {
        err := DeliverMessage();
      }
    }

    /** One read from the network: the same as feeding its octets to the parser one at a time. */
    method ParseMessage(data: seq<byte>) returns (err: Option<Error>)
      modifies this, message
      ensures match Run(env, old(View()), data)
              case Going(t) => err == None && View() == t
              case Failed(at, e) => err == Some(e) && View() == at
      ensures message == old(message) || fresh(message)
      ensures Out() == old(Out()) && written == old(written) && Counts() == old(Counts())
    {
      hide Step, HeaderStep;
      var i := 0;
      assert data[0..] == data;
      while i < |data|
        invariant i <= |data|
        invariant Run(env, View(), data[i..]) == Run(env, old(View()), data)
        invariant message == old(message) || fresh(message)
        invariant Out() == old(Out()) && written == old(written) && Counts() == old(Counts())
        decreases |data| - i, if state == Data then 1 else 0
      {
        if state == Data {
          var n;
          n, err := DataOctets(data, i);
          if err.Some? {
            return;
          }
          i := i + n;
        } else {
          assert data[i..] == [data[i]] + data[i + 1..];
          RunCons(env, View(), data[i], data[i + 1..]);
          HeaderOctet(data[i]);
          i := i + 1;
        }
      }
      return None;
    }

    // ---- sendBytes ---------------------------------------------------------

    method BasicOctets(f: byte, c: nat) returns (b: seq<byte>)
      requires f <= 3 && c < 65600
      ensures b == Basic(f, c).value
    {
      if c < 64 {
        b := [f * 64 + c];
      } else if c < 320 {
        b := [f * 64];
        b := b + [c - 64];
      } else {
        b := [f * 64 + 1];
        b := b + [(c - 64) % TWO8, (c - 64) / TWO8];
      }
    }

    method HeaderOctets(f: byte, h: Header) returns (b: seq<byte>)
      ensures b == MessageHeader(f, h)
    {
      b := [];
      hide BE3, BE4, LE4;
      if f < 3 {
        b := b + BE3(if h.timestamp < EXTENDED then h.timestamp else EXTENDED);
      }
      if f < 2 {
        b := b + (BE3(h.length) + [h.typeID]);
      }
      if f == 0 {
        b := b + LE4(h.streamID);
      }
      if h.timestamp >= EXTENDED {
        b := b + BE4(h.timestamp);
      }
    }

    /** One chunk: headers and up to a chunk size of payload from position i. */
    method WriteChunk(f: byte, c: nat, h: Header, data: seq<byte>, i: nat) returns (j: nat)
      requires f <= 3 && c < 65600 && i < |data| && nearChunkSize > 0
      modifies this`written
      ensures 0 < j <= |data| - i
      ensures written + Chunks(3, c, h, data[i + j..], nearChunkSize)
              == old(written) + Chunks(f, c, h, data[i..], nearChunkSize)
    {
      var b := BasicOctets(f, c);
      var m := HeaderOctets(f, h);
      j := Min(|data| - i, nearChunkSize);
      var d := data[i..i + j];
      ghost var tail := Chunks(3, c, h, data[i + j..], nearChunkSize);
      assert d == data[i..][..j] && data[i..][j..] == data[i + j..];
      assert Chunks(f, c, h, data[i..], nearChunkSize) == b + m + d + tail;
      hide Basic, MessageHeader, Chunks;
      Assoc(written, b + m + d, tail);
      written := written + (b + m + d);
    }

    /** sendBytes: compress against the cached header, update the cache, write the chunks. */
    method SendBytes(p: Packet) returns (sent: nat, ok: bool)
      requires nearChunkSize > 0
      modifies this`headersOut, this`written
      ensures Out() == AfterSend(old(Out()), p)
      ensures written == old(written) + Written(old(Out()), p)
      ensures p.csid in headersOut && TravelsAs(amf3, p.typeID, headersOut[p.csid].typeID)
      ensures ok <==> p.csid < 65600 || p.payload == []
      ensures sent == if ok then |p.payload| else 0
    {
      hide Chunks;
      var typ := WireType(amf3, p.typeID);
      WireTypeTravels(amf3, p.typeID);
      var data, n := p.payload, |p.payload|;
      var f: byte := 0;
      if p.csid in headersOut {
        var last := headersOut[p.csid];
        if p.streamID == last.streamID {
          f := 1;
          if typ == last.typeID && n == last.length {
            f := 2;
            if p.timestamp == last.timestamp {
              f := 3;
            }
          }
        }
      }
      assert f == Compression(Out(), p);
      var h := Header(typ, n % TWO32, p.timestamp, p.streamID);
      headersOut := headersOut[p.csid := h];
      if p.csid >= 65600 {
        assert Written(old(Out()), p) == [];
        return 0, n == 0;
      }
      var i := 0;
      assert data[0..] == data;
      while i < n
        invariant i <= n && f <= 3 && Out() == AfterSend(old(Out()), p)
        invariant written + Chunks(f, p.csid, h, data[i..], nearChunkSize)
                  == old(written) + Written(old(Out()), p)
      {
        var j := WriteChunk(f, p.csid, h, data, i);
        i := i + j;
        f := 3;
      }
      NoChunks(f, p.csid, h, data[i..], nearChunkSize);
      return i, true;
    }

    /** SetChunkSize: announce the size in chunks of the old one, then use it. */
    method SetChunkSize(n: int)
      requires nearChunkSize > 0 && IsInt32(n)
      modifies this`headersOut, this`written, this`nearChunkSize
      ensures Out() == AfterOp(old(Out()), ChunkSync.SetChunkSize(n))
      ensures written == old(written) + Written(old(Out()), ChunkSizePacket(n))
    {
      var sent, ok := SendBytes(ChunkSizePacket(n));
      nearChunkSize := n;
    }

    // ---- read --------------------------------------------------------------

    /** One round of read: count the octets, acknowledge when due, then parse. */
    method OnRead(data: seq<byte>) returns (err: Option<Error>)
      requires nearChunkSize > 0
      modifies this, message
      ensures var r := Read(|data|, old(farAckWindowSize));
              && Counts() == Count(old(Counts()), r)
              && (if Due(old(Counts()), r)
                  then Out() == AfterSend(old(Out()), AckPacket(bytesIn))
                       && written == old(written) + Written(old(Out()), AckPacket(bytesIn))
                  else Out() == old(Out()) && written == old(written))
      ensures match Run(env, old(View()), data)
              case Going(t) => err == None && View() == t
              case Failed(at, e) => err == Some(e) && View() == at
      ensures message == old(message) || fresh(message)
    {
      hide Written, Run, AfterSend;
      bytesIn := (bytesIn + |data|) % TWO32;
      if (bytesIn - lastAckWindowSize) % TWO32 >= farAckWindowSize {
        var sent, ok := SendBytes(AckPacket(bytesIn));
        lastAckWindowSize := bytesIn;
      }
      assert View().mine == old(View()).mine && View().cache == old(View()).cache;
      err := ParseMessage(data);
    }
  }

  /** An acknowledgement tells the peer the octets received so far modulo 2^32. */
  lemma {:induction false} AckSpells(env: Env, tx: Sender, rx: Parser, c: Counters, t: Traffic)
    requires Exact(c, t) && Sync(tx, rx) && Sendable(env, tx, rx, AckPacket(c.bytesIn))
    ensures var o := Run(env, rx, Written(tx, AckPacket(c.bytesIn)));
            && o.Going? && |o.state.delivered| == |rx.delivered| + 1
            && var m := o.state.delivered[|rx.delivered|];
               && m.header == Header(0x03, 4, 0, 0) && |m.payload| == 4
               && PayloadValue(m.payload) == t.total % 0x1_0000_0000
  {
    hide Run, Written, Sync, Sendable, PayloadValue;
    AckConveyed(env, tx, rx, c.bytesIn);
  }

  lemma {:induction false} NoChunks(f: byte, c: nat, h: Header, data: seq<byte>, chunk: nat)
    requires f <= 3 && c < 65600 && chunk > 0 && data == []
    ensures Chunks(f, c, h, data, chunk) == []
  {
  }

  /** Copying n octets ends on a chunk boundary exactly when it fills the chunk. */
  lemma {:induction false} BoundaryIff(k: nat, n: nat, c: nat)
    requires c > 0 && 0 < n <= c - k % c
    ensures (k + n) % c == 0 <==> n == c - k % c
  {
    if n == c - k % c {
      ModUnique(k + n, c, k / c + 1, 0);
    } else {
      ModUnique(k + n, c, k / c, k % c + n);
    }
  }
}
