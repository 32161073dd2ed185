/** Sender and receiver of the chunk stream stay in step. */
module ChunkRoundTrip {
  import opened Bytes
  import opened ChunkParser
  import opened ChunkSender

  // ---- the basic header ----------------------------------------------------

  /** The id the parser binds after the basic header of id c: in the three-octet form a zero low
      octet is mistaken for the marker of the two-octet form. */
  function BoundCsid(c: nat): nat
    requires 2 <= c < 65600
  {
    if c >= 320 && (c - 64) % TWO8 == 0 then (c - 64) / TWO8 + 64 else c
  }

  /** The ids that survive the wire. */
  predicate Allowed(c: nat) {
    2 <= c < 65600 && (c >= 320 ==> (c - 64) % TWO8 != 0)
  }

  lemma {:induction false} BoundCsidExact(c: nat)
    requires 2 <= c < 65600
    ensures BoundCsid(c) == c <==> Allowed(c)
  {
  }

  function Opened(s: Parser, f: byte): Parser {
    s.(fmt := f, flag := if s.flag != Unset then s.flag else if f == 0 then Absolute else Delta)
  }

  lemma {:induction false} RunCons(env: Env, s: Parser, b: byte, rest: seq<byte>)
    requires s.phase != Data
    ensures Run(env, s, [b] + rest) == Run(env, HeaderStep(s, b), rest)
  {
    assert ([b] + rest)[1..] == rest;
  }

  lemma {:induction false} RunTwo(env: Env, s: Parser, x: seq<byte>, rest: seq<byte>)
    requires |x| == 2 && s.phase != Data && HeaderStep(s, x[0]).phase != Data
    ensures Run(env, s, x + rest) == Run(env, HeaderStep(HeaderStep(s, x[0]), x[1]), rest)
  {
    assert x + rest == [x[0]] + ([x[1]] + rest);
    RunCons(env, s, x[0], [x[1]] + rest);
    RunCons(env, HeaderStep(s, x[0]), x[1], rest);
  }

  lemma {:induction false} RunThree(env: Env, s: Parser, x: seq<byte>, rest: seq<byte>)
    requires |x| == 3 && s.phase != Data && HeaderStep(s, x[0]).phase != Data
    requires HeaderStep(HeaderStep(s, x[0]), x[1]).phase != Data
    ensures Run(env, s, x + rest) == Run(env, HeaderStep(HeaderStep(HeaderStep(s, x[0]), x[1]), x[2]), rest)
  {
    assert x + rest == x[..2] + ([x[2]] + rest);
    RunTwo(env, s, x[..2], [x[2]] + rest);
    RunCons(env, HeaderStep(HeaderStep(s, x[0]), x[1]), x[2], rest);
  }

  /** Binding does not look at the id and phase it replaces. */
  lemma {:induction false} BindIgnores(s: Parser, d: nat, p: Phase, c: nat)
    ensures Bind(s.(csid := d, phase := p), c) == Bind(s, c)
  {
    var t := s.(csid := d, phase := p);
    assert Lookup(t, c) == Lookup(s, c);
  }

  lemma {:induction false} RunLong(env: Env, s: Parser, f: byte, c: nat, rest: seq<byte>)
    requires s.phase == Fmt && f <= 3 && 320 <= c < 65600
    ensures Run(env, s, Basic(f, c).value + rest) == Run(env, Bind(Opened(s, f), BoundCsid(c)), rest)
  {
    var w := Basic(f, c).value;
    hide Run, Bind;
    var s1 := HeaderStep(s, w[0]);
    assert s1 == Opened(s, f).(csid := 1, phase := Csid0);
    var s2 := HeaderStep(s1, w[1]);
    assert s2 == Opened(s, f).(csid := w[1], phase := Csid1);
    RunThree(env, s, w, rest);
    assert HeaderStep(s2, w[2]) == Bind(s2, BoundCsid(c));
    BindIgnores(Opened(s, f), w[1], Csid1, BoundCsid(c));
  }

  lemma {:induction false} RunShort(env: Env, s: Parser, f: byte, c: nat, rest: seq<byte>)
    requires s.phase == Fmt && f <= 3 && 2 <= c < 64
    ensures Run(env, s, [f * 64 + c] + rest) == Run(env, Bind(Opened(s, f), c), rest)
  {
    hide Run, Bind;
    RunCons(env, s, f * 64 + c, rest);
    assert (f * 64 + c) / 64 == f && (f * 64 + c) % 64 == c;
    BindIgnores(Opened(s, f), c, s.phase, c);
  }

  lemma {:induction false} RunMiddle(env: Env, s: Parser, f: byte, c: nat, rest: seq<byte>)
    requires s.phase == Fmt && f <= 3 && 64 <= c < 320
    ensures Run(env, s, [f * 64, c - 64] + rest) == Run(env, Bind(Opened(s, f), c), rest)
  {
    var w := [f * 64, c - 64];
    assert HeaderStep(s, w[0]) == Opened(s, f).(csid := 0, phase := Csid1);
    RunTwo(env, s, w, rest);
    hide Run, Bind;
    BindIgnores(Opened(s, f), 0, Csid1, c);
  }

  /** The basic header binds one chunk stream. */
  lemma {:induction false} RunBasic(env: Env, s: Parser, f: byte, c: nat, rest: seq<byte>)
    requires s.phase == Fmt && f <= 3 && 2 <= c < 65600
    ensures Run(env, s, Basic(f, c).value + rest) == Run(env, Bind(Opened(s, f), BoundCsid(c)), rest)
  {
    hide Run, Bind, Opened;
    if c < 64 {
      RunShort(env, s, f, c, rest);
    } else if c < 320 {
      RunMiddle(env, s, f, c, rest);
    } else {
      RunLong(env, s, f, c, rest);
    }
  }

  /** A chunk stream id comes back from its basic header exactly when it is allowed. */
  lemma {:induction false} CsidRoundTrip(env: Env, s: Parser, f: byte, c: nat)
    requires s.phase == Fmt && f <= 3 && c < 65600
    ensures var o := Run(env, s, Basic(f, c).value);
            o.Going? && ((o.state.phase !in {Csid0, Csid1} && o.state.csid == c) <==> Allowed(c))
  {
    var w := Basic(f, c).value;
    assert w + [] == w;
    if c >= 2 {
      RunBasic(env, s, f, c, []);
    } else {
      assert [w[0]] + [] == w;
      RunCons(env, s, w[0], []);
    }
  }

  /** The ids in between, 320 the first of them, come back as 64 and the multiple, 320 as 65. */
  lemma {:induction false} CsidMisread(env: Env, s: Parser, f: byte, k: nat)
    requires s.phase == Fmt && f <= 3 && 1 <= k <= 255
    ensures var o := Run(env, s, Basic(f, 64 + 256 * k).value);
            o.Going? && o.state.phase !in {Csid0, Csid1} && o.state.csid == 64 + k
  {
    var w := Basic(f, 64 + 256 * k).value;
    assert w + [] == w;
    RunBasic(env, s, f, 64 + 256 * k, []);
  }

  // ---- the message header --------------------------------------------------

  /** Header octets fill a field with the value they spell. */
  lemma {:induction false} ThreeOctets(s: Parser, x: seq<byte>)
    requires |x| == 3 && s.phase in {Timestamp0, Length0}
    ensures HeaderStep(HeaderStep(HeaderStep(s, x[0]), x[1]), x[2]) ==
            var n := Value3(x[0], x[1], x[2]);
            if s.phase == Length0 then SetLength(s, n, TypeId)
            else SetTimestamp(s, n, if s.fmt == 2 then AfterTimestamp(n) else Length0)
  {
  }

  lemma {:induction false} FourOctets(s: Parser, x: seq<byte>)
    requires |x| == 4 && s.phase in {StreamId0, Extended0}
    ensures HeaderStep(HeaderStep(HeaderStep(HeaderStep(s, x[0]), x[1]), x[2]), x[3]) ==
            if s.phase == Extended0 then SetTimestamp(s, Value4(x[0], x[1], x[2], x[3]), Data)
            else SetStreamID(s, Value4(x[3], x[2], x[1], x[0]), AfterTimestamp(s.header.timestamp))
  {
  }

  lemma {:induction false} RunFour(env: Env, s: Parser, x: seq<byte>, rest: seq<byte>)
    requires |x| == 4 && s.phase in {StreamId0, Extended0}
    ensures Run(env, s, x + rest) ==
            Run(env, HeaderStep(HeaderStep(HeaderStep(HeaderStep(s, x[0]), x[1]), x[2]), x[3]), rest)
  {
    assert x + rest == x[..2] + (x[2..] + rest);
    RunTwo(env, s, x[..2], x[2..] + rest);
    RunTwo(env, HeaderStep(HeaderStep(s, x[0]), x[1]), x[2..], rest);
  }

  /** Reading a three-octet field. */
  lemma {:induction false} RunField3(env: Env, s: Parser, x: seq<byte>, rest: seq<byte>)
    requires |x| == 3 && s.phase in {Timestamp0, Length0}
    ensures var n := Value3(x[0], x[1], x[2]);
            Run(env, s, x + rest) ==
            Run(env, if s.phase == Length0 then SetLength(s, n, TypeId)
                     else SetTimestamp(s, n, if s.fmt == 2 then AfterTimestamp(n) else Length0), rest)
  {
    ThreeOctets(s, x);
    RunThree(env, s, x, rest);
  }

  /** Reading a four-octet field: little-endian for the stream id, big-endian otherwise. */
  lemma {:induction false} RunField4(env: Env, s: Parser, x: seq<byte>, rest: seq<byte>)
    requires |x| == 4 && s.phase in {StreamId0, Extended0}
    ensures Run(env, s, x + rest) ==
            Run(env, if s.phase == Extended0 then SetTimestamp(s, Value4(x[0], x[1], x[2], x[3]), Data)
                     else SetStreamID(s, Value4(x[3], x[2], x[1], x[0]), AfterTimestamp(s.header.timestamp)), rest)
  {
    FourOctets(s, x);
    RunFour(env, s, x, rest);
  }

  lemma {:induction false} RunTimestamp(env: Env, s: Parser, t: nat, rest: seq<byte>)
    requires s.phase == Timestamp0 && t < TWO24
    ensures Run(env, s, BE3(t) + rest) ==
            Run(env, SetTimestamp(s, t, if s.fmt == 2 then AfterTimestamp(t) else Length0), rest)
  {
    hide Run, BE3, Value3;
    RunField3(env, s, BE3(t), rest);
    Wire3(t);
  }

  lemma {:induction false} RunLength(env: Env, s: Parser, n: nat, rest: seq<byte>)
    requires s.phase == Length0 && n < TWO24
    ensures Run(env, s, BE3(n) + rest) == Run(env, SetLength(s, n, TypeId), rest)
  {
    hide Run, BE3, Value3;
    RunField3(env, s, BE3(n), rest);
    Wire3(n);
  }

  lemma {:induction false} RunLengthAndType(env: Env, s: Parser, n: nat, typ: byte, rest: seq<byte>)
    requires s.phase == Length0 && n < TWO24
    ensures Run(env, s, BE3(n) + [typ] + rest) ==
            Run(env, s.(header := s.header.(length := n, typeID := typ),
                        phase := if s.fmt == 1 then AfterTimestamp(s.header.timestamp) else StreamId0), rest)
  {
    assert BE3(n) + [typ] + rest == BE3(n) + ([typ] + rest);
    RunLength(env, s, n, [typ] + rest);
    RunCons(env, SetLength(s, n, TypeId), typ, rest);
  }

  lemma {:induction false} RunStreamID(env: Env, s: Parser, id: nat, rest: seq<byte>)
    requires s.phase == StreamId0 && id < TWO32
    ensures Run(env, s, LE4(id) + rest) ==
            Run(env, SetStreamID(s, id, AfterTimestamp(s.header.timestamp)), rest)
  {
    hide Run, LE4, Value4;
    RunField4(env, s, LE4(id), rest);
    Wire4(id);
  }

  lemma {:induction false} RunExtendedField(env: Env, s: Parser, t: nat, rest: seq<byte>)
    requires s.phase == Extended0 && t < TWO32
    ensures Run(env, s, BE4(t) + rest) == Run(env, SetTimestamp(s, t, Data), rest)
  {
    hide Run, BE4, Value4;
    RunField4(env, s, BE4(t), rest);
    Wire4(t);
  }

  /** The extended timestamp is read exactly where it is written. */
  lemma {:induction false} RunExtended(env: Env, s: Parser, h: Header, rest: seq<byte>)
    requires h.timestamp < TWO32
    requires s.phase == AfterTimestamp(s.header.timestamp)
    requires s.header == h || s.header == h.(timestamp := EXTENDED)
    requires h.timestamp < EXTENDED ==> s.header == h
    ensures Run(env, s, ExtendedField(h) + rest) == Run(env, s.(header := h, phase := Data), rest)
  {
    if h.timestamp >= EXTENDED {
      RunExtendedField(env, s, h.timestamp, rest);
    } else {
      assert [] + rest == rest;
    }
  }

  predicate Fits(h: Header) {
    h.length < TWO24 && h.timestamp < TWO32 && h.streamID < TWO32
  }

  /** What the parser must already know for format f to convey h. */
  predicate Conveys(f: byte, known: Header, h: Header) {
    && f <= 3
    && (f >= 1 ==> known.streamID == h.streamID)
    && (f >= 2 ==> known.typeID == h.typeID && known.length == h.length)
    && (f == 3 ==> known.timestamp == h.timestamp)
  }

  lemma {:induction false} RunMessageHeader(env: Env, s: Parser, h: Header, rest: seq<byte>)
    requires Fits(h) && Conveys(s.fmt, s.header, h)
    requires s.phase == if s.fmt == 3 then AfterTimestamp(s.header.timestamp) else Timestamp0
    ensures Run(env, s, MessageHeader(s.fmt, h) + rest) == Run(env, s.(header := h, phase := Data), rest)
  {
    var f := s.fmt;
    var t := if h.timestamp < EXTENDED then h.timestamp else EXTENDED;
    var ext := ExtendedField(h) + rest;
    hide Run, BE3, LE4, ExtendedField;
    if f == 3 {
      assert MessageHeader(f, h) + rest == ext;
      RunExtended(env, s, h, rest);
    } else {
      var g := s.header.(timestamp := t);
      if f == 2 {
        assert MessageHeader(f, h) + rest == BE3(t) + ext;
        RunTimestamp(env, s, t, ext);
        RunExtended(env, SetTimestamp(s, t, AfterTimestamp(t)), h, rest);
      } else if f == 1 {
        assert MessageHeader(f, h) + rest == BE3(t) + (BE3(h.length) + [h.typeID] + ext);
        RunTimestamp(env, s, t, BE3(h.length) + [h.typeID] + ext);
        RunLengthAndType(env, SetTimestamp(s, t, Length0), h.length, h.typeID, ext);
        RunExtended(env, s.(header := h.(timestamp := t), phase := AfterTimestamp(t)), h, rest);
      } else {
        assert MessageHeader(f, h) + rest == BE3(t) + (BE3(h.length) + [h.typeID] + (LE4(h.streamID) + ext));
        RunTimestamp(env, s, t, BE3(h.length) + [h.typeID] + (LE4(h.streamID) + ext));
        RunLengthAndType(env, SetTimestamp(s, t, Length0), h.length, h.typeID, LE4(h.streamID) + ext);
        RunStreamID(env, s.(header := g.(length := h.length, typeID := h.typeID), phase := StreamId0), h.streamID, ext);
        RunExtended(env, s.(header := h.(timestamp := t), phase := AfterTimestamp(t)), h, rest);
      }
    }
  }

  /** The octets in front of a chunk, as section 5.3.1 of RTMP 1.0 lays them out. */
  lemma {:induction false} BasicLayout(f: byte, c: nat)
    requires f <= 3 && c < 65600
    ensures var b := Basic(f, c).value;
            && b[0] / 64 == f
            && (c < 64 ==> |b| == 1 && b[0] % 64 == c)
            && (64 <= c < 320 ==> |b| == 2 && b[0] % 64 == 0 && c == 64 + b[1] as int)
            && (320 <= c ==> |b| == 3 && b[0] % 64 == 1 && c == 64 + b[1] as int + 256 * b[2] as int)
  {
  }

  lemma {:induction false} HeaderLayout(f: byte, h: Header)
    requires f <= 3 && Fits(h)
    ensures var m, n := MessageHeader(f, h), if f == 0 then 11 else if f == 1 then 7 else if f == 2 then 3 else 0;
            && |m| == n + (if h.timestamp >= 0xFF_FFFF then 4 else 0)
            && (f < 3 ==> Value3(m[0], m[1], m[2]) == if h.timestamp >= 0xFF_FFFF then 0xFF_FFFF else h.timestamp)
            && (f < 2 ==> Value3(m[3], m[4], m[5]) == h.length && m[6] == h.typeID)
            && (f == 0 ==> Value4(m[10], m[9], m[8], m[7]) == h.streamID)
            && (h.timestamp >= 0xFF_FFFF ==> Value4(m[n], m[n + 1], m[n + 2], m[n + 3]) == h.timestamp)
  {
    var m, n := MessageHeader(f, h), if f == 0 then 11 else if f == 1 then 7 else if f == 2 then 3 else 0;
    hide BE3, BE4, LE4, Value3, Value4, MessageHeader;
    HeaderParts(f, h);
    Wire3(if h.timestamp < EXTENDED then h.timestamp else EXTENDED);
    Wire3(h.length);
    Wire4(h.streamID);
    Wire4(h.timestamp);
    if f < 3 {
      Slice(m, 0, 3);
    }
    if f < 2 {
      Slice(m, 3, 3);
    }
    if f == 0 {
      Slice(m, 7, 4);
    }
    if h.timestamp >= 0xFF_FFFF {
      Slice(m, n, 4);
    }
  }

  lemma {:induction false} Slice(m: seq<byte>, i: nat, k: nat)
    requires i + k <= |m| && 3 <= k <= 4
    ensures var x := m[i..i + k]; x[0] == m[i] && x[1] == m[i + 1] && x[2] == m[i + 2] && (k == 4 ==> x[3] == m[i + 3])
  {
  }

  lemma {:induction false} HeaderParts(f: byte, h: Header)
    requires f <= 3
    ensures var m, n := MessageHeader(f, h), if f == 0 then 11 else if f == 1 then 7 else if f == 2 then 3 else 0;
            && |m| == n + (if h.timestamp >= 0xFF_FFFF then 4 else 0)
            && (f < 3 ==> m[0..3] == BE3(if h.timestamp < EXTENDED then h.timestamp else EXTENDED))
            && (f < 2 ==> m[3..6] == BE3(h.length) && m[6] == h.typeID)
            && (f == 0 ==> m[7..11] == LE4(h.streamID))
            && (h.timestamp >= 0xFF_FFFF ==> m[n..n + 4] == BE4(h.timestamp))
  {
    hide BE3, BE4, LE4;
  }

  // ---- one message ---------------------------------------------------------

  /** Reading the header of a chunk of format f on chunk stream c. */
  function ChunkOpened(s: Parser, f: byte, c: nat, h: Header): Parser {
    Bind(Opened(s, f), c).(header := h, phase := Data)
  }

  lemma {:induction false} RunChunkHeader(env: Env, s: Parser, f: byte, c: nat, h: Header, rest: seq<byte>)
    requires s.phase == Fmt && Allowed(c) && Fits(h)
    requires Conveys(f, Bind(Opened(s, f), c).header, h)
    ensures Run(env, s, Basic(f, c).value + MessageHeader(f, h) + rest) == Run(env, ChunkOpened(s, f, c, h), rest)
  {
    assert Basic(f, c).value + MessageHeader(f, h) + rest == Basic(f, c).value + (MessageHeader(f, h) + rest);
    BoundCsidExact(c);
    RunBasic(env, s, f, c, MessageHeader(f, h) + rest);
    RunMessageHeader(env, Bind(Opened(s, f), c), h, rest);
  }

  /** A whole number of chunks is in the buffer. */
  predicate OnBoundary(s: Parser) {
    s.farChunkSize > 0 && |s.buffer| % s.farChunkSize == 0
  }

  /** One whole chunk. */
  lemma {:induction false} RunChunk(env: Env, s: Parser, f: byte, c: nat, h: Header, d: seq<byte>, rest: seq<byte>)
    requires s.phase == Fmt && Allowed(c) && Fits(h)
    requires Conveys(f, Bind(Opened(s, f), c).header, h)
    requires OnBoundary(s)
    requires 0 < |d| <= s.farChunkSize && |s.buffer| + |d| <= h.length
    ensures Run(env, s, Basic(f, c).value + MessageHeader(f, h) + d + rest)
            == AndThen(env, Complete(env, Store(ChunkOpened(s, f, c, h), d)), rest)
  {
    var head := Basic(f, c).value + MessageHeader(f, h);
    assert head + d + rest == head + (d + rest);
    RunChunkHeader(env, s, f, c, h, d + rest);
    BulkCopy(env, ChunkOpened(s, f, c, h), d, rest);
  }

  /** A successful delivery does not depend on where the last chunk left the parser. */
  lemma {:induction false} DeliverIgnores(env: Env, s: Parser, f: byte, p: Phase)
    requires Deliver(env, s).Going?
    ensures Deliver(env, s.(fmt := f, phase := p)) == Deliver(env, s)
  {
    assert Current(s.(fmt := f, phase := p)) == Current(s);
  }

  lemma {:induction false} BoundaryAgain(n: nat, k: nat)
    requires k > 0 && n % k == 0
    ensures (n + k) % k == 0
  {
    ModUnique(n + k, k, n / k + 1, 0);
  }

  /** A later chunk of the same message only marks its format. */
  lemma {:induction false} Continued(s: Parser, c: nat, h: Header)
    requires c in s.mine && s.header == h && s.flag != Unset && s.csid == c && c !in s.cache
    ensures ChunkOpened(s, 3, c, h) == s.(fmt := 3, phase := Data)
  {
    assert s.mine + {c} == s.mine && s.cache - {c} == s.cache;
  }

  /** The parser with the whole payload gathered. */
  function Gathered(s: Parser, f: byte, c: nat, h: Header, data: seq<byte>): Parser {
    ChunkOpened(s, f, c, h).(buffer := s.buffer + data)
  }

  lemma {:induction false} RunLastChunk(env: Env, s: Parser, f: byte, c: nat, h: Header, d: seq<byte>, rest: seq<byte>)
    requires s.phase == Fmt && Allowed(c) && Fits(h)
    requires Conveys(f, Bind(Opened(s, f), c).header, h)
    requires OnBoundary(s) && 0 < |d| <= s.farChunkSize && |s.buffer| + |d| == h.length
    requires Deliver(env, Gathered(s, f, c, h, d)).Going?
    ensures Run(env, s, Chunks(f, c, h, d, s.farChunkSize) + rest)
            == Run(env, Deliver(env, Gathered(s, f, c, h, d)).state, rest)
  {
    assert d[..|d|] == d && d[|d|..] == [];
    var head := Basic(f, c).value + MessageHeader(f, h) + d;
    assert Chunks(f, c, h, d, s.farChunkSize) == head + [] == head;
    RunChunk(env, s, f, c, h, d, rest);
    var full := Gathered(s, f, c, h, d);
    var u := Store(ChunkOpened(s, f, c, h), d);
    assert u == full.(fmt := full.fmt, phase := u.phase);
    DeliverIgnores(env, full, full.fmt, u.phase);
  }

  lemma {:induction false} RunFullChunk(env: Env, s: Parser, f: byte, c: nat, h: Header, d: seq<byte>, e: seq<byte>,
      rest: seq<byte>)
    requires s.phase == Fmt && Allowed(c) && Fits(h)
    requires Conveys(f, Bind(Opened(s, f), c).header, h)
    requires OnBoundary(s) && |d| == s.farChunkSize && e != [] && |s.buffer| + |d| + |e| == h.length
    ensures Run(env, s, Chunks(f, c, h, d + e, s.farChunkSize) + rest)
            == Run(env, Gathered(s, f, c, h, d).(phase := Fmt), Chunks(3, c, h, e, s.farChunkSize) + rest)
  {
    assert (d + e)[..|d|] == d && (d + e)[|d|..] == e;
    var head := Basic(f, c).value + MessageHeader(f, h) + d;
    var tail := Chunks(3, c, h, e, s.farChunkSize);
    assert Chunks(f, c, h, d + e, s.farChunkSize) == head + tail;
    Assoc(head, tail, rest);
    RunFirst(env, s, f, c, h, d, tail + rest);
  }

  lemma {:induction false} RunFirst(env: Env, s: Parser, f: byte, c: nat, h: Header, d: seq<byte>, rest: seq<byte>)
    requires s.phase == Fmt && Allowed(c) && Fits(h)
    requires Conveys(f, Bind(Opened(s, f), c).header, h)
    requires OnBoundary(s) && |d| == s.farChunkSize && |s.buffer| + |d| < h.length
    ensures Run(env, s, Basic(f, c).value + MessageHeader(f, h) + d + rest)
            == Run(env, Gathered(s, f, c, h, d).(phase := Fmt), rest)
  {
    RunChunk(env, s, f, c, h, d, rest);
    BoundaryAgain(|s.buffer|, s.farChunkSize);
    assert Store(ChunkOpened(s, f, c, h), d) == Gathered(s, f, c, h, d).(phase := Fmt);
  }

  /** The frozen entry of c, if any, carries a flag. */
  predicate Flagged(s: Parser, c: nat) {
    c in s.cache ==> s.cache[c].flag != Unset
  }

  /** Gathering in two goes is gathering at once. */
  lemma {:induction false} GatheredTwice(s: Parser, f: byte, c: nat, h: Header, d: seq<byte>, e: seq<byte>)
    requires Flagged(s, c)
    ensures Gathered(Gathered(s, f, c, h, d).(phase := Fmt), 3, c, h, e)
            == Gathered(s, f, c, h, d + e).(fmt := 3, phase := Data)
  {
    var u := Gathered(s, f, c, h, d).(phase := Fmt);
    assert Bind(Opened(s, f), c).flag != Unset;
    Continued(u, c, h);
    assert u.buffer + e == s.buffer + (d + e);
  }

  /** The chunks of the rest of a message, the first with format f, complete and deliver it. */
  lemma {:induction false} RunChunks(env: Env, s: Parser, f: byte, c: nat, h: Header, data: seq<byte>, rest: seq<byte>)
    requires s.phase == Fmt && Allowed(c) && Fits(h)
    requires Conveys(f, Bind(Opened(s, f), c).header, h)
    requires OnBoundary(s)
    requires data != [] && |s.buffer| + |data| == h.length
    requires Flagged(s, c)
    requires Deliver(env, Gathered(s, f, c, h, data)).Going?
    ensures Run(env, s, Chunks(f, c, h, data, s.farChunkSize) + rest)
            == Run(env, Deliver(env, Gathered(s, f, c, h, data)).state, rest)
    decreases |data|, 0
  {
    hide Run, Deliver, Gathered, Bind, Opened, Conveys, Fits, Basic, MessageHeader, Chunks, Flagged;
    var k := s.farChunkSize;
    if |data| <= k {
      RunLastChunk(env, s, f, c, h, data, rest);
    } else {
      var d, e := data[..k], data[k..];
      assert d + e == data;
      RunFullChunk(env, s, f, c, h, d, e, rest);
      RunRest(env, s, f, c, h, d, e, rest);
    }
  }

  lemma {:induction false} RunRest(env: Env, s: Parser, f: byte, c: nat, h: Header, d: seq<byte>, e: seq<byte>,
      rest: seq<byte>)
    requires s.phase == Fmt && Allowed(c) && Fits(h)
    requires OnBoundary(s)
    requires |d| == s.farChunkSize && e != [] && |s.buffer| + |d| + |e| == h.length
    requires Flagged(s, c)
    requires Deliver(env, Gathered(s, f, c, h, d + e)).Going?
    ensures var u := Gathered(s, f, c, h, d).(phase := Fmt);
            Run(env, u, Chunks(3, c, h, e, s.farChunkSize) + rest)
            == Run(env, Deliver(env, Gathered(s, f, c, h, d + e)).state, rest)
    decreases |e|, 1
  {
    var u := Gathered(s, f, c, h, d).(phase := Fmt);
    hide Run, Deliver, MessageHeader, Chunks, Basic;
    GatheredTwice(s, f, c, h, d, e);
    DeliverIgnores(env, Gathered(s, f, c, h, d + e), 3, Data);
    BoundaryAgain(|s.buffer|, s.farChunkSize);
    assert c in u.mine && c !in u.cache;
    RunChunks(env, u, 3, c, h, e, rest);
  }
}
