/** The incremental FLV demuxer, FLV.Append, one octet at a time. */
module FlvDemuxer {
  import opened Bytes
  import opened FlvTag

  datatype Phase =
    | SigF | SigL | SigV | Version | Flags
    | Header0 | Header1 | Header2 | Header3
    | Back0 | Back1 | Back2 | Back3
    | Type
    | Length0 | Length1 | Length2
    | Time0 | Time1 | Time2 | Time3
    | Stream0 | Stream1 | Stream2
    | Payload

  datatype Region = InFile | InPointer | InTag | InBody

  function RegionOf(p: Phase): Region {
    match p
    case SigF | SigL | SigV | Version | Flags | Header0 | Header1 | Header2 | Header3 => InFile
    case Back0 | Back1 | Back2 | Back3 => InPointer
    case Payload => InBody
    case _ => InTag
  }

  /** The properties set on a packet before it is dispatched. */
  datatype Props =
    | NoProps
    | AudioProps(format: byte, rate: byte, size: byte, channel: byte, dataType: byte)
    | VideoProps(frameType: byte, codec: byte, videoDataType: byte, keyframe: bool)

  /** A dispatched packet. */
  datatype Event = Event(kind: Kind, length: nat, timestamp: nat, streamID: nat, payload: seq<byte>,
                         position: nat, props: Props)

  /** The packet being filled; received is its payload up to its position. */
  datatype Filling = Filling(kind: Kind, length: nat, timestamp: nat, streamID: nat, received: seq<byte>)

  datatype Demuxer = Demuxer(phase: Phase, hasAudio: bool, hasVideo: bool, backpointer: nat,
                             packet: Filling, out: seq<Event>)

  datatype Error = NotFlv | UnknownTag | ShortMedia

  /** An error event makes Append return, dropping the rest of its input; audio or video shorter
      than two octets makes it panic. */
  datatype Outcome = Going(state: Demuxer) | Stopped(at: Demuxer, error: Error)

  const NO_PACKET := Filling(Unknown, 0, 0, 0, [])
  const INITIAL := Demuxer(SigF, false, false, 0, NO_PACKET, [])

  function KindOf(b: byte): Kind {
    if b == KIND_AUDIO then Audio else if b == KIND_VIDEO then Video else if b == KIND_SCRIPT then Script else Unknown
  }

  function PropsOf(k: Kind, p: seq<byte>): Props
    requires k in {Audio, Video} ==> |p| >= 2
  {
    match k
    case Audio => AudioProps(p[0] / 16, p[0] / 4 % 4, p[0] / 2 % 2, p[0] % 2, p[1])
    case Video => VideoProps(p[0] / 16, p[0] % 16, p[1], p[0] / 16 == 1 || p[0] / 16 == 4)
    case _ => NoProps
  }

  lemma {:induction false} AudioBits(b: byte)
    ensures b == 16 * (b / 16) + 4 * (b / 4 % 4) + 2 * (b / 2 % 2) + b % 2
  {
    var h := b / 2;
    assert b / 4 == h / 2 && b / 16 == b / 4 / 4;
  }

  /** The properties say all there is in the first two octets. */
  lemma {:induction false} PropsAreOctets(k: Kind, p: seq<byte>)
    requires k in {Audio, Video} && |p| >= 2
    ensures match PropsOf(k, p)
            case AudioProps(format, rate, size, channel, dataType) =>
              k == Audio && rate < 4 && size < 2 && channel < 2
              && p[..2] == [16 * format + 4 * rate + 2 * size + channel, dataType]
            case VideoProps(frameType, codec, dataType, keyframe) =>
              k == Video && codec < 16 && p[..2] == [16 * frameType + codec, dataType]
              && (keyframe <==> frameType in {1, 4})
            case NoProps => false
  {
    AudioBits(p[0]);
    assert p[0] == 16 * (p[0] / 16) + p[0] % 16;
    assert p[..2] == [p[0], p[1]];
  }

  function EventFor(p: Filling): Event
    requires p.kind in {Audio, Video} ==> |p.received| >= 2
  {
    Event(p.kind, p.length, p.timestamp, p.streamID, p.received, if p.kind in {Audio, Video} then 1 else 0,
          PropsOf(p.kind, p.received))
  }

  /** A dispatched packet has these fields, its properties set and its position behind the octets they
      were taken from that are not payload proper. */
  predicate Shows(e: Event, kind: Kind, timestamp: nat, streamID: nat, payload: seq<byte>) {
    && e.kind == kind && e.length == |payload| && e.payload == payload
    && e.timestamp == timestamp && e.streamID == streamID
    && (kind in {Audio, Video} ==> |payload| >= 2)
    && e.position == (if kind in {Audio, Video} then 1 else 0) && e.props == PropsOf(kind, payload)
  }

  /** The payload is complete: dispatch the packet and expect a back pointer. */
  function Finish(s: Demuxer): Outcome {
    var p := s.packet;
    if p.kind in {Audio, Video} && |p.received| < 2 then Stopped(s, ShortMedia)
    else
      var e := EventFor(p);
      Going(s.(phase := Back0, out := s.out + [e], packet := p.(received := p.received[..e.position])))
  }

  function Receive(s: Demuxer, d: seq<byte>): Demuxer {
    s.(packet := s.packet.(received := s.packet.received + d))
  }

  function Complete(s: Demuxer): Outcome {
    if |s.packet.received| == s.packet.length then Finish(s) else Going(s)
  }

  function BackStep(s: Demuxer, b: byte): Demuxer
    requires RegionOf(s.phase) == InPointer
  {
    match s.phase
    case Back0 => s.(backpointer := b * TWO24, phase := Back1)
    case Back1 => s.(backpointer := s.backpointer + b * TWO16, phase := Back2)
    case Back2 => s.(backpointer := s.backpointer + b * TWO8, phase := Back3)
    case Back3 => s.(backpointer := s.backpointer + b, phase := Type)
  }

  /** A packet of declared length 0 is dispatched first; the octet then starts its back pointer. */
  function PayloadStep(s: Demuxer, b: byte): Outcome {
    if |s.packet.received| == s.packet.length then
      match Finish(s)
      case Stopped(at, e) => Stopped(at, e)
      case Going(t) => Going(BackStep(t, b))
    else Complete(Receive(s, [b]))
  }

  function TagStep(s: Demuxer, b: byte): Outcome
    requires RegionOf(s.phase) == InTag
  {
    var p := s.packet;
    match s.phase
    case Type =>
      var t := s.(packet := NO_PACKET.(kind := KindOf(b)));
      if KindOf(b) == Unknown then Stopped(t, UnknownTag) else Going(t.(phase := Length0))
    case Length0 => Going(s.(packet := p.(length := b * TWO16), phase := Length1))
    case Length1 => Going(s.(packet := p.(length := p.length + b * TWO8), phase := Length2))
    case Length2 => Going(s.(packet := p.(length := p.length + b, received := []), phase := Time0))
    case Time0 => Going(s.(packet := p.(timestamp := b * TWO16), phase := Time1))
    case Time1 => Going(s.(packet := p.(timestamp := p.timestamp + b * TWO8), phase := Time2))
    case Time2 => Going(s.(packet := p.(timestamp := p.timestamp + b), phase := Time3))
    case Time3 => Going(s.(packet := p.(timestamp := p.timestamp + b * TWO24), phase := Stream0))
    case Stream0 => Going(s.(packet := p.(streamID := b * TWO16), phase := Stream1))
    case Stream1 => Going(s.(packet := p.(streamID := p.streamID + b * TWO8), phase := Stream2))
    case Stream2 => Going(s.(packet := p.(streamID := p.streamID + b), phase := Payload))
  }

  /** The file header: only the signature is checked. */
  function FileStep(s: Demuxer, b: byte): Outcome
    requires RegionOf(s.phase) == InFile
  {
    match s.phase
    case SigF => if b == 0x46 then Going(s.(phase := SigL)) else Stopped(s, NotFlv)
    case SigL => if b == 0x4C then Going(s.(phase := SigV)) else Stopped(s, NotFlv)
    case SigV => if b == 0x56 then Going(s.(phase := Version)) else Stopped(s, NotFlv)
    case Version => Going(s.(phase := Flags))
    case Flags => Going(s.(hasAudio := b / 4 % 2 == 1, hasVideo := b % 2 == 1, phase := Header0))
    case Header0 => Going(s.(phase := Header1))
    case Header1 => Going(s.(phase := Header2))
    case Header2 => Going(s.(phase := Header3))
    case Header3 => Going(s.(phase := Back0))
  }

  function Step(s: Demuxer, b: byte): Outcome {
    match RegionOf(s.phase)
    case InFile => FileStep(s, b)
    case InPointer => Going(BackStep(s, b))
    case InTag => TagStep(s, b)
    case InBody => PayloadStep(s, b)
  }

  function Run(s: Demuxer, data: seq<byte>): Outcome
    decreases |data|
  {
    if data == [] then Going(s)
    else match Step(s, data[0])
      case Stopped(at, e) => Stopped(at, e)
      case Going(t) => Run(t, data[1..])
  }

  function AndThen(o: Outcome, data: seq<byte>): Outcome {
    match o
    case Stopped(at, e) => Stopped(at, e)
    case Going(t) => Run(t, data)
  }

  lemma {:induction false} RunAppend(s: Demuxer, a: seq<byte>, b: seq<byte>)
    ensures Run(s, a + b) == AndThen(Run(s, a), b)
    decreases |a|
  {
    if a == [] {
      assert a + b == b;
    } else {
      assert (a + b)[1..] == a[1..] + b;
      var o := Step(s, a[0]);
      if o.Going? {
        RunAppend(o.state, a[1..], b);
      }
    }
  }

  /** Successive calls of Append. A call that stops only drops the rest of its own input. */
  function Appends(s: Demuxer, pieces: seq<seq<byte>>): Demuxer
    decreases |pieces|
  {
    if pieces == [] then s
    else
      var o := Run(s, pieces[0]);
      Appends(if o.Going? then o.state else o.at, pieces[1..])
  }

  /** Without an error, how the input is cut makes no difference. */
  lemma {:induction false} Segmentation(s: Demuxer, pieces: seq<seq<byte>>)
    requires Run(s, Concat(pieces)).Going?
    ensures Run(s, Concat(pieces)) == Going(Appends(s, pieces))
    decreases |pieces|
  {
    if pieces != [] {
      RunAppend(s, pieces[0], Concat(pieces[1..]));
      Segmentation(Run(s, pieces[0]).state, pieces[1..]);
    }
  }

  /** Copying several payload octets at once is feeding them one at a time. */
  lemma {:induction false} BulkCopy(s: Demuxer, d: seq<byte>, rest: seq<byte>)
    requires s.phase == Payload && 0 < |d| <= s.packet.length - |s.packet.received|
    ensures Run(s, d + rest) == AndThen(Complete(Receive(s, d)), rest)
    decreases |d|
  {
    hide BackStep, Finish;
    assert (d + rest)[0] == d[0] && (d + rest)[1..] == d[1..] + rest;
    if |d| == 1 {
      assert d == [d[0]] && d[1..] + rest == rest;
    } else {
      var t := Receive(s, [d[0]]);
      assert Step(s, d[0]) == Going(t);
      BulkCopy(t, d[1..], rest);
      assert s.packet.received + [d[0]] + d[1..] == s.packet.received + d;
    }
  }

  // ---- one tag -------------------------------------------------------------

  lemma {:induction false} RunCons(s: Demuxer, b: byte, t: Demuxer, rest: seq<byte>)
    requires Step(s, b) == Going(t)
    ensures Run(s, [b] + rest) == Run(t, rest)
  {
    hide Step;
    assert ([b] + rest)[1..] == rest;
  }

  lemma {:induction false} RunTwo(s: Demuxer, x: seq<byte>, t: Demuxer, u: Demuxer, rest: seq<byte>)
    requires |x| == 2 && Step(s, x[0]) == Going(t) && Step(t, x[1]) == Going(u)
    ensures Run(s, x + rest) == Run(u, rest)
  {
    hide Step, Run;
    assert x + rest == [x[0]] + ([x[1]] + rest);
    RunCons(s, x[0], t, [x[1]] + rest);
    RunCons(t, x[1], u, rest);
  }

  lemma {:induction false} RunFour(s: Demuxer, x: seq<byte>, t: Demuxer, u: Demuxer, v: Demuxer, w: Demuxer,
      rest: seq<byte>)
    requires |x| == 4 && Step(s, x[0]) == Going(t) && Step(t, x[1]) == Going(u)
    requires Step(u, x[2]) == Going(v) && Step(v, x[3]) == Going(w)
    ensures Run(s, x + rest) == Run(w, rest)
  {
    hide Step, Run;
    assert x + rest == x[..2] + (x[2..] + rest);
    RunTwo(s, x[..2], t, u, x[2..] + rest);
    RunTwo(u, x[2..], v, w, rest);
  }

  /** What a three-octet field of a tag header sets. */
  function SetField(s: Demuxer, n: nat): Demuxer {
    var p := s.packet;
    match s.phase
    case Length0 => s.(packet := p.(length := n, received := []), phase := Time0)
    case Time0 => s.(packet := p.(timestamp := n), phase := Time3)
    case _ => s.(packet := p.(streamID := n), phase := Payload)
  }

  lemma {:induction false} ThreeOctets(s: Demuxer, x: seq<byte>)
    requires |x| == 3 && s.phase in {Length0, Time0, Stream0}
    ensures Step(s, x[0]).Going? && Step(Step(s, x[0]).state, x[1]).Going?
    ensures Step(Step(Step(s, x[0]).state, x[1]).state, x[2]) == Going(SetField(s, Value3(x[0], x[1], x[2])))
  {
    hide FileStep, BackStep, PayloadStep;
  }

  /** A three-octet field of a tag header. */
  lemma {:induction false} RunThree(s: Demuxer, x: seq<byte>, rest: seq<byte>)
    requires |x| == 3 && s.phase in {Length0, Time0, Stream0}
    ensures Run(s, x + rest) == Run(SetField(s, Value3(x[0], x[1], x[2])), rest)
  {
    ThreeOctets(s, x);
    hide Run, Step, SetField;
    var t := Step(s, x[0]).state;
    var u := Step(t, x[1]).state;
    assert x + rest == x[..2] + ([x[2]] + rest);
    RunTwo(s, x[..2], t, u, [x[2]] + rest);
    RunCons(u, x[2], SetField(s, Value3(x[0], x[1], x[2])), rest);
  }

  lemma {:induction false} BackOctets(s: Demuxer, x: seq<byte>)
    requires |x| == 4 && s.phase == Back0
    ensures BackStep(BackStep(BackStep(BackStep(s, x[0]), x[1]), x[2]), x[3])
            == s.(backpointer := Value4(x[0], x[1], x[2], x[3]), phase := Type)
  {
  }

  lemma {:induction false} StepBack(s: Demuxer, b: byte)
    requires s.phase in {Back0, Back1, Back2, Back3}
    ensures Step(s, b) == Going(BackStep(s, b))
    ensures BackStep(s, b).phase
            == match s.phase
               case Back0 => Back1
               case Back1 => Back2
               case Back2 => Back3
               case _ => Type
  {
    hide PayloadStep, TagStep, FileStep;
  }

  lemma {:induction false} RunBack(s: Demuxer, back: nat, rest: seq<byte>)
    requires s.phase == Back0 && back < TWO32
    ensures Run(s, BE4(back) + rest) == Run(s.(backpointer := back, phase := Type), rest)
  {
    hide Run, BE4, Value4, Step, BackStep;
    var x := BE4(back);
    BackOctets(s, x);
    Wire4(back);
    var t := BackStep(s, x[0]);
    StepBack(s, x[0]);
    var u := BackStep(t, x[1]);
    StepBack(t, x[1]);
    var v := BackStep(u, x[2]);
    StepBack(u, x[2]);
    StepBack(v, x[3]);
    RunFour(s, x, t, u, v, BackStep(v, x[3]), rest);
  }

  /** The packet a tag header announces. */
  function Announced(t: Tag): Filling {
    Filling(KindOf(t.typ), |t.payload|, t.timestamp, t.streamID, [])
  }

  lemma {:induction false} RunTypeAndLength(s: Demuxer, typ: byte, n: nat, rest: seq<byte>)
    requires s.phase == Type && KindOf(typ) != Unknown && n < TWO24
    ensures Run(s, [typ] + (BE3(n) + rest))
            == Run(s.(packet := NO_PACKET.(kind := KindOf(typ), length := n), phase := Time0), rest)
  {
    Wire3(n);
    hide Run, BE3, Value3, PayloadStep, BackStep, FileStep;
    var s1 := s.(packet := NO_PACKET.(kind := KindOf(typ)), phase := Length0);
    RunCons(s, typ, s1, BE3(n) + rest);
    RunThree(s1, BE3(n), rest);
  }

  /** The fourth timestamp octet is the most significant one. */
  lemma {:induction false} RunTime(s: Demuxer, time: nat, rest: seq<byte>)
    requires s.phase == Time0 && time < TWO32
    ensures Run(s, BE3(time) + ([time / TWO24 % TWO8] + rest))
            == Run(s.(packet := s.packet.(timestamp := time), phase := Stream0), rest)
  {
    Wire3(time);
    hide Run, BE3, Value3, PayloadStep, BackStep, FileStep;
    var y := time / TWO24 % TWO8;
    RunThree(s, BE3(time), [y] + rest);
    var s3 := s.(packet := s.packet.(timestamp := time % TWO24), phase := Time3);
    var s4 := s.(packet := s.packet.(timestamp := time), phase := Stream0);
    TimeParts(time);
    assert Step(s3, y) == Going(s4);
    hide Step;
    RunCons(s3, y, s4, rest);
  }

  lemma {:induction false} RunTagHeader(s: Demuxer, t: Tag, rest: seq<byte>)
    requires s.phase == Type && Fits(t) && KindOf(t.typ) != Unknown
    ensures Run(s, TagHeader(t) + rest) == Run(s.(packet := Announced(t), phase := Payload), rest)
  {
    hide Run, BE3;
    var n, x, y, z := BE3(|t.payload|), BE3(t.timestamp), t.timestamp / TWO24 % TWO8, BE3(t.streamID);
    assert TagHeader(t) + rest == [t.typ] + (n + (x + ([y] + (z + rest))));
    RunTypeAndLength(s, t.typ, |t.payload|, x + ([y] + (z + rest)));
    var s2 := s.(packet := NO_PACKET.(kind := KindOf(t.typ), length := |t.payload|), phase := Time0);
    RunTime(s2, t.timestamp, z + rest);
    Wire3(t.streamID);
    hide Value3;
    RunThree(s2.(packet := s2.packet.(timestamp := t.timestamp), phase := Stream0), z, rest);
  }

  function EventOf(t: Tag): Event
    requires Readable(t.typ, |t.payload|)
  {
    EventFor(Announced(t).(received := t.payload))
  }

  /** After a whole tag the demuxer waits for the next one. */
  function AfterTag(s: Demuxer, t: Tag): Demuxer
    requires Readable(t.typ, |t.payload|)
  {
    var e := EventOf(t);
    s.(phase := Type, backpointer := t.back, out := s.out + [e],
       packet := Announced(t).(received := t.payload[..e.position]))
  }

  lemma {:induction false} RunPayload(s: Demuxer, t: Tag, b: byte, rest: seq<byte>)
    requires s.phase == Payload && s.packet == Announced(t) && Readable(t.typ, |t.payload|)
    ensures Run(s, t.payload + ([b] + rest))
            == Run(AfterTag(s, t).(phase := Back0, backpointer := s.backpointer), [b] + rest)
  {
    var u := AfterTag(s, t).(phase := Back0, backpointer := s.backpointer);
    if t.payload == [] {
      assert t.payload + ([b] + rest) == [b] + rest;
      assert Finish(s) == Going(u);
      RunCons(s, b, BackStep(u, b), rest);
      RunCons(u, b, BackStep(u, b), rest);
    } else {
      BulkCopy(s, t.payload, [b] + rest);
      assert s.packet.received + t.payload == t.payload;
      assert Complete(Receive(s, t.payload)) == Going(u);
    }
  }

  lemma {:induction false} RunTag(s: Demuxer, t: Tag, rest: seq<byte>)
    requires s.phase == Type && Fits(t) && Readable(t.typ, |t.payload|)
    ensures Run(s, TagOctets(t) + rest) == Run(AfterTag(s, t), rest)
  {
    hide Run, BE4, TagHeader;
    var b := BE4(t.back);
    assert TagOctets(t) + rest == TagHeader(t) + (t.payload + ([b[0]] + (b[1..] + rest)));
    RunTagHeader(s, t, t.payload + ([b[0]] + (b[1..] + rest)));
    var s1 := s.(packet := Announced(t), phase := Payload);
    RunPayload(s1, t, b[0], b[1..] + rest);
    assert [b[0]] + (b[1..] + rest) == b + rest;
    hide EventOf;
    RunBack(AfterTag(s1, t).(phase := Back0, backpointer := s.backpointer), t.back, rest);
  }

  // ---- whole streams -------------------------------------------------------

  predicate AllReadable(ts: seq<Tag>)
    decreases |ts|
  {
    ts != [] ==> Fits(ts[0]) && Readable(ts[0].typ, |ts[0].payload|) && AllReadable(ts[1..])
  }

  function AfterTags(s: Demuxer, ts: seq<Tag>): Demuxer
    requires AllReadable(ts)
    decreases |ts|
  {
    if ts == [] then s else AfterTags(AfterTag(s, ts[0]), ts[1..])
  }

  function Events(ts: seq<Tag>): seq<Event>
    requires AllReadable(ts)
    decreases |ts|
  {
    if ts == [] then [] else [EventOf(ts[0])] + Events(ts[1..])
  }

  lemma {:induction false} RunNone(s: Demuxer)
    ensures Run(s, []) == Going(s)
  {
  }

  lemma {:induction false} TagsCons(s: Demuxer, ts: seq<Tag>)
    requires ts != [] && AllReadable(ts)
    ensures Fits(ts[0]) && Readable(ts[0].typ, |ts[0].payload|) && AllReadable(ts[1..])
    ensures StreamOctets(ts) == TagOctets(ts[0]) + StreamOctets(ts[1..])
    ensures AfterTags(s, ts) == AfterTags(AfterTag(s, ts[0]), ts[1..])
    ensures Events(ts) == [EventOf(ts[0])] + Events(ts[1..])
  {
    hide TagOctets, EventOf, AfterTag, Fits, Readable;
  }

  lemma {:induction false} AfterTagOut(s: Demuxer, t: Tag)
    requires Readable(t.typ, |t.payload|)
    ensures AfterTag(s, t).phase == Type && AfterTag(s, t).out == s.out + [EventOf(t)]
    ensures Shows(EventOf(t), KindOf(t.typ), t.timestamp, t.streamID, t.payload)
  {
  }

  /** A stream of readable tags dispatches one packet per tag and ends between tags. */
  lemma {:induction false} RunStream(s: Demuxer, ts: seq<Tag>)
    requires s.phase == Type && AllReadable(ts)
    ensures Run(s, StreamOctets(ts)) == Going(AfterTags(s, ts))
    ensures AfterTags(s, ts).phase == Type && AfterTags(s, ts).out == s.out + Events(ts)
    decreases |ts|
  {
    if ts == [] {
      RunNone(s);
      assert s.out + [] == s.out;
    } else {
      TagsCons(s, ts);
      hide Run, TagOctets, EventOf, AfterTag, AfterTags, Events, Fits, Readable, AllReadable, StreamOctets;
      RunTag(s, ts[0], StreamOctets(ts[1..]));
      AfterTagOut(s, ts[0]);
      RunStream(AfterTag(s, ts[0]), ts[1..]);
      Assoc(s.out, [EventOf(ts[0])], Events(ts[1..]));
    }
  }

  /** The file header takes a fresh demuxer to the first tag. */
  lemma {:induction false} RunHeader(mode: nat, rest: seq<byte>)
    ensures Run(INITIAL, FlvHeader(mode) + rest)
            == Run(INITIAL.(phase := Type, hasAudio := mode / 4 % 2 == 1, hasVideo := mode % 2 == 1), rest)
  {
    var h := FlvHeader(mode);
    var s5 := INITIAL.(phase := Header0, hasAudio := mode / 4 % 2 == 1, hasVideo := mode % 2 == 1);
    RunSignature(mode, h[5..] + rest);
    assert h + rest == h[..5] + (h[5..] + rest);
    RunSize(s5, h[9..] + rest);
    assert h[5..] + rest == [0, 0, 0, 9] + (h[9..] + rest);
    RunBack(s5.(phase := Back0), 0, rest);
    assert h[9..] == BE4(0);
  }

  lemma {:induction false} RunSignature(mode: nat, rest: seq<byte>)
    ensures Run(INITIAL, FlvHeader(mode)[..5] + rest)
            == Run(INITIAL.(phase := Header0, hasAudio := mode / 4 % 2 == 1, hasVideo := mode % 2 == 1), rest)
  {
    hide Run;
    var h := FlvHeader(mode);
    var s4 := INITIAL.(phase := Flags);
    assert h[..5] + rest == h[..4] + ([h[4]] + rest);
    RunFour(INITIAL, h[..4], INITIAL.(phase := SigL), INITIAL.(phase := SigV), INITIAL.(phase := Version), s4,
        [h[4]] + rest);
    RunCons(s4, h[4], s4.(phase := Header0, hasAudio := mode / 4 % 2 == 1, hasVideo := mode % 2 == 1), rest);
  }

  /** Of the first three octets exactly the signature is accepted. */
  lemma {:induction false} SignatureExact(d: seq<byte>)
    requires |d| == 3
    ensures Run(INITIAL, d) == Going(INITIAL.(phase := Version)) <==> d == [0x46, 0x4C, 0x56]
    ensures d != [0x46, 0x4C, 0x56] ==> Run(INITIAL, d).Stopped? && Run(INITIAL, d).error == NotFlv
  {
    hide Run;
    assert d == [d[0], d[1], d[2]];
    var s1, s2 := INITIAL.(phase := SigL), INITIAL.(phase := SigV);
    RunFirst(INITIAL, d);
    RunFirst(s1, d[1..]);
    RunFirst(s2, d[1..][1..]);
    RunNone(INITIAL.(phase := Version));
    assert d[1..][1..][1..] == [];
  }

  lemma {:induction false} RunFirst(s: Demuxer, d: seq<byte>)
    requires d != []
    ensures Run(s, d) == AndThen(Step(s, d[0]), d[1..])
  {
    hide Step;
  }

  lemma {:induction false} RunSize(s: Demuxer, rest: seq<byte>)
    requires s.phase == Header0
    ensures Run(s, [0, 0, 0, 9] + rest) == Run(s.(phase := Back0), rest)
  {
    RunFour(s, [0, 0, 0, 9], s.(phase := Header1), s.(phase := Header2), s.(phase := Header3), s.(phase := Back0),
        rest);
  }

  /** The packets a demuxer should dispatch for muxed ones. */
  predicate Muxable(p: Packet) {
    p.kind != Unknown && |p.payload| == p.length < TWO24 && (p.kind != Script ==> p.length >= 2)
  }

  predicate AllMuxable(ps: seq<Packet>)
    decreases |ps|
  {
    ps != [] ==> Muxable(ps[0]) && AllMuxable(ps[1..])
  }

  function TagsFor(ps: seq<Packet>, timeBase: nat): seq<Tag>
    decreases |ps|
  {
    if ps == [] then [] else [TagFor(ps[0], timeBase)] + TagsFor(ps[1..], timeBase)
  }

  function EventOfPacket(p: Packet, timeBase: nat): Event
    requires Muxable(p)
  {
    EventFor(Filling(p.kind, p.length, (p.timestamp - timeBase) % TWO32, 0, p.payload))
  }

  function EventsFor(ps: seq<Packet>, timeBase: nat): seq<Event>
    requires AllMuxable(ps)
    decreases |ps|
  {
    if ps == [] then [] else [EventOfPacket(ps[0], timeBase)] + EventsFor(ps[1..], timeBase)
  }

  lemma {:induction false} MuxedTag(p: Packet, timeBase: nat)
    requires Muxable(p)
    ensures var t := TagFor(p, timeBase);
            Fits(t) && Readable(t.typ, |t.payload|) && EventOf(t) == EventOfPacket(p, timeBase)
  {
    assert p.payload[..p.length] == p.payload;
  }

  lemma {:induction false} MuxedTags(ps: seq<Packet>, timeBase: nat)
    requires AllMuxable(ps)
    ensures AllReadable(TagsFor(ps, timeBase)) && Events(TagsFor(ps, timeBase)) == EventsFor(ps, timeBase)
    decreases |ps|
  {
    if ps != [] {
      MuxedTags(ps[1..], timeBase);
      MuxedTag(ps[0], timeBase);
      assert TagsFor(ps, timeBase)[1..] == TagsFor(ps[1..], timeBase);
      hide Fits, Readable, EventOf, EventOfPacket, TagFor;
    }
  }

  lemma {:induction false} EachShown(ps: seq<Packet>, timeBase: nat, i: nat)
    requires AllMuxable(ps) && i < |ps|
    ensures |EventsFor(ps, timeBase)| == |ps|
    ensures var p := ps[i];
            Shows(EventsFor(ps, timeBase)[i], p.kind, (p.timestamp - timeBase) % 0x1_0000_0000, 0, p.payload)
    decreases |ps|
  {
    hide Shows;
    assert Shows(EventOfPacket(ps[0], timeBase), ps[0].kind, (ps[0].timestamp - timeBase) % 0x1_0000_0000, 0,
                 ps[0].payload) by {
      PacketShown(ps[0], timeBase);
    }
    if |ps| > 1 {
      EachShown(ps[1..], timeBase, if i > 0 then i - 1 else 0);
    }
  }

  lemma {:induction false} PacketShown(p: Packet, timeBase: nat)
    requires Muxable(p)
    ensures Shows(EventOfPacket(p, timeBase), p.kind, (p.timestamp - timeBase) % 0x1_0000_0000, 0, p.payload)
  {
  }

  /** The packets, in order, are those that were muxed: same kind and payload, stream id 0, timestamps
      relative to the time base modulo 2^32. */
  predicate Returned(out: seq<Event>, ps: seq<Packet>, timeBase: nat) {
    |out| == |ps| && forall i | 0 <= i < |ps| ::
      Shows(out[i], ps[i].kind, (ps[i].timestamp - timeBase) % 0x1_0000_0000, 0, ps[i].payload)
  }

  lemma {:induction false} AllShown(ps: seq<Packet>, timeBase: nat)
    requires AllMuxable(ps)
    ensures Returned(EventsFor(ps, timeBase), ps, timeBase)
  {
    hide Muxable, Shows;
    forall i | 0 <= i < |ps|
      ensures |EventsFor(ps, timeBase)| == |ps|
              && Shows(EventsFor(ps, timeBase)[i], ps[i].kind, (ps[i].timestamp - timeBase) % 0x1_0000_0000, 0,
                       ps[i].payload)
    {
      EachShown(ps, timeBase, i);
    }
    if ps == [] {
      assert EventsFor(ps, timeBase) == [];
    }
  }

  /** A muxed file, cut into any pieces, comes out of a fresh demuxer packet by packet. */
  lemma {:induction false} FileRoundTrip(mode: nat, ps: seq<Packet>, timeBase: nat, pieces: seq<seq<byte>>)
    requires AllMuxable(ps)
    requires Concat(pieces) == FlvHeader(mode) + StreamOctets(TagsFor(ps, timeBase))
    ensures var s := Appends(INITIAL, pieces);
            && s.phase == Type && Returned(s.out, ps, timeBase)
            && s.hasAudio == (mode / 4 % 2 == 1) && s.hasVideo == (mode % 2 == 1)
  {
    hide Muxable, Returned, FlvHeader, StreamOctets, TagFor, EventOf, EventOfPacket, Run;
    MuxedTags(ps, timeBase);
    AllShown(ps, timeBase);
    var ts := TagsFor(ps, timeBase);
    RunHeader(mode, StreamOctets(ts));
    var s := INITIAL.(phase := Type, hasAudio := mode / 4 % 2 == 1, hasVideo := mode % 2 == 1);
    RunStream(s, ts);
    assert s.out + EventsFor(ps, timeBase) == EventsFor(ps, timeBase);
    FlagsKept(s, ts);
    Segmentation(INITIAL, pieces);
  }

  lemma {:induction false} FlagsKept(s: Demuxer, ts: seq<Tag>)
    requires AllReadable(ts)
    ensures AfterTags(s, ts).hasAudio == s.hasAudio && AfterTags(s, ts).hasVideo == s.hasVideo
    decreases |ts|
  {
    if ts != [] {
      FlagsKept(AfterTag(s, ts[0]), ts[1..]);
    }
  }

  /** The back pointers of a muxed file lead from its end through every packet to its header. */
  lemma {:induction false} MuxedBackWalk(mode: nat, ps: seq<Packet>, timeBase: nat)
    requires AllMuxable(ps)
    ensures var ts := TagsFor(ps, timeBase);
            var file := FlvHeader(mode) + StreamOctets(ts);
            |ts| == |ps| && Walk(file, |file|) == (StartsReversed(13, ts), 13)
  {
    hide FlvHeader, StreamOctets, Walk, StartsReversed;
    PointersBack(ps, timeBase);
    BackWalk(mode, TagsFor(ps, timeBase));
  }

  lemma {:induction false} PointersBack(ps: seq<Packet>, timeBase: nat)
    requires AllMuxable(ps)
    ensures var ts := TagsFor(ps, timeBase);
            |ts| == |ps| && forall t <- ts :: PointsBack(t) && |t.payload| + 11 < TWO32
    decreases |ps|
  {
    if ps != [] {
      PointersBack(ps[1..], timeBase);
    }
  }
}
