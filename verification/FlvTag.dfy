/** The FLV file header and tag layout, as FLV.Header and FLV.format write them. */
module FlvTag {
  import opened Bytes

  const KIND_AUDIO: byte := 0x08
  const KIND_VIDEO: byte := 0x09
  const KIND_SCRIPT: byte := 0x12

  /** One tag of a stream with the back pointer that follows it. */
  datatype Tag = Tag(typ: byte, timestamp: nat, streamID: nat, payload: seq<byte>, back: nat)

  /** Type, length, timestamp with its extension octet, stream id. */
  function TagHeader(t: Tag): (h: seq<byte>)
    ensures |h| == 11
  {
    [t.typ] + BE3(|t.payload|) + (BE3(t.timestamp) + [t.timestamp / TWO24 % TWO8]) + BE3(t.streamID)
  }

  function TagOctets(t: Tag): (o: seq<byte>)
    ensures |o| == 15 + |t.payload|
  {
    TagHeader(t) + t.payload + BE4(t.back)
  }

  function StreamOctets(ts: seq<Tag>): seq<byte>
    decreases |ts|
  {
    if ts == [] then [] else TagOctets(ts[0]) + StreamOctets(ts[1..])
  }

  /** Every field fits its width. */
  predicate Fits(t: Tag) {
    |t.payload| < TWO24 && t.timestamp < TWO32 && t.streamID < TWO24 && t.back < TWO32
  }

  /** The demuxer knows the type and looks at the first two octets of audio and video. */
  predicate Readable(typ: byte, length: nat) {
    typ == 0x12 || ((typ == 0x08 || typ == 0x09) && length >= 2)
  }

  /** ModeVideo and ModeAudio are bits 0 and 2. */
  function FlvHeader(mode: nat): (h: seq<byte>)
    ensures |h| == 13
  {
    var flags := (if mode % 2 == 1 then 0x01 else 0) + (if mode / 4 % 2 == 1 then 0x04 else 0);
    [0x46, 0x4C, 0x56, 0x01, flags, 0, 0, 0, 9, 0, 0, 0, 0]
  }

  /** Signature, version 1, the two flags, the length of the header, and a zero back pointer. */
  lemma {:induction false} FlvHeaderLayout(mode: nat)
    ensures var h := FlvHeader(mode);
            && h[..4] == [0x46, 0x4C, 0x56, 1] && h[4] == mode % 2 + 4 * (mode / 4 % 2)
            && Value4(h[5], h[6], h[7], h[8]) == 9 && Value4(h[9], h[10], h[11], h[12]) == 0
  {
  }

  datatype Kind = Unknown | Audio | Video | Script

  /** av.Packet as the muxer takes it: the length is a field of its own. */
  datatype Packet = Packet(kind: Kind, length: nat, timestamp: nat, streamID: nat, payload: seq<byte>)

  function TypeOf(k: Kind): byte {
    match k
    case Audio => KIND_AUDIO
    case Video => KIND_VIDEO
    case Script => KIND_SCRIPT
    case Unknown => 0
  }

  /** What copying a payload into a zeroed field of n octets leaves there. */
  function Fitted(payload: seq<byte>, n: nat): (r: seq<byte>)
    ensures |r| == n
  {
    if |payload| >= n then payload[..n] else payload + seq(n - |payload|, _ => 0)
  }

  /** The tag FLV.format builds: stream id 0, timestamps relative to the time base. */
  function TagFor(p: Packet, timeBase: nat): Tag {
    Tag(TypeOf(p.kind), (p.timestamp - timeBase) % TWO32, 0, Fitted(p.payload, p.length), p.length + 11)
  }

  /** The octets of the tag of a packet, section E.4.1 of the FLV file format. */
  lemma {:induction false} TagLayout(p: Packet, timeBase: nat)
    requires p.kind != Unknown && p.length < TWO24
    ensures var o := TagOctets(TagFor(p, timeBase));
            && |o| == p.length + 15
            && o[0] == (match p.kind case Audio => 8 case Video => 9 case _ => 18)
            && Value3(o[1], o[2], o[3]) == p.length
            && Value4(o[7], o[4], o[5], o[6]) == (p.timestamp - timeBase) % 0x1_0000_0000
            && o[8..11] == [0, 0, 0] && o[11..11 + p.length] == Fitted(p.payload, p.length)
            && Value4(o[p.length + 11], o[p.length + 12], o[p.length + 13], o[p.length + 14]) == p.length + 11
  {
    var t := TagFor(p, timeBase);
    hide BE3, BE4, Value3, Value4, Fitted, TagOctets;
    OctetsOfTag(t);
    Wire3(p.length);
    TimeOctets(t.timestamp);
    Wire4(p.length + 11);
    NoStream();
  }

  lemma {:induction false} NoStream()
    ensures BE3(0) == [0, 0, 0]
  {
  }

  lemma {:induction false} TimeParts(time: nat)
    requires time < TWO32
    ensures time % TWO24 + time / TWO24 % TWO8 * TWO24 == time
  {
  }

  lemma {:induction false} TimeOctets(time: nat)
    requires time < TWO32
    ensures var x := BE3(time); Value4(time / TWO24 % TWO8, x[0], x[1], x[2]) == time
  {
    var x, hi := BE3(time), time / TWO24 % TWO8;
    Wire3(time);
    TimeParts(time);
    hide BE3;
    assert Value4(hi, x[0], x[1], x[2]) == hi * TWO24 + Value3(x[0], x[1], x[2]);
    hide Value3, Value4;
  }

  lemma {:induction false} OctetsOfTag(t: Tag)
    ensures var o, n := TagOctets(t), |t.payload|;
            var l, x, b := BE3(n), BE3(t.timestamp), BE4(t.back);
            && o[0] == t.typ && o[1] == l[0] && o[2] == l[1] && o[3] == l[2]
            && o[4] == x[0] && o[5] == x[1] && o[6] == x[2] && o[7] == t.timestamp / TWO24 % TWO8
            && o[8..11] == BE3(t.streamID) && o[11..11 + n] == t.payload
            && o[n + 11] == b[0] && o[n + 12] == b[1] && o[n + 13] == b[2] && o[n + 14] == b[3]
  {
    hide BE3, BE4;
  }

  // ---- back pointers -------------------------------------------------------

  function Back(s: seq<byte>, p: nat): nat
    requires 4 <= p <= |s|
  {
    Value4(s[p - 4], s[p - 3], s[p - 2], s[p - 1])
  }

  /** Following back pointers from p towards the start: the tag starts visited, and where a zero
      pointer or the start of the file ends the walk. */
  function Walk(s: seq<byte>, p: nat): (r: (seq<nat>, nat))
    requires p <= |s|
    decreases p
  {
    if p < 4 || Back(s, p) == 0 || Back(s, p) + 4 > p then ([], p)
    else
      var start := p - 4 - Back(s, p);
      var (starts, stop) := Walk(s, start);
      ([start] + starts, stop)
  }

  /** Where the tags of a stream start, last one first. */
  function StartsReversed(base: nat, ts: seq<Tag>): seq<nat>
    decreases |ts|
  {
    if ts == [] then []
    else
      var n := |ts| - 1;
      [base + |StreamOctets(ts[..n])|] + StartsReversed(base, ts[..n])
  }

  /** The back pointer of a tag is the size of its header and payload. */
  predicate PointsBack(t: Tag) {
    t.back == |t.payload| + 11
  }

  lemma {:induction false} StreamAppend(a: seq<Tag>, b: seq<Tag>)
    ensures StreamOctets(a + b) == StreamOctets(a) + StreamOctets(b)
    decreases |a|
  {
    if a == [] {
      assert a + b == b;
    } else {
      assert (a + b)[1..] == a[1..] + b;
      StreamAppend(a[1..], b);
    }
  }

  lemma {:induction false} StreamOne(t: Tag)
    ensures StreamOctets([t]) == TagOctets(t)
  {
    assert [t][1..] == [];
  }

  /** The walk only looks at what precedes p. */
  lemma {:induction false} WalkPrefix(s: seq<byte>, more: seq<byte>, p: nat)
    requires p <= |s|
    ensures Walk(s + more, p) == Walk(s, p)
    decreases p
  {
    if 4 <= p {
      assert forall i | 0 <= i < |s| :: (s + more)[i] == s[i];
      if Back(s, p) != 0 && Back(s, p) + 4 <= p {
        WalkPrefix(s, more, p - 4 - Back(s, p));
      }
    }
  }

  /** In a file made of the header and tags, the walk from the end visits every tag start exactly
      once, in reverse, and stops right after the header's zero pointer. */
  lemma {:induction false} BackWalk(mode: nat, ts: seq<Tag>)
    requires forall t <- ts :: PointsBack(t) && |t.payload| + 11 < TWO32
    ensures var file := FlvHeader(mode) + StreamOctets(ts);
            Walk(file, |file|) == (StartsReversed(13, ts), 13)
    decreases |ts|
  {
    var h := FlvHeader(mode);
    hide TagOctets, TagHeader;
    if ts == [] {
      assert h + StreamOctets(ts) == h;
    } else {
      var n := |ts| - 1;
      var front, t := ts[..n], ts[n];
      assert ts == front + [t];
      StreamAppend(front, [t]);
      StreamOne(t);
      var before := h + StreamOctets(front);
      var file := h + StreamOctets(ts);
      assert file == before + TagOctets(t);
      LastPointer(before, t);
      BackWalk(mode, front);
      WalkPrefix(before, TagOctets(t), |before|);
      hide StreamOctets, FlvHeader, Back;
    }
  }

  lemma {:induction false} LastPointer(before: seq<byte>, t: Tag)
    requires t.back < TWO32
    ensures var file := before + TagOctets(t);
            Back(file, |file|) == t.back && |file| == |before| + |t.payload| + 15
  {
    Wire4(t.back);
    hide TagHeader;
    var b := BE4(t.back);
    var file := before + TagOctets(t);
    assert file[|file| - 4..] == b;
    assert file[|file| - 4] == b[0] && file[|file| - 3] == b[1] && file[|file| - 2] == b[2] && file[|file| - 1] == b[3];
  }
}
