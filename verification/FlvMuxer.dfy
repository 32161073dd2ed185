/** The FLV object: Append and format as they work on packets and buffers in place. */
module FlvMuxer {
  import opened Bytes
  import opened FlvTag
  import opened FlvDemuxer

  /** av.Packet: the payload is a buffer of the declared length, filled up to position. */
  class PacketObject {
    var kind: Kind
    var length: nat
    var timestamp: nat
    var streamID: nat
    var payload: array<byte>
    var position: nat

    constructor (kind: Kind)
      ensures this.kind == kind && length == timestamp == streamID == position == 0
      ensures fresh(payload) && payload.Length == 0
    {
      this.kind := kind;
      length, timestamp, streamID, position := 0, 0, 0, 0;
      payload := new byte[0];
    }
  }

  /** s with the octets from position at on replaced by src. */
  function Overwrite(s: seq<byte>, at: nat, src: seq<byte>): seq<byte>
    requires at + |src| <= |s|
  {
    s[..at] + src + s[at + |src|..]
  }

  /** The built-in copy. */
  method Copy(dst: array<byte>, at: nat, src: seq<byte>)
    requires at + |src| <= dst.Length
    modifies dst
    ensures dst[..] == Overwrite(old(dst[..]), at, src)
  {
    var k := 0;
    while k < |src|
      invariant k <= |src|
      invariant forall j | 0 <= j < dst.Length :: dst[j] == if at <= j < at + k then src[j - at] else old(dst[j])
    {
      dst[at + k] := src[k];
      k := k + 1;
    }
    assert dst[..] == Overwrite(old(dst[..]), at, src);
  }

  /** Header, fitted payload and back pointer laid over a zeroed buffer. */
  lemma {:induction false} Layout(h: seq<byte>, payload: seq<byte>, n: nat, b: seq<byte>)
    ensures var zeros := seq(|h| + n + |b|, _ => 0);
            var d := if |payload| < n then payload else payload[..n];
            Overwrite(Overwrite(Overwrite(zeros, 0, h), |h|, d), |h| + n, b) == h + Fitted(payload, n) + b
  {
    var zeros: seq<byte> := seq(|h| + n + |b|, _ => 0);
    var d := if |payload| < n then payload else payload[..n];
    var rest: seq<byte> := seq(n - |d|, _ => 0);
    assert Overwrite(zeros, 0, h) == h + zeros[|h|..];
    var z := Overwrite(h + zeros[|h|..], |h|, d);
    assert z == h + d + zeros[|h| + |d|..];
    assert Fitted(payload, n) == d + rest;
    hide Fitted;
    assert z[..|h| + n] == h + (d + rest);
  }

  /** A zeroed buffer, filled from the front. */
  method Lay(h: seq<byte>, payload: seq<byte>, n: nat, b: seq<byte>) returns (a: array<byte>)
    ensures fresh(a) && a[..] == h + Fitted(payload, n) + b
  {
    hide Overwrite, Fitted;
    var d := if |payload| < n then payload else payload[..n];
    a := new byte[|h| + n + |b|](_ => 0);
    assert a[..] == seq(|h| + n + |b|, _ => 0);
    Layout(h, payload, n, b);
    Copy(a, 0, h);
    Copy(a, |h|, d);
    Copy(a, |h| + n, b);
  }

  lemma {:induction false} TagParts(p: Packet, timeBase: nat)
    ensures var time := (p.timestamp - timeBase) % TWO32;
            var h := [TypeOf(p.kind)] + BE3(p.length) + (BE3(time) + [time / TWO24 % TWO8]) + BE3(0);
            TagOctets(TagFor(p, timeBase)) == h + Fitted(p.payload, p.length) + BE4(p.length + 11)
  {
    hide BE3, BE4, Fitted, TypeOf;
  }

  class Flv {
    var state: Phase
    var hasAudio: bool
    var hasVideo: bool
    var backpointer: nat
    var packet: PacketObject
    var timeBase: nat
    var dispatched: seq<Event>

    constructor ()
      ensures Valid() && View() == INITIAL && fresh(packet) && fresh(packet.payload)
    {
      state, hasAudio, hasVideo, backpointer, timeBase, dispatched := SigF, false, false, 0, 0, [];
      packet := new PacketObject(Unknown);
    }

    /** The buffer has the declared length once that is known, and only known types get so far. */
    ghost predicate Valid()
      reads this, packet
    {
      && packet.position <= packet.payload.Length
      && (RegionOf(state) in {InTag, InBody} && state != Type ==> packet.kind != Unknown)
      && (state in {Time0, Time1, Time2, Time3, Stream0, Stream1, Stream2, Payload}
          ==> packet.payload.Length == packet.length)
    }

    ghost function View(): Demuxer
      reads this, packet, packet.payload
      requires Valid()
    {
      Demuxer(state, hasAudio, hasVideo, backpointer,
              Filling(packet.kind, packet.length, packet.timestamp, packet.streamID, packet.payload[..packet.position]),
              dispatched)
    }

    method FileOctet(b: byte) returns (err: Option<Error>)
      requires Valid() && RegionOf(state) == InFile
      modifies this`state, this`hasAudio, this`hasVideo
      ensures Valid()
      ensures match FileStep(old(View()), b)
              case Going(t) => err == None && View() == t
              case Stopped(at, e) => err == Some(e) && View() == at
    {
      err := None;
      match state
      case SigF => if b != 0x46 { return Some(NotFlv); } state := SigL;
      case SigL => if b != 0x4C { return Some(NotFlv); } state := SigV;
      case SigV => if b != 0x56 { return Some(NotFlv); } state := Version;
      case Version => state := Flags;
      case Flags => hasAudio, hasVideo, state := b / 4 % 2 == 1, b % 2 == 1, Header0;
      case Header0 => state := Header1;
      case Header1 => state := Header2;
      case Header2 => state := Header3;
      case Header3 => state := Back0;
    }

    method BackOctet(b: byte)
      requires Valid() && RegionOf(state) == InPointer
      modifies this`state, this`backpointer
      ensures Valid() && View() == BackStep(old(View()), b)
    {
      match state
      case Back0 => backpointer, state := b * TWO24, Back1;
      case Back1 => backpointer, state := backpointer + b * TWO16, Back2;
      case Back2 => backpointer, state := backpointer + b * TWO8, Back3;
      case Back3 => backpointer, state := backpointer + b, Type;
    }

    method TagOctet(b: byte) returns (err: Option<Error>)
      requires Valid() && RegionOf(state) == InTag
      modifies this`state, this`packet, packet
      ensures Valid() && (packet == old(packet) || fresh(packet))
      ensures packet.payload == old(packet.payload) || fresh(packet.payload)
      ensures match TagStep(old(View()), b)
              case Going(t) => err == None && View() == t
              case Stopped(at, e) => err == Some(e) && View() == at
    {
      err := None;
      match state
      case Type =>
        packet := new PacketObject(KindOf(b));
        if packet.kind == Unknown { return Some(UnknownTag); }
        state := Length0;
      case Length0 => packet.length, state := b * TWO16, Length1;
      case Length1 => packet.length, state := packet.length + b * TWO8, Length2;
      case Length2 =>
        packet.length := packet.length + b;
        packet.payload := new byte[packet.length];
        packet.position, state := 0, Time0;
      case Time0 => packet.timestamp, state := b * TWO16, Time1;
      case Time1 => packet.timestamp, state := packet.timestamp + b * TWO8, Time2;
      case Time2 => packet.timestamp, state := packet.timestamp + b, Time3;
      case Time3 => packet.timestamp, state := packet.timestamp + b * TWO24, Stream0;
      case Stream0 => packet.streamID, state := b * TWO16, Stream1;
      case Stream1 => packet.streamID, state := packet.streamID + b * TWO8, Stream2;
      case Stream2 => packet.streamID, state := packet.streamID + b, Payload;
    }

    /** Any octet outside a payload. */
    method HeaderOctet(b: byte) returns (err: Option<Error>)
      requires Valid() && state != Payload
      modifies this`state, this`hasAudio, this`hasVideo, this`backpointer, this`packet, packet
      ensures Valid() && (packet == old(packet) || fresh(packet))
      ensures packet.payload == old(packet.payload) || fresh(packet.payload)
      ensures match Step(old(View()), b)
              case Going(t) => err == None && View() == t
              case Stopped(at, e) => err == Some(e) && View() == at
    {
      hide FileStep, BackStep, TagStep;
      err := None;
      match RegionOf(state)
      case InFile => err := FileOctet(b);
      case InPointer => BackOctet(b);
      case InTag => err := TagOctet(b);
    }

    /** The payload is complete: set the properties, rewind the position and dispatch. */
    method Dispatch() returns (err: Option<Error>)
      requires Valid() && state == Payload && packet.position == packet.length
      modifies this`state, this`dispatched, packet`position
      ensures Valid()
      ensures match Finish(old(View()))
              case Going(t) => err == None && View() == t && state == Back0
              case Stopped(at, e) => err == Some(e) && View() == at
      ensures err == None
              ==> |dispatched| == |old(dispatched)| + 1 && dispatched[..|old(dispatched)|] == old(dispatched)
                  && Shows(dispatched[|old(dispatched)|], packet.kind, packet.timestamp, packet.streamID,
                           packet.payload[..])
    {
      var p := packet.payload;
      var props := NoProps;
      assert View().packet.received == p[..];
      if packet.kind in {Audio, Video} {
        if p.Length < 2 { return Some(ShortMedia); }
        if packet.kind == Audio {
          props := AudioProps(p[0] / 16, p[0] / 4 % 4, p[0] / 2 % 2, p[0] % 2, p[1]);
        } else {
          var frameType := p[0] / 16;
          props := VideoProps(frameType, p[0] % 16, p[1], frameType == 1 || frameType == 4);
        }
        packet.position := 1;
      } else {
        packet.position := 0;
      }
      dispatched := dispatched + [Event(packet.kind, packet.length, packet.timestamp, packet.streamID, p[..],
                                        packet.position, props)];
      state := Back0;
      return None;
    }

    /** The payload case: copy as much as the packet and the input allow. n is how far the loop
        index moves; it is 0 exactly for a packet of declared length 0. */
    method PayloadOctets(data: seq<byte>, i: nat) returns (n: nat, err: Option<Error>)
      requires Valid() && i < |data| && state == Payload
      modifies this`state, this`dispatched, packet, packet.payload
      ensures Valid() && packet.payload == old(packet.payload)
      ensures i + n <= |data|
      ensures err == None ==> Run(old(View()), data[i..]) == Run(View(), data[i + n..])
      ensures err == None && n == 0 ==> state == Back0
      ensures err.Some? ==> Run(old(View()), data[i..]) == Stopped(View(), err.value)
    {
      ghost var s := View();
      n := Min(packet.length - packet.position, |data| - i);
      var d := data[i..i + n];
      assert data[i..] == d + data[i + n..];
      Copy(packet.payload, packet.position, d);
      packet.position := packet.position + n;
      assert View() == Receive(s, d);
      if n > 0 {
        BulkCopy(s, d, data[i + n..]);
      } else {
        assert View() == s;
      }
      err := None;
      hide Finish, BackStep;
      if packet.position == packet.length {
        err := Dispatch();
      }
    }

    /** One call of Append: the same as feeding its octets to the demuxer one at a time. */
    method Append(data: seq<byte>) returns (err: Option<Error>)
      requires Valid()
      modifies this, packet, packet.payload
      ensures Valid() && timeBase == old(timeBase)
      ensures packet == old(packet) || fresh(packet)
      ensures packet.payload == old(packet.payload) || fresh(packet.payload)
      ensures match Run(old(View()), data)
              case Going(t) => err == None && View() == t
              case Stopped(at, e) => err == Some(e) && View() == at
    {
      hide Step, RegionOf;
      var i := 0;
      assert data[0..] == data;
      while i < |data|
        invariant i <= |data| && Valid() && timeBase == old(timeBase)
        invariant packet == old(packet) || fresh(packet)
        invariant packet.payload == old(packet.payload) || fresh(packet.payload)
        invariant Run(View(), data[i..]) == Run(old(View()), data)
        decreases |data| - i, if state == Payload then 1 else 0
      {
        err := None;
        if state == Payload {
          var n;
          n, err := PayloadOctets(data, i);
          i := i + n;
        } else {
          assert data[i..][1..] == data[i + 1..];
          err := HeaderOctet(data[i]);
          i := i + 1;
        }
        if err.Some? {
          return;
        }
      }
      return None;
    }

    /** FLV.format: the tag of a packet, or nothing for a packet of unknown kind. A length that
        wraps the 32-bit buffer size makes it panic. */
    method Format(p: Packet) returns (tag: Option<array<byte>>)
      requires p.length + 15 < TWO32
      ensures tag == None <==> p.kind == Unknown
      ensures tag.Some? ==> fresh(tag.value) && tag.value[..] == TagOctets(TagFor(p, timeBase))
    {
      if p.kind == Unknown {
        return None;
      }
      var n, back := p.length, p.length + 11;
      var time := (p.timestamp - timeBase) % TWO32;
      var h := [TypeOf(p.kind)] + BE3(n) + (BE3(time) + [time / TWO24 % TWO8]) + BE3(0);
      TagParts(p, timeBase);
      hide Fitted, TagFor, TagOctets;
      var a := Lay(h, p.payload, n, BE4(back));
      return Some(a);
    }
  }
}
