/** The incremental demuxer and the one-shot parser accept the same tag streams and find the same
    packets in them. */
module FlvAgreement {
  import opened Bytes
  import opened FlvTag
  import opened FlvDemuxer
  import A = Aggregate

  /** The demuxer can read every message the one-shot parser found. */
  predicate Recognised(subs: seq<A.Sub>)
    decreases |subs|
  {
    subs != [] ==>
      && Readable(subs[0].typeID, subs[0].length)
      && |subs[0].payload| == subs[0].length
      && Recognised(subs[1..])
  }

  function EventOfSub(m: A.Sub): Event
    requires Readable(m.typeID, m.length) && |m.payload| == m.length
  {
    EventFor(Filling(KindOf(m.typeID), m.length, m.timestamp, m.streamID, m.payload))
  }

  function EventsOfSubs(subs: seq<A.Sub>): seq<Event>
    requires Recognised(subs)
    decreases |subs|
  {
    if subs == [] then [] else [EventOfSub(subs[0])] + EventsOfSubs(subs[1..])
  }

  /** The one-shot parser takes the data as a whole number of tags the demuxer can read. */
  predicate Accepted(data: seq<byte>) {
    var r := A.ParseFrom(data, 0);
    r.ok && r.index == |data| && Recognised(r.subs)
  }

  lemma {:induction false} ReadableTags(ts: seq<Tag>)
    requires A.AllFit(ts) && Recognised(A.SubsOf(ts))
    ensures AllReadable(ts) && Events(ts) == EventsOfSubs(A.SubsOf(ts))
    decreases |ts|
  {
    if ts != [] {
      assert A.SubsOf(ts)[1..] == A.SubsOf(ts[1..]);
      ReadableTags(ts[1..]);
      hide Fits, Readable, EventFor;
    }
  }

  /** What the one-shot parser accepts, the demuxer reads to the end with the same packets. */
  lemma {:induction false} AcceptedRuns(s: Demuxer, data: seq<byte>)
    requires s.phase == Type && Accepted(data)
    ensures var o := Run(s, data);
            o.Going? && o.state.phase == Type && o.state.out == s.out + EventsOfSubs(A.ParseFrom(data, 0).subs)
  {
    var ts := A.ParsedIsStream(data);
    assert data[..|data|] == data;
    ReadableTags(ts);
    hide Run, Recognised, Events, EventsOfSubs, StreamOctets, AllReadable;
    RunStream(s, ts);
  }

  // ---- the converse --------------------------------------------------------

  /** How far into a tag, or into a back pointer, the demuxer is. */
  function Rank(p: Phase): nat {
    match p
    case Back0 => 9 case Back1 => 10 case Back2 => 11 case Back3 => 12
    case Type => 13
    case Length0 => 14 case Length1 => 15 case Length2 => 16
    case Time0 => 17 case Time1 => 18 case Time2 => 19 case Time3 => 20
    case Stream0 => 21 case Stream1 => 22 case Stream2 => 23
    case Payload => 24
    case _ => 0
  }

  lemma {:induction false} StepClimbs(s: Demuxer, b: byte)
    requires RegionOf(s.phase) in {InTag, InPointer}
    ensures var o := Step(s, b); o.Going? ==> Rank(o.state.phase) == Rank(s.phase) + 1
  {
  }

  /** Each octet outside a payload takes the demuxer one phase further. */
  lemma {:induction false} Climb(s: Demuxer, d: seq<byte>)
    requires RegionOf(s.phase) in {InTag, InPointer}
    requires Rank(s.phase) + |d| <= (if RegionOf(s.phase) == InTag then 24 else 13)
    ensures var o := Run(s, d); o.Going? ==> Rank(o.state.phase) == Rank(s.phase) + |d|
    decreases |d|
  {
    if d != [] {
      StepClimbs(s, d[0]);
      hide Step;
      var o := Step(s, d[0]);
      if o.Going? && |d| > 1 {
        Climb(o.state, d[1..]);
      } else if o.Going? {
        assert d[1..] == [];
      }
    }
  }

  /** A payload that is not complete leaves the demuxer inside it. */
  lemma {:induction false} PartialPayload(s: Demuxer, d: seq<byte>)
    requires s.phase == Payload && |s.packet.received| + |d| < s.packet.length
    ensures Run(s, d).Going? && Run(s, d).state.phase == Payload
  {
    if d != [] {
      BulkCopy(s, d, []);
      assert d + [] == d;
      RunNone(Receive(s, d));
    }
  }

  /** Any eleven octets with a known type are a tag header. */
  lemma {:induction false} RunAnyHeader(s: Demuxer, h: seq<byte>, rest: seq<byte>)
    requires s.phase == Type && |h| == 11 && KindOf(h[0]) != Unknown
    ensures var p := Filling(KindOf(h[0]), Value3(h[1], h[2], h[3]), Value3(h[4], h[5], h[6]) + h[7] * TWO24,
                             Value3(h[8], h[9], h[10]), []);
            Run(s, h + rest) == Run(s.(packet := p, phase := Payload), rest)
  {
    var n, time, id := Value3(h[1], h[2], h[3]), Value3(h[4], h[5], h[6]) + h[7] * TWO24, Value3(h[8], h[9], h[10]);
    var t := Tag(h[0], time, id, seq(n, _ => 0), 0);
    Octets3(h[1], h[2], h[3]);
    A.OctetsTime(h[4], h[5], h[6], h[7]);
    Octets3(h[8], h[9], h[10]);
    hide Run, Value3, BE3, KindOf;
    assert TagHeader(t) == h;
    hide TagHeader;
    RunTagHeader(s, t, rest);
  }

  /** The phase a run ends in, if it does not stop. */
  predicate EndsAtType(o: Outcome) {
    o.Going? && o.state.phase == Type
  }

  /** Audio and video shorter than two octets never get past their payload. */
  lemma {:induction false} ShortMediaStops(s: Demuxer, d: seq<byte>)
    requires s.phase == Payload && s.packet.received == []
    requires s.packet.kind in {Audio, Video} && s.packet.length < 2
    ensures !EndsAtType(Run(s, d))
  {
    if d != [] {
      assert d[..1] + d[1..] == d;
      if s.packet.length == 0 {
        assert Step(s, d[0]).Stopped?;
      } else {
        BulkCopy(s, d[..1], d[1..]);
        assert Complete(Receive(s, d[..1])).Stopped?;
      }
    }
  }

  /** A run that ends between tags begins with a whole readable tag. */
  lemma {:induction false} FirstTag(s: Demuxer, data: seq<byte>)
    requires s.phase == Type && data != [] && EndsAtType(Run(s, data))
    ensures A.ParseOne(data).Parsed? && A.ParseOne(data).size + 4 <= |data|
    ensures Readable(A.ParseOne(data).sub.typeID, A.ParseOne(data).sub.length)
  {
    if |data| <= 11 {
      Climb(s, data);
    } else {
      var h, rest := data[..11], data[11..];
      assert h + rest == data;
      assert data[0] == h[0];
      if KindOf(h[0]) != Unknown {
        RunAnyHeader(s, h, rest);
        var p := Filling(KindOf(h[0]), Value3(h[1], h[2], h[3]), Value3(h[4], h[5], h[6]) + h[7] * TWO24,
                         Value3(h[8], h[9], h[10]), []);
        hide Step, Value3, Run;
        FirstPayload(s.(packet := p, phase := Payload), rest);
      }
    }
  }

  /** A packet of declared length 0 is dispatched before the next octet is read. */
  lemma {:induction false} EmptyPayload(s: Demuxer, rest: seq<byte>)
    requires s.phase == Payload && s.packet.received == [] && s.packet.length == 0 && rest != []
    requires s.packet.kind !in {Audio, Video}
    ensures Finish(s).Going? && Run(s, rest) == Run(Finish(s).state, rest)
  {
    hide BackStep;
    assert Step(s, rest[0]) == Step(Finish(s).state, rest[0]);
  }

  lemma {:induction false} FirstPayload(s: Demuxer, rest: seq<byte>)
    requires s.phase == Payload && s.packet.received == [] && s.packet.kind != Unknown
    requires EndsAtType(Run(s, rest))
    ensures s.packet.length + 4 <= |rest| && (s.packet.kind in {Audio, Video} ==> s.packet.length >= 2)
  {
    hide PayloadStep, BackStep;
    var n := s.packet.length;
    if s.packet.kind in {Audio, Video} && n < 2 {
      ShortMediaStops(s, rest);
    } else if |rest| < n {
      PartialPayload(s, rest);
    } else if n + 4 > |rest| {
      var d, b := rest[..n], rest[n..];
      assert d + b == rest;
      if n > 0 {
        BulkCopy(s, d, b);
        var u := Complete(Receive(s, d)).state;
        Climb(u, b);
      } else if rest != [] {
        EmptyPayload(s, rest);
        Climb(Finish(s).state, rest);
      }
    }
  }

  /** A readable tag in front of accepted data. */
  lemma {:induction false} AcceptedFirst(data: seq<byte>, rest: seq<byte>)
    requires var p := A.ParseOne(data);
             && p.Parsed? && p.size + 4 <= |data| && rest == data[p.size + 4..]
             && Readable(p.sub.typeID, p.sub.length) && |p.sub.payload| == p.sub.length
    requires Accepted(rest)
    ensures Accepted(data)
  {
    hide A.ParseOne, A.ParseFrom, Readable;
    var p := A.ParseOne(data);
    var j := p.size + 4;
    A.ParseFirst(data, 0);
    A.ParseShift(data[..j], rest, 0);
    assert data[..j] + rest == data && data[0..] == data;
    var q := A.ParseFrom(rest, 0);
    assert ([p.sub] + q.subs)[1..] == q.subs;
  }

  /** What the demuxer reads to the end, the one-shot parser accepts. */
  lemma {:induction false} RunsAccepted(s: Demuxer, data: seq<byte>)
    requires s.phase == Type && EndsAtType(Run(s, data))
    ensures Accepted(data)
    decreases |data|
  {
    if data != [] {
      FirstTag(s, data);
      var j := A.ParseOne(data).size + 4;
      var t := A.TagAt(data);
      var front, rest := data[..j], data[j..];
      A.TagAtOctets(data);
      assert front + rest == data;
      hide Run, A.ParseOne, A.ParseFrom, Step, Readable, Fits, Accepted, AfterTag;
      ReadableAgain(data);
      RunTag(s, t, rest);
      AfterTagOut(s, t);
      RunsAccepted(AfterTag(s, t), rest);
      AcceptedFirst(data, rest);
    }
  }

  lemma {:induction false} ReadableAgain(data: seq<byte>)
    requires A.ParseOne(data).Parsed? && A.ParseOne(data).size + 4 <= |data|
    ensures var m, t := A.ParseOne(data).sub, A.TagAt(data);
            |m.payload| == m.length == |t.payload| && t.typ == m.typeID
  {
  }

  /** The packet is the message: its kind by the type, and the other fields alike. */
  predicate Finds(e: Event, m: A.Sub) {
    && m.typeID in {0x08, 0x09, 0x12} && m.length == |m.payload|
    && Shows(e, if m.typeID == 0x08 then Audio else if m.typeID == 0x09 then Video else Script,
             m.timestamp, m.streamID, m.payload)
  }

  lemma {:induction false} EachFound(subs: seq<A.Sub>)
    requires Recognised(subs)
    ensures var es := EventsOfSubs(subs); |es| == |subs| && forall i | 0 <= i < |subs| :: Finds(es[i], subs[i])
    decreases |subs|
  {
    if subs != [] {
      SubFound(subs[0]);
      EachFound(subs[1..]);
      hide Finds, EventOfSub;
      var es := EventsOfSubs(subs[1..]);
      forall i | 0 <= i < |subs| ensures Finds(EventsOfSubs(subs)[i], subs[i]) {
        if i > 0 {
          assert EventsOfSubs(subs)[i] == es[i - 1] && subs[i] == subs[1..][i - 1];
        }
      }
    }
  }

  lemma {:induction false} SubFound(m: A.Sub)
    requires Readable(m.typeID, m.length) && |m.payload| == m.length
    ensures Finds(EventOfSub(m), m)
  {
  }

  /** out is what was dispatched before and then one packet for each message. */
  predicate Found(out: seq<Event>, before: seq<Event>, subs: seq<A.Sub>) {
    && |out| == |before| + |subs| && out[..|before|] == before
    && forall i | 0 <= i < |subs| :: Finds(out[|before| + i], subs[i])
  }

  lemma {:induction false} AllFound(before: seq<Event>, subs: seq<A.Sub>)
    requires Recognised(subs)
    ensures Found(before + EventsOfSubs(subs), before, subs)
  {
    EachFound(subs);
    hide Finds, Recognised, EventsOfSubs;
  }

  /** On every input, from between two tags: the demuxer reads all of it without an error and is
      again between two tags if and only if the one-shot parser succeeds, returns the length of the
      input and finds only messages the demuxer can read; and then both find the same packets. */
  lemma {:induction false} Agreement(s: Demuxer, data: seq<byte>)
    requires s.phase == Type
    ensures EndsAtType(Run(s, data)) <==> Accepted(data)
    ensures Accepted(data) ==> Found(Run(s, data).state.out, s.out, A.ParseFrom(data, 0).subs)
  {
    hide Run, Accepted, Found;
    if Accepted(data) {
      AcceptedRuns(s, data);
      AcceptedFound(s, data);
    }
    if EndsAtType(Run(s, data)) {
      RunsAccepted(s, data);
    }
  }

  lemma {:induction false} AcceptedFound(s: Demuxer, data: seq<byte>)
    requires Accepted(data)
    ensures Found(s.out + EventsOfSubs(A.ParseFrom(data, 0).subs), s.out, A.ParseFrom(data, 0).subs)
  {
    hide Found, A.ParseFrom;
    AllFound(s.out, A.ParseFrom(data, 0).subs);
  }
}
