/** The one-shot tag parser, Message.Parse, and the loop of AggregateMessage.Parse over it. */
module Aggregate {
  import opened Bytes
  import opened FlvTag

  /** A message cut out of the data; the payload is a slice of it. */
  datatype Sub = Sub(typeID: byte, length: nat, timestamp: nat, streamID: nat, payload: seq<byte>)

  datatype Parsed = Parsed(sub: Sub, size: nat) | TooShort(at: nat)

  /** Message.Parse. */
  function ParseOne(data: seq<byte>): (r: Parsed)
    ensures r.Parsed? ==> 11 <= r.size <= |data|
  {
    if |data| < 11 then TooShort(0)
    else
      var n := Value3(data[1], data[2], data[3]);
      if |data| - 11 < n then TooShort(11)
      else
        Parsed(Sub(data[0], n, Value3(data[4], data[5], data[6]) + data[7] * TWO24,
                   Value3(data[8], data[9], data[10]), data[11..11 + n]), 11 + n)
  }

  /** The subs found and the index returned, with or without an error. */
  datatype Result = Result(subs: seq<Sub>, index: nat, ok: bool)

  function Found(sub: Sub, r: Result): Result {
    Result([sub] + r.subs, r.index, r.ok)
  }

  /** The loop: four octets are skipped after each message, whether they are there or not. */
  function ParseFrom(data: seq<byte>, i: nat): Result
    decreases |data| - i
  {
    if i >= |data| then Result([], i, true)
    else
      match ParseOne(data[i..])
      case TooShort(_) => Result([], i, false)
      case Parsed(sub, j) => Found(sub, ParseFrom(data, i + j + 4))
  }

  class MessageObject {
    var typeID: byte
    var length: nat
    var timestamp: nat
    var streamID: nat
    var payload: seq<byte>

    constructor ()
    {
      typeID, length, timestamp, streamID, payload := 0, 0, 0, 0, [];
    }

    /** Message.Parse: fields are assigned as the index advances. */
    method Parse(data: seq<byte>) returns (i: nat, ok: bool)
      modifies this
      ensures ok <==> ParseOne(data).Parsed?
      ensures ok ==> ParseOne(data) == Parsed(Sub(typeID, length, timestamp, streamID, payload), i)
      ensures !ok ==> ParseOne(data) == TooShort(i) && i == if |data| < 11 then 0 else 11
    {
      var n := |data|;
      i := 0;
      if n < 11 {
        return i, false;
      }
      typeID := data[i];
      i := i + 1;
      length := data[i] * TWO16 + data[i + 1] * TWO8 + data[i + 2];
      i := i + 3;
      timestamp := data[i] * TWO16 + data[i + 1] * TWO8 + data[i + 2] + data[i + 3] * TWO24;
      i := i + 4;
      streamID := data[i] * TWO16 + data[i + 1] * TWO8 + data[i + 2];
      i := i + 3;
      if n - i < length {
        return i, false;
      }
      payload := data[i..i + length];
      i := i + length;
      return i, true;
    }
  }

  lemma {:induction false} ParseEnd(data: seq<byte>, i: nat)
    requires i >= |data|
    ensures ParseFrom(data, i) == Result([], i, true)
  {
  }

  /** AggregateMessage.Parse, with the length its message header declared. */
  method Parse(data: seq<byte>, declared: nat) returns (subs: seq<Sub>, i: nat, ok: bool)
    ensures if |data| < declared then subs == [] && i == 0 && !ok
            else Result(subs, i, ok) == ParseFrom(data, 0)
  {
    hide ParseOne, ParseFrom;
    subs, i := [], 0;
    if |data| < declared {
      return subs, i, false;
    }
    while i < |data|
      invariant ParseFrom(data, 0) == var r := ParseFrom(data, i); Result(subs + r.subs, r.index, r.ok)
      decreases |data| - i
    {
      var sub := new MessageObject();
      ParseFirst(data, i);
      var j, fine := sub.Parse(data[i..]);
      if !fine {
        assert subs + [] == subs;
        return subs, i, false;
      }
      var s := Sub(sub.typeID, sub.length, sub.timestamp, sub.streamID, sub.payload);
      Assoc(subs, [s], ParseFrom(data, i + j + 4).subs);
      i := i + j + 4;
      subs := subs + [s];
    }
    ParseEnd(data, i);
    assert subs + [] == subs;
    return subs, i, true;
  }

  // ---- tag streams ---------------------------------------------------------

  function SubOf(t: Tag): Sub {
    Sub(t.typ, |t.payload|, t.timestamp, t.streamID, t.payload)
  }

  function SubsOf(ts: seq<Tag>): seq<Sub>
    decreases |ts|
  {
    if ts == [] then [] else [SubOf(ts[0])] + SubsOf(ts[1..])
  }

  predicate AllFit(ts: seq<Tag>)
    decreases |ts|
  {
    ts != [] ==> Fits(ts[0]) && AllFit(ts[1..])
  }

  /** The tag a message and the four octets after it form. */
  function TagAt(data: seq<byte>): Tag
    requires ParseOne(data).Parsed? && ParseOne(data).size + 4 <= |data|
  {
    var s, j := ParseOne(data).sub, ParseOne(data).size;
    Tag(s.typeID, s.timestamp, s.streamID, s.payload, Value4(data[j], data[j + 1], data[j + 2], data[j + 3]))
  }

  lemma {:induction false} OctetsTime(a: byte, b: byte, c: byte, d: byte)
    ensures var t := Value3(a, b, c) + d * TWO24; t < TWO32 && BE3(t) == [a, b, c] && t / TWO24 % TWO8 == d
  {
    Octets4(d, a, b, c);
    assert Value3(a, b, c) + d * TWO24 == Value4(d, a, b, c);
  }

  /** Parsing then writing: the octets of the tag at the front are the front of the data. */
  lemma {:induction false} TagAtOctets(data: seq<byte>)
    requires ParseOne(data).Parsed? && ParseOne(data).size + 4 <= |data|
    ensures Fits(TagAt(data)) && TagOctets(TagAt(data)) == data[..ParseOne(data).size + 4]
  {
    var j := ParseOne(data).size;
    var t := TagAt(data);
    Octets3(data[1], data[2], data[3]);
    OctetsTime(data[4], data[5], data[6], data[7]);
    Octets3(data[8], data[9], data[10]);
    Octets4(data[j], data[j + 1], data[j + 2], data[j + 3]);
    hide BE3, BE4, Value3, Value4;
    assert TagHeader(t) == data[..11];
    assert BE4(t.back) == data[j..j + 4];
    assert data[..j + 4] == data[..11] + data[11..j] + data[j..j + 4];
  }

  /** The fields of a tag header. */
  lemma {:induction false} HeaderFields(t: Tag, h: seq<byte>)
    requires Fits(t) && h == TagHeader(t)
    ensures h[0] == t.typ && Value3(h[1], h[2], h[3]) == |t.payload|
    ensures Value3(h[4], h[5], h[6]) + h[7] * TWO24 == t.timestamp && Value3(h[8], h[9], h[10]) == t.streamID
  {
    HeaderOctets(t);
    Wire3(|t.payload|);
    Wire3(t.timestamp);
    Wire3(t.streamID);
    TimeParts(t.timestamp);
    hide BE3, Value3, TagHeader;
  }

  lemma {:induction false} HeaderOctets(t: Tag)
    ensures var h, n, x, z := TagHeader(t), BE3(|t.payload|), BE3(t.timestamp), BE3(t.streamID);
            && h[0] == t.typ && h[1] == n[0] && h[2] == n[1] && h[3] == n[2]
            && h[4] == x[0] && h[5] == x[1] && h[6] == x[2] && h[7] == t.timestamp / TWO24 % TWO8
            && h[8] == z[0] && h[9] == z[1] && h[10] == z[2]
  {
    hide BE3;
  }

  /** Writing then parsing: the tag at the front of the data is found. */
  lemma {:induction false} ParseTag(t: Tag, rest: seq<byte>)
    requires Fits(t)
    ensures ParseOne(TagOctets(t) + rest) == Parsed(SubOf(t), 11 + |t.payload|)
  {
    var data, h := TagOctets(t) + rest, TagHeader(t);
    HeaderFields(t, h);
    hide TagHeader, BE4, Value3;
    assert data[..11] == h && data[11..11 + |t.payload|] == t.payload;
    assert forall k | 0 <= k < 11 :: data[k] == h[k];
  }

  lemma {:induction false} ParseFirst(data: seq<byte>, i: nat)
    requires i < |data|
    ensures var p := ParseOne(data[i..]);
            ParseFrom(data, i) == if p.Parsed? then Found(p.sub, ParseFrom(data, i + p.size + 4))
                 else Result([], i, false)
  {
    hide ParseOne;
  }

  lemma {:induction false} DropAppend(a: seq<byte>, b: seq<byte>, k: nat)
    requires k <= |b|
    ensures (a + b)[|a| + k..] == b[k..]
  {
  }

  /** The loop depends only on what is left of the data. */
  lemma {:induction false} ParseShift(a: seq<byte>, b: seq<byte>, k: nat)
    ensures var r, q := ParseFrom(a + b, |a| + k), ParseFrom(b, k);
            r == Result(q.subs, q.index + |a|, q.ok)
    decreases |b| - k
  {
    hide ParseOne, ParseFrom;
    if k < |b| {
      ParseFirst(a + b, |a| + k);
      ParseFirst(b, k);
      DropAppend(a, b, k);
      var p := ParseOne(b[k..]);
      if p.Parsed? {
        ParseShift(a, b, k + p.size + 4);
        assert |a| + (k + p.size + 4) == |a| + k + p.size + 4;
      }
    } else {
      ParseEnd(a + b, |a| + k);
      ParseEnd(b, k);
    }
  }

  /** The one-shot parser finds every tag of a stream and returns the stream's length. */
  lemma {:induction false} ParseStream(ts: seq<Tag>)
    requires AllFit(ts)
    ensures ParseFrom(StreamOctets(ts), 0) == Result(SubsOf(ts), |StreamOctets(ts)|, true)
    decreases |ts|
  {
    if ts == [] {
      ParseEnd([], 0);
    } else {
      ParseStream(ts[1..]);
      ParseNext(ts[0], StreamOctets(ts[1..]));
    }
  }

  /** The tag at the front is found, and then whatever the rest holds. */
  lemma {:induction false} ParseNext(t: Tag, rest: seq<byte>)
    requires Fits(t)
    ensures var q := ParseFrom(rest, 0);
            ParseFrom(TagOctets(t) + rest, 0)
            == Result([SubOf(t)] + q.subs, q.index + |TagOctets(t)|, q.ok)
    ensures |TagOctets(t)| == 15 + |t.payload|
  {
    hide ParseOne, ParseFrom;
    var data := TagOctets(t) + rest;
    ParseTag(t, rest);
    assert data[0..] == data;
    ParseFirst(data, 0);
    ParseShift(TagOctets(t), rest, 0);
  }

  /** The first message and the rest, unless the last back pointer is missing. */
  lemma {:induction false} FirstParsed(data: seq<byte>)
    requires data != [] && ParseFrom(data, 0).index <= |data| && ParseOne(data).Parsed?
    ensures var p, r := ParseOne(data), ParseFrom(data, 0);
            && p.size + 4 <= r.index
            && var q := ParseFrom(data[p.size + 4..], 0);
               q.ok == r.ok && q.index == r.index - p.size - 4 && r.subs == [p.sub] + q.subs
  {
    hide ParseOne, ParseFrom;
    assert data[0..] == data;
    ParseFirst(data, 0);
    var j := ParseOne(data).size + 4;
    IndexGrows(data, j);
    var front, rest := data[..j], data[j..];
    assert data == front + rest;
    ParseShift(front, rest, 0);
  }

  /** Conversely, the data up to the index returned is a tag stream with the messages found. The loop ends
      without an error exactly at the end of the data, and otherwise in front of what is too short for a
      message; only a missing last back pointer puts the index past the end. */
  lemma {:induction false} ParsedIsStream(data: seq<byte>) returns (ts: seq<Tag>)
    requires ParseFrom(data, 0).index <= |data|
    ensures var r := ParseFrom(data, 0);
            && AllFit(ts) && StreamOctets(ts) == data[..r.index] && SubsOf(ts) == r.subs
            && (r.ok <==> r.index == |data|) && (!r.ok ==> ParseOne(data[r.index..]).TooShort?)
    decreases |data|
  {
    hide ParseOne, ParseFrom, TagOctets, Fits, TagAt, SubOf;
    if data == [] {
      ts := [];
      ParseEnd(data, 0);
    } else if ParseOne(data).TooShort? {
      ts := [];
      assert data[0..] == data;
      ParseFirst(data, 0);
    } else {
      FirstParsed(data);
      var j, r := ParseOne(data).size + 4, ParseFrom(data, 0);
      var others := ParsedIsStream(data[j..]);
      TagAtOctets(data);
      SubAt(data);
      ts := [TagAt(data)] + others;
      assert ts[1..] == others && data[..r.index] == data[..j] + data[j..][..r.index - j];
      assert data[j..][r.index - j..] == data[r.index..];
    }
  }

  lemma {:induction false} SubAt(data: seq<byte>)
    requires ParseOne(data).Parsed? && ParseOne(data).size + 4 <= |data|
    ensures SubOf(TagAt(data)) == ParseOne(data).sub
  {
    hide Value3, Value4;
  }

  lemma {:induction false} IndexGrows(data: seq<byte>, i: nat)
    ensures ParseFrom(data, i).index >= i
    decreases |data| - i
  {
    if i < |data| {
      hide ParseOne;
      var p := ParseOne(data[i..]);
      if p.Parsed? {
        IndexGrows(data, i + p.size + 4);
      }
    }
  }
}
