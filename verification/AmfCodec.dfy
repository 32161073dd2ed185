/** amf.Encode writing into a shared buffer and amf.Decode walking over the data, as loops. */
module AmfCodec {
  import opened Bytes
  import opened AmfValue
  import opened AmfDecode
  import opened AmfObject

  /** bytes.Buffer. */
  class Buffer {
    var data: seq<byte>

    constructor ()
      ensures data == []
    {
      data := [];
    }

    method Write(s: seq<byte>) returns (n: nat)
      modifies this
      ensures data == old(data) + s && n == |s|
    {
      data := data + s;
      n := |s|;
    }
  }

  // ---- encoding ------------------------------------------------------------

  method EncodeDouble(b: Buffer, bits: nat) returns (i: nat)
    modifies b
    ensures b.data == old(b.data) + ([DOUBLE] + BE8(bits)) && i == 9
  {
    i := b.Write([DOUBLE]);
    var n := b.Write(BE8(bits));
    i := i + n;
  }

  method EncodeDate(b: Buffer, bits: nat, offset: nat) returns (i: nat)
    modifies b
    ensures b.data == old(b.data) + ([DATE] + BE8(bits) + BE2(offset)) && i == 11
  {
    i := b.Write([DATE]);
    var n := b.Write(BE8(bits));
    i := i + n;
    n := b.Write(BE2(offset));
    i := i + n;
  }

  method EncodeLongString(b: Buffer, s: seq<byte>) returns (i: nat)
    modifies b
    ensures b.data == old(b.data) + ([LONG_STRING] + BE4(|s|) + s) && i == 5 + |s|
  {
    hide BE4;
    i := b.Write([LONG_STRING]);
    var n := b.Write(BE4(|s|));
    i := i + n;
    n := b.Write(s);
    i := i + n;
    AssocThree(old(b.data), [LONG_STRING], BE4(|s|), s);
  }

  /** The long form is chosen from 65535 octets on. */
  method EncodeString(b: Buffer, s: seq<byte>) returns (i: nat)
    modifies b
    ensures b.data == old(b.data) + TextOctets(s) && i == |TextOctets(s)|
  {
    hide BE2, BE4;
    if |s| >= 0xFFFF {
      i := EncodeLongString(b, s);
      return;
    }
    i := b.Write([STRING]);
    var n := b.Write(BE2(|s|));
    i := i + n;
    n := b.Write(s);
    i := i + n;
    AssocThree(old(b.data), [STRING], BE2(|s|), s);
  }

  /** Encode: appends the octets of v and returns a count that leaves out nulls. */
  method Encode(b: Buffer, v: Value) returns (i: nat)
    requires Typed(v)
    modifies b
    ensures b.data == old(b.data) + Octets(v) && i == Reported(v)
    decreases v, 0
  {
    if v.typ == DOUBLE {
      i := EncodeDouble(b, v.raw.bits);
    } else if v.typ == BOOLEAN {
      i := b.Write([BOOLEAN, if v.raw.b then 1 else 0]);
    } else if IsText(v.typ) {
      i := EncodeString(b, v.raw.s);
    } else if v.typ == OBJECT {
      i := EncodeObject(b, v);
    } else if v.typ == ECMA_ARRAY {
      i := EncodeECMAArray(b, v);
    } else if v.typ == STRICT_ARRAY {
      i := EncodeStrictArray(b, v);
    } else if v.typ == DATE {
      i := EncodeDate(b, v.raw.bits, v.offset);
    } else {
      var n := b.Write([v.typ]);
      i := 0;
    }
  }

  /** Objects: properties and an end marker. */
  method EncodeObject(b: Buffer, v: Value) returns (i: nat)
    requires Typed(v) && v.typ == OBJECT
    modifies b
    ensures b.data == old(b.data) + Octets(v) && i == Reported(v)
    decreases v.raw.list, 2
  {
    hide ListOctets, ReportedList, TypedList, BE4;
    i := b.Write([OBJECT]);
    var n := EncodeProperties(b, v.raw.list);
    i := i + n;
    n := b.Write(END);
    i := i + n;
  }

  /** ECMA arrays carry a count in front as well. */
  method EncodeECMAArray(b: Buffer, v: Value) returns (i: nat)
    requires Typed(v) && v.typ == ECMA_ARRAY
    modifies b
    ensures b.data == old(b.data) + Octets(v) && i == Reported(v)
    ensures |v.raw.list| < TWO32 ==> Spells(b.data, |old(b.data)| + 1, |v.raw.list|)
    decreases v.raw.list, 2
  {
    hide ListOctets, ReportedList, TypedList, BE4;
    i := b.Write([ECMA_ARRAY]);
    var n := b.Write(BE4(|v.raw.list|));
    i := i + n;
    n := EncodeProperties(b, v.raw.list);
    i := i + n;
    n := b.Write(END);
    i := i + n;
    AssocFour(old(b.data), [ECMA_ARRAY], BE4(|v.raw.list|), ListOctets(v.raw.list), END);
    CountWritten(old(b.data), ECMA_ARRAY, |v.raw.list|, ListOctets(v.raw.list) + END, b.data);
  }

  /** Strict arrays have no end marker. */
  method EncodeStrictArray(b: Buffer, v: Value) returns (i: nat)
    requires Typed(v) && v.typ == STRICT_ARRAY
    modifies b
    ensures b.data == old(b.data) + Octets(v) && i == Reported(v)
    ensures |v.raw.list| < TWO32 ==> Spells(b.data, |old(b.data)| + 1, |v.raw.list|)
    decreases v.raw.list, 2
  {
    hide ListOctets, ReportedList, TypedList, BE4;
    i := b.Write([STRICT_ARRAY]);
    var n := b.Write(BE4(|v.raw.list|));
    i := i + n;
    n := EncodeProperties(b, v.raw.list);
    i := i + n;
    AssocThree(old(b.data), [STRICT_ARRAY], BE4(|v.raw.list|), ListOctets(v.raw.list));
    CountWritten(old(b.data), STRICT_ARRAY, |v.raw.list|, ListOctets(v.raw.list), b.data);
  }

  lemma {:induction false} CountWritten(before: seq<byte>, typ: byte, n: nat, rest: seq<byte>, data: seq<byte>)
    requires data == before + ([typ] + BE4(n) + rest)
    ensures n < TWO32 ==> Spells(data, |before| + 1, n)
  {
    hide BE4, Spells;
    if n < TWO32 {
      assert data == before + [typ] + BE4(n) + rest;
      CountSpelt(before + [typ], n, rest);
    }
  }

  method EncodeKey(b: Buffer, key: seq<byte>) returns (i: nat)
    modifies b
    ensures b.data == old(b.data) + KeyOctets(key) && i == |KeyOctets(key)|
  {
    i := 0;
    if |key| % TWO16 > 0 {
      i := b.Write(BE2(|key|));
      var n := b.Write(key);
      i := i + n;
    }
  }

  /** One turn of the loop of encodeProperties. */
  method EncodeProperty(b: Buffer, v: Value) returns (i: nat)
    requires Typed(v)
    modifies b
    ensures b.data == old(b.data) + (KeyOctets(v.key) + Octets(v)) && i == |KeyOctets(v.key)| + Reported(v)
    decreases v, 1
  {
    hide Octets, KeyOctets, Reported;
    i := EncodeKey(b, v.key);
    var n := Encode(b, v);
    i := i + n;
    Assoc(old(b.data), KeyOctets(v.key), Octets(v));
  }

  lemma {:induction false} ListStep(list: seq<Value>, k: nat)
    requires k < |list| && TypedList(list[k..])
    ensures var v, tail := list[k], list[k + 1..];
            && Typed(v) && TypedList(tail)
            && ListOctets(list[k..]) == KeyOctets(v.key) + Octets(v) + ListOctets(tail)
            && ReportedList(list[k..]) == |KeyOctets(v.key)| + Reported(v) + ReportedList(tail)
  {
    hide Octets, KeyOctets, Reported, Typed;
    assert list[k..][0] == list[k] && list[k..][1..] == list[k + 1..];
  }

  /** encodeProperties: keys and values in list order. */
  method EncodeProperties(b: Buffer, list: seq<Value>) returns (i: nat)
    requires TypedList(list)
    modifies b
    ensures b.data == old(b.data) + ListOctets(list) && i == ReportedList(list)
    decreases list, 1
  {
    i := 0;
    var k := 0;
    assert list[0..] == list;
    while k < |list|
      invariant k <= |list| && TypedList(list[k..])
      invariant b.data + ListOctets(list[k..]) == old(b.data) + ListOctets(list)
      invariant i + ReportedList(list[k..]) == ReportedList(list)
    {
      ListStep(list, k);
      hide Octets, KeyOctets, Reported, Typed, ListOctets, ReportedList, TypedList;
      ghost var before, tail := b.data, ListOctets(list[k + 1..]);
      var n := EncodeProperty(b, list[k]);
      i := i + n;
      Assoc(before, KeyOctets(list[k].key) + Octets(list[k]), tail);
      k := k + 1;
    }
    assert list[k..] == [];
  }

  // ---- decoding ------------------------------------------------------------

  /** Decode into v. An object or ECMA array gets its key table as well. */
  method DecodeValue(v: Value, data: seq<byte>) returns (r: Result<Value>, table: map<seq<byte>, Value>)
    ensures r == Decode(v, data)
    ensures r.Ok? && IsKeyed(r.value.typ) ==> table == LastByKey(r.value.raw.list)
    decreases |data|, 0
  {
    table := map[];
    if |data| < 1 {
      return Bad, table;
    }
    hide DecodeProperties, DecodeItems, Value8, Value4, LastByKey;
    var w := v.(typ := data[0]);
    var d := data[1..];
    if w.typ == DOUBLE {
      return if |d| < 8 then Bad else Ok(w.(raw := Number(Value8(d))), 9), table;
    } else if w.typ == BOOLEAN {
      return if |d| < 1 then Bad else Ok(w.(raw := Truth(d[0] > 0)), 2), table;
    } else if w.typ == STRING {
      var s := DecodeText(d);
      return if s.Bad? then Bad else Ok(w.(raw := Text(s.value)), 1 + s.size), table;
    } else if w.typ == OBJECT {
      var list, keys, n, ok := DecodeObjectLoop(d);
      return if ok then Ok(w.(raw := Elements(list)), 1 + n) else Bad, keys;
    } else if w.typ == NULL || w.typ == UNDEFINED {
      return Ok(w, 1), table;
    } else if w.typ == ECMA_ARRAY {
      if |d| < 4 {
        return Bad, table;
      }
      var list, keys, n, ok := DecodeObjectLoop(d[4..]);
      return if ok then Ok(w.(raw := Elements(list)), 5 + n) else Bad, keys;
    } else if w.typ == END_OF_OBJECT {
      return Ok(w.(ended := true), 1), table;
    } else if w.typ == STRICT_ARRAY {
      var s := DecodeStrictArrayLoop(d);
      return if s.Bad? then Bad
        else Ok(w.(raw := Elements(s.value.0), ended := s.value.1 || w.ended), 1 + s.size), table;
    } else if w.typ == DATE {
      return if |d| < 10 then Bad
        else Ok(w.(raw := Number(Value8(d)), offset := Value2(d[8], d[9])), 11), table;
    } else if w.typ == LONG_STRING {
      var s := DecodeLongText(d, w.raw);
      return if s.Bad? then Bad else Ok(w.(raw := s.value), 1 + s.size), table;
    } else {
      return Bad, table;
    }
  }

  /** Where the loop of DecodeObject stands: `list` decoded from the first i octets. */
  ghost predicate PropertiesAt(data: seq<byte>, list: seq<Value>, i: nat) {
    i <= |data| && DecodeProperties(data) == Prepend(list, i, DecodeProperties(data[i..]))
  }

  lemma {:induction false} PropertiesStart(data: seq<byte>)
    ensures PropertiesAt(data, [], 0)
  {
    assert data[0..] == data;
    PrependNone(DecodeProperties(data));
  }

  lemma {:induction false} PropertiesTurn(data: seq<byte>, list: seq<Value>, i: nat)
    requires PropertiesAt(data, list, i) && i < |data|
    ensures match DecodeProperty(data[i..])
            case Bad => DecodeProperties(data) == Bad
            case Ok(v, n) =>
              if v.typ == END_OF_OBJECT then DecodeProperties(data) == Ok(list, i + n)
              else PropertiesAt(data, list + [v], i + n)
  {
    hide DecodeProperty, Prepend;
    var r := DecodeProperty(data[i..]);
    PrependEnds(list, i, 0);
    if r.Ok? {
      PrependEnds(list, i, r.size);
      assert data[i..][r.size..] == data[i + r.size..];
      PrependTwice(list, i, r.value, r.size, DecodeProperties(data[i + r.size..]));
    }
  }

  lemma {:induction false} PropertiesEnd(data: seq<byte>, list: seq<Value>)
    requires PropertiesAt(data, list, |data|)
    ensures DecodeProperties(data) == Ok(list, |data|)
  {
    assert data[|data|..] == [];
    PrependEnds(list, |data|, 0);
  }

  /** A key and its value, decoded into the Value that held the key. */
  method DecodeKeyed(data: seq<byte>) returns (r: Result<Value>)
    ensures r == DecodeProperty(data)
    decreases |data|, 1
  {
    var key := DecodeText(data);
    if key.Bad? {
      return Bad;
    }
    var table;
    r, table := DecodeValue(KeyHolder(key.value), data[key.size..]);
    hide Decode;
    return if r.Bad? then Bad else Ok(r.value, key.size + r.size);
  }

  /** DecodeObject: its list, its table and the octets consumed. */
  method DecodeObjectLoop(data: seq<byte>)
    returns (list: seq<Value>, table: map<seq<byte>, Value>, i: nat, ok: bool)
    ensures ok == DecodeObject(data).Ok?
    ensures ok ==> DecodeObject(data) == Ok(list, i) && table == LastByKey(list)
    decreases |data|, 3
  {
    hide DecodeProperty, DecodeProperties, LastByKey, PropertiesAt;
    list, table, i := [], map[], 0;
    if |data| < 3 {
      return list, table, i, false;
    }
    NoTable();
    PropertiesStart(data);
    while i < |data|
      invariant i <= |data| && table == LastByKey(list) && PropertiesAt(data, list, i)
      decreases |data| - i
    {
      PropertiesTurn(data, list, i);
      var r := DecodeKeyed(data[i..]);
      if r.Bad? {
        return list, table, i, false;
      }
      i := i + r.size;
      if r.value.typ == END_OF_OBJECT {
        return list, table, i, true;
      }
      LastByKeyAppend(list, r.value);
      list := list + [r.value];
      table := table[r.value.key := r.value];
    }
    PropertiesEnd(data, list);
    return list, table, i, true;
  }

  lemma {:induction false} NoTable()
    ensures LastByKey([]) == map[]
  {
  }

  lemma {:induction false} PrependNone(r: Result<seq<Value>>)
    ensures Prepend([], 0, r) == r
  {
    if r.Ok? {
      assert [] + r.value == r.value;
    }
  }

  lemma {:induction false} PrependEnds(list: seq<Value>, i: nat, k: nat)
    ensures Prepend(list, i, Bad) == Bad && Prepend(list, i, Ok([], k)) == Ok(list, i + k)
  {
    assert list + [] == list;
  }

  lemma {:induction false} PrependTwice(list: seq<Value>, i: nat, v: Value, n: nat, r: Result<seq<Value>>)
    ensures Prepend(list, i, Prepend([v], n, r)) == Prepend(list + [v], i + n, r)
  {
    if r.Ok? {
      assert list + ([v] + r.value) == list + [v] + r.value;
    }
  }

  /** Where the loop of DecodeStrictArray stands, with count elements to go. */
  ghost predicate ItemsAt(data: seq<byte>, all: Result<seq<Value>>, list: seq<Value>, i: nat, count: nat) {
    i <= |data| && all == Prepend(list, i, DecodeItems(data[i..], count))
  }

  lemma {:induction false} ItemsStart(data: seq<byte>, count: nat)
    ensures ItemsAt(data, DecodeItems(data, count), [], 0, count)
  {
    assert data[0..] == data;
    PrependNone(DecodeItems(data, count));
  }

  lemma {:induction false} ItemsTurn(data: seq<byte>, all: Result<seq<Value>>, list: seq<Value>, i: nat, count: nat)
    requires ItemsAt(data, all, list, i, count) && i < |data| && count > 0
    ensures match Decode(Fresh(DOUBLE), data[i..])
            case Bad => all == Bad
            case Ok(v, n) => ItemsAt(data, all, list + [v], i + n, count - 1)
  {
    hide Decode, Prepend;
    var r := Decode(Fresh(DOUBLE), data[i..]);
    PrependEnds(list, i, 0);
    if r.Ok? {
      assert data[i..][r.size..] == data[i + r.size..];
      PrependTwice(list, i, r.value, r.size, DecodeItems(data[i + r.size..], count - 1));
    }
  }

  lemma {:induction false} ItemsEnd(data: seq<byte>, all: Result<seq<Value>>, list: seq<Value>, i: nat, count: nat)
    requires ItemsAt(data, all, list, i, count) && (count == 0 || i == |data|)
    ensures all == Ok(list, i)
  {
    PrependEnds(list, i, 0);
  }

  /** The elements of a strict array. */
  method DecodeItemsLoop(data: seq<byte>, length: nat) returns (list: seq<Value>, i: nat, ok: bool)
    ensures ok == DecodeItems(data, length).Ok?
    ensures ok ==> DecodeItems(data, length) == Ok(list, i)
    decreases |data|, 1
  {
    hide Decode, DecodeItems, ItemsAt, IsKeyed, LastByKey;
    list, i := [], 0;
    var j := 0;
    ghost var all := DecodeItems(data, length);
    ItemsStart(data, length);
    while j < length && i < |data|
      invariant i <= |data| && j <= length
      invariant ItemsAt(data, all, list, i, length - j)
      decreases |data| - i
    {
      ItemsTurn(data, all, list, i, length - j);
      var e, table := DecodeValue(Fresh(DOUBLE), data[i..]);
      if e.Bad? {
        return list, i, false;
      }
      list := list + [e.value];
      i := i + e.size;
      j := j + 1;
    }
    ItemsEnd(data, all, list, i, length - j);
    return list, i, true;
  }

  /** Comparing three octets is looking for the end marker. */
  lemma {:induction false} EndMarkerAt(data: seq<byte>, i: nat)
    requires i <= |data|
    ensures StartsWith(data[i..], END)
            <==> i + 3 <= |data| && data[i] == 0 && data[i + 1] == 0 && data[i + 2] == END_OF_OBJECT
  {
    if i + 3 <= |data| {
      var m := data[i..][..3];
      assert m == [data[i], data[i + 1], data[i + 2]];
    }
  }

  /** DecodeStrictArray. */
  method DecodeStrictArrayLoop(data: seq<byte>) returns (r: Result<(seq<Value>, bool)>)
    ensures r == DecodeStrictArray(data)
    decreases |data|, 2
  {
    hide DecodeItems, Value4;
    if |data| < 4 {
      return Bad;
    }
    var length := Value4(data[0], data[1], data[2], data[3]);
    var list, n, ok := DecodeItemsLoop(data[4..], length);
    if !ok {
      return Bad;
    }
    var i := 4 + n;
    EndMarkerAt(data, i);
    if i + 3 <= |data| && data[i] == 0 && data[i + 1] == 0 && data[i + 2] == END_OF_OBJECT {
      return Ok((list, true), i + 3);
    }
    return Ok((list, false), i);
  }
}
