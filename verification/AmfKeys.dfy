/** A property by itself: when its key and its value come back, for every key. */
module AmfKeys {
  import opened Bytes
  import opened AmfValue
  import opened AmfDecode
  import opened AmfCanon

  // ---- octets of text and numbers ------------------------------------------

  lemma {:induction false} Value8Halves(hi: seq<byte>, lo: seq<byte>, rest: seq<byte>)
    requires |hi| == 4 && |lo| == 4
    ensures Value8(hi + lo + rest)
            == Value4(hi[0], hi[1], hi[2], hi[3]) * TWO32 + Value4(lo[0], lo[1], lo[2], lo[3])
  {
    hide Value4;
  }

  lemma {:induction false} Halves64(n: nat)
    requires n < TWO64
    ensures var hi, lo := n / TWO32, n % TWO32;
            hi % TWO32 == hi && lo % TWO32 == lo && hi * TWO32 + lo == n
  {
  }

  lemma {:induction false} Wire8(n: nat, rest: seq<byte>)
    requires n < TWO64
    ensures Value8(BE8(n) + rest) == n
  {
    Halves64(n);
    hide BE4, Value4, Value8;
    var hi, lo := n / TWO32, n % TWO32;
    Wire4(hi);
    Wire4(lo);
    Value8Halves(BE4(hi), BE4(lo), rest);
  }

  lemma {:induction false} DecodeTextOctets(s: seq<byte>, rest: seq<byte>)
    requires |s| < TWO16
    ensures DecodeText(BE2(|s|) + s + rest) == Ok(s, 2 + |s|)
  {
    Wire2(|s|);
    var d := BE2(|s|) + s + rest;
    assert d[2..2 + |s|] == s;
  }

  lemma {:induction false} KeyPrefix(e: Value, rest: seq<byte>)
    requires Usable(e.key) && Typed(e)
    ensures var d := KeyOctets(e.key) + Octets(e) + rest;
            var k := 2 + |e.key|;
            DecodeText(d) == Ok(e.key, k) && |KeyOctets(e.key)| == k && d[k..] == Octets(e) + rest
  {
    var d := KeyOctets(e.key) + Octets(e) + rest;
    assert d == BE2(|e.key|) + e.key + (Octets(e) + rest);
    DecodeTextOctets(e.key, Octets(e) + rest);
  }

  // ---- keys that are not written -------------------------------------------

  /** The type octet of a number is the only one that is zero. */
  lemma {:induction false} ZeroType(e: Value)
    requires Typed(e)
    ensures Octets(e)[0] == 0 <==> e.typ == DOUBLE
  {
    hide ListOctets;
  }

  /** Decoding changes everything of a Value but its key. */
  lemma {:induction false} KeyKept(v: Value, data: seq<byte>)
    requires Decode(v, data).Ok?
    ensures Decode(v, data).value.key == v.key
  {
    hide DecodeObject, DecodeStrictArray, DecodeText, DecodeLongText, Value8;
  }

  /** The type octet read is the type of what was decoded. */
  lemma {:induction false} EndType(v: Value, data: seq<byte>)
    requires Decode(v, data).Ok?
    ensures Decode(v, data).value.typ == data[0]
  {
    hide DecodeObject, DecodeStrictArray, DecodeText, DecodeLongText, Value8;
  }

  /** What a zero type octet decodes to. */
  lemma {:induction false} NumberAt(v: Value, data: seq<byte>)
    requires data != [] && data[0] == DOUBLE
    ensures Decode(v, data)
            == if |data| < 9 then Bad else Ok(v.(typ := DOUBLE, raw := Number(Value8(data[1..]))), 9)
  {
    hide Value8;
  }

  /** What a property is decoded into carries the key that was read. */
  lemma {:induction false} PropertyKey(data: seq<byte>)
    requires DecodeProperty(data).Ok?
    ensures DecodeText(data).Ok?
    ensures DecodeProperty(data).value.key == DecodeText(data).value && |DecodeText(data).value| < TWO16
  {
    hide Decode;
    var key := DecodeText(data).value;
    KeyKept(KeyHolder(key), data[DecodeText(data).size..]);
  }

  /** An empty key is read from two zero octets. */
  lemma {:induction false} EmptyKeyOctets(data: seq<byte>)
    requires DecodeText(data).Ok? && DecodeText(data).value == []
    ensures data[0] == data[1] == 0 && DecodeText(data).size == 2
  {
    var n := Value2(data[0], data[1]);
    assert |data[2..2 + n]| == n;
  }

  /** Reading a number two octets later gives the same number only if it is 0. */
  lemma {:induction false} Shifted(b: seq<byte>, t: seq<byte>)
    requires |b| == 8 && |t| >= 2 && b[0] == b[1] == 0
    ensures Value8(b[2..] + t) == Value8(b) <==> Value8(b) == 0 && t[0] == t[1] == 0
  {
    var n, m := Value8(b), Value2(t[0], t[1]);
    var d := b[2..] + t;
    assert d[0] == b[2] && d[1] == b[3] && d[2] == b[4] && d[3] == b[5] && d[4] == b[6] && d[5] == b[7];
    assert d[6] == t[0] && d[7] == t[1];
    assert Value8(d) == n * TWO16 + m;
  }

  /** A property with an empty key is written without one. It comes back if and only if it is the
      number 0 and two zero octets follow. */
  lemma {:induction false} EmptyKey(e: Value, tail: seq<byte>)
    requires Typed(e) && e.key == [] && (e.raw.Number? ==> e.raw.bits < TWO64)
    ensures var r := DecodeProperty(Octets(e) + tail);
            (r.Ok? && r.value == Canon(e, KeyHolder([]))) <==> Masked(e) && StartsWith(tail, [0, 0])
    ensures Masked(e) && StartsWith(tail, [0, 0])
            ==> DecodeProperty(Octets(e) + tail) == Ok(Canon(e, KeyHolder([])), 11)
  {
    var d := Octets(e) + tail;
    ZeroType(e);
    assert d[0] == Octets(e)[0];
    if e.typ == DOUBLE {
      EmptyKeyNumber(e, tail);
    } else if DecodeProperty(d).Ok? && DecodeProperty(d).value.key == [] {
      PropertyKey(d);
      EmptyKeyOctets(d);
    }
  }

  lemma {:induction false} EmptyKeyNumber(e: Value, tail: seq<byte>)
    requires e.typ == DOUBLE && e.raw.Number? && e.raw.bits < TWO64 && e.key == []
    ensures var r := DecodeProperty(Octets(e) + tail);
            (r.Ok? && r.value == Canon(e, KeyHolder([]))) <==> Masked(e) && StartsWith(tail, [0, 0])
    ensures Masked(e) && StartsWith(tail, [0, 0])
            ==> DecodeProperty(Octets(e) + tail) == Ok(Canon(e, KeyHolder([])), 11)
  {
    var b := BE8(e.raw.bits);
    Wire8(e.raw.bits, []);
    assert b + [] == b;
    assert Octets(e) + tail == [DOUBLE] + b + tail;
    hide BE8, Value8, Octets, DecodeProperty;
    MaskedNumber(b, tail);
  }

  /** The eight octets of a number behind its type, read as a property. */
  lemma {:induction false} MaskedNumber(b: seq<byte>, tail: seq<byte>)
    requires |b| == 8
    ensures var r := DecodeProperty([DOUBLE] + b + tail);
            var v := KeyHolder([]).(typ := DOUBLE, raw := Number(Value8(b)));
            && (r.Ok? && r.value == v <==> Value8(b) == 0 && StartsWith(tail, [0, 0]))
            && (Value8(b) == 0 && StartsWith(tail, [0, 0]) ==> r == Ok(v, 11))
  {
    var d := [DOUBLE] + b + tail;
    NotZero(b);
    hide Decode, Value8, DecodeProperty;
    if b[0] != 0 {
      LongKey(d);
    } else {
      assert d[2..] == b[1..] + tail;
      ShortKey(d);
      NumberBehind(b, tail);
    }
  }

  lemma {:induction false} NumberBehind(b: seq<byte>, tail: seq<byte>)
    requires |b| == 8 && b[0] == 0
    ensures var r := Decode(KeyHolder([]), b[1..] + tail);
            var v := KeyHolder([]).(typ := DOUBLE, raw := Number(Value8(b)));
            && (r.Ok? && r.value == v <==> Value8(b) == 0 && StartsWith(tail, [0, 0]))
            && (Value8(b) == 0 && StartsWith(tail, [0, 0]) ==> r == Ok(v, 9))
  {
    var x := b[1..] + tail;
    NotZero(b);
    hide Decode, Value8;
    if b[1] != 0 {
      if Decode(KeyHolder([]), x).Ok? {
        EndType(KeyHolder([]), x);
      }
    } else {
      NumberAt(KeyHolder([]), x);
      if |tail| >= 2 {
        assert x[1..] == b[2..] + tail;
        Shifted(b, tail);
      }
    }
  }

  /** A second octet that is not zero makes a key that is not empty. */
  lemma {:induction false} LongKey(d: seq<byte>)
    requires |d| >= 2 && d[1] != 0
    ensures DecodeProperty(d).Ok? ==> DecodeProperty(d).value.key != []
  {
    hide DecodeProperty;
    if DecodeProperty(d).Ok? && DecodeProperty(d).value.key == [] {
      PropertyKey(d);
      EmptyKeyOctets(d);
    }
  }

  /** Two zero octets are an empty key. */
  lemma {:induction false} ShortKey(d: seq<byte>)
    requires |d| >= 2 && d[0] == d[1] == 0
    ensures DecodeText(d) == Ok([], 2)
    ensures DecodeProperty(d)
            == var r := Decode(KeyHolder([]), d[2..]); if r.Ok? then Ok(r.value, 2 + r.size) else Bad
  {
    hide Decode;
    assert Value2(d[0], d[1]) == 0 && d[2..2] == [];
  }

  lemma {:induction false} NotZero(b: seq<byte>)
    requires |b| == 8
    ensures Value8(b) == 0 ==> b[0] == b[1] == 0
  {
  }

  /** A null property comes out holding its key as its value, for the key was read into the same Value. */
  lemma {:induction false} NullKeepsKey(key: seq<byte>, rest: seq<byte>)
    requires |key| < TWO16
    ensures DecodeProperty(BE2(|key|) + key + ([0x05] + rest))
            == Ok(Value(0x05, key, Text(key), 0, false), |key| + 3)
  {
    DecodeTextOctets(key, [0x05] + rest);
    hide BE2, DecodeText;
    var d := BE2(|key|) + key + ([0x05] + rest);
    assert d[2 + |key|..] == [0x05] + rest;
  }

  // ---- every key -----------------------------------------------------------

  /** Whether a property comes back depends on its key being usable and its value being safe. */
  lemma {:induction false} PropertyVerdict(e: Value, tail: seq<byte>, safe: bool)
    requires Typed(e) && !Masked(e) && (e.raw.Number? ==> e.raw.bits < TWO64)
    requires Verdict(Decode(KeyHolder(e.key), Octets(e) + tail), Canon(e, KeyHolder(e.key)), |Octets(e)|, safe)
    ensures Verdict(DecodeProperty(KeyOctets(e.key) + Octets(e) + tail), Canon(e, KeyHolder(e.key)),
                    |KeyOctets(e.key)| + |Octets(e)|, Usable(e.key) && safe)
  {
    hide Octets, Canon, Decode, DecodeText;
    var d := KeyOctets(e.key) + Octets(e) + tail;
    if Usable(e.key) {
      KeyPrefix(e, tail);
    } else if e.key == [] {
      assert d == Octets(e) + tail;
      EmptyKey(e, tail);
    } else if DecodeProperty(d).Ok? {
      PropertyKey(d);
      CanonKey(e, KeyHolder(e.key));
    }
  }

  lemma {:induction false} CanonKey(e: Value, into: Value)
    requires Typed(e)
    ensures Canon(e, into).key == into.key
  {
  }
}
