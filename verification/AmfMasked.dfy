/** Objects with any keys at all, the number 0 under an empty key included. */
module AmfMasked {
  import opened Bytes
  import opened AmfValue
  import opened AmfDecode
  import opened AmfCanon
  import opened AmfKeys
  import opened AmfRoundTrip

  /** Properties with any keys and well-formed values. */
  predicate AnyKeys(list: seq<Value>)
    decreases |list|
  {
    list != [] ==> WellFormed(list[0]) && AnyKeys(list[1..])
  }

  /** What follows completes the last octet of an end marker, 09, to a key with an end marker for its
      value: the key's length is 0x0900 plus the next octet. */
  predicate HiddenEnd(rest: seq<byte>) {
    rest != [] &&
      var n := Value2(END_OF_OBJECT, rest[0]);
      n + 2 <= |rest| && rest[n + 1] == END_OF_OBJECT
  }

  /** Every key is usable and every value safe, except that the last property may be masked if what
      follows the object then still ends it. */
  predicate Returns(list: seq<Value>, rest: seq<byte>)
    requires TypedList(list)
    decreases |list|
  {
    if list == [] then true
    else if Masked(list[0]) then |list| == 1 && HiddenEnd(rest)
    else
      && Usable(list[0].key)
      && Safe(list[0], ListOctets(list[1..]) + (END + rest))
      && Returns(list[1..], rest)
  }

  function Tail(list: seq<Value>, rest: seq<byte>): seq<byte>
    requires TypedList(list)
  {
    ListOctets(list) + (END + rest)
  }

  predicate Zeros(t: seq<byte>, n: nat) {
    |t| >= n && forall i | 0 <= i < n :: t[i] == 0
  }

  predicate Comes(r: Result<seq<Value>>, list: seq<Value>) {
    r.Ok? && r.value == list
  }

  // ---- an end marker read one octet late -----------------------------------

  lemma {:induction false} LateEnd(rest: seq<byte>)
    ensures Comes(DecodeProperties([END_OF_OBJECT] + rest), []) <==> HiddenEnd(rest)
    ensures DecodeProperties([END_OF_OBJECT] + rest) != Ok([], 1)
  {
    var d := [END_OF_OBJECT] + rest;
    var r := DecodeProperty(d);
    if HiddenEnd(rest) {
      var n := Value2(END_OF_OBJECT, rest[0]);
      var key := d[2..2 + n];
      assert DecodeText(d) == Ok(key, 2 + n) && d[2 + n..][0] == END_OF_OBJECT;
      assert Decode(KeyHolder(key), d[2 + n..]) == Ok(KeyHolder(key).(typ := END_OF_OBJECT, ended := true), 1);
    } else if r.Ok? && r.value.typ == END_OF_OBJECT {
      EndType(KeyHolder(DecodeText(d).value), d[DecodeText(d).size..]);
    }
  }

  // ---- a list read from inside a run of zeros ------------------------------

  /** A stretch that repeats itself p positions further is zero if its first p octets are. */
  lemma {:induction false} Periodic(t: seq<byte>, p: nat, n: nat)
    requires 0 < p <= n <= |t| && Zeros(t, p)
    requires forall i | p <= i < n :: t[i] == t[i - p]
    ensures Zeros(t, n)
    decreases n
  {
    if n > p {
      Periodic(t, p, n - 1);
      assert t[n - 1] == t[n - 1 - p];
    }
  }

  /** Two numbers with the same value have the same octets. */
  lemma {:induction false} SameNumber(a: seq<byte>, b: seq<byte>)
    requires |a| >= 8 && |b| >= 8 && Value8(a) == Value8(b)
    ensures a[..8] == b[..8]
  {
    Octets4(a[0], a[1], a[2], a[3]);
    Octets4(a[4], a[5], a[6], a[7]);
    Octets4(b[0], b[1], b[2], b[3]);
    Octets4(b[4], b[5], b[6], b[7]);
    hide BE4, Value4;
    var x, y := Value4(a[0], a[1], a[2], a[3]), Value4(b[0], b[1], b[2], b[3]);
    assert x == y;
    assert a[..8] == BE4(x) + BE4(Value4(a[4], a[5], a[6], a[7]));
    assert b[..8] == BE4(y) + BE4(Value4(b[4], b[5], b[6], b[7]));
  }

  /** A property whose octets start with s zeros, read from behind them: only a masked one can come
      out of that, and then the zeros go on for the eleven octets read. */
  lemma {:induction false} ShiftedProperty(e: Value, tail: seq<byte>, s: nat)
    requires WellFormed(e) && s >= 2 && Zeros(KeyOctets(e.key) + Octets(e) + tail, s)
    requires var r := DecodeProperty((KeyOctets(e.key) + Octets(e) + tail)[s..]);
             r.Ok? && r.value == Canon(e, KeyHolder(e.key))
    ensures var t := KeyOctets(e.key) + Octets(e) + tail;
            Masked(e) && DecodeProperty(t[s..]).size == 11 && Zeros(t, s + 11)
  {
    var t := KeyOctets(e.key) + Octets(e) + tail;
    PropertyKey(t[s..]);
    CanonKey(e, KeyHolder(e.key));
    if e.key != [] {
      assert t == KeyOctets(e.key) + (Octets(e) + tail);
      WrittenKey(e.key, Octets(e) + tail);
    }
    EmptyKeyOctets(t[s..]);
    ZeroType(e);
    assert t == Octets(e) + tail && t[0] == Octets(e)[0];
    ShiftedNumber(e, tail, s);
  }

  /** A key that is written starts with its length. */
  lemma {:induction false} WrittenKey(key: seq<byte>, rest: seq<byte>)
    requires Usable(key)
    ensures !Zeros(KeyOctets(key) + rest, 2)
  {
    Wire2(|key|);
    var k, t := BE2(|key|), KeyOctets(key) + rest;
    assert t[0] == k[0] && t[1] == k[1];
  }

  /** A stretch of zeros that holds a whole number and its type. */
  lemma {:induction false} ZerosGoOn(t: seq<byte>, s: nat)
    requires s >= 2 && |t| >= s + 11 && Zeros(t, s + 3) && Value8(t[s + 3..]) == Value8(t[1..])
    ensures Zeros(t, s + 11) && Value8(t[1..]) == 0
  {
    SameNumber(t[1..], t[s + 3..]);
    ZeroStretch(t, s);
  }

  lemma {:induction false} ZeroStretch(t: seq<byte>, s: nat)
    requires s >= 2 && |t| >= s + 11 && Zeros(t, s + 3) && t[s + 3..][..8] == t[1..][..8]
    ensures Zeros(t, s + 11) && Value8(t[1..]) == 0
  {
    forall i | s + 2 <= i < s + 11 ensures t[i] == t[i - (s + 2)] {
      if i >= s + 3 {
        assert t[i] == t[s + 3..][..8][i - s - 3] && t[i - s - 2] == t[1..][..8][i - s - 3];
      }
    }
    Periodic(t, s + 2, s + 11);
  }

  lemma {:induction false} ShiftedNumber(e: Value, tail: seq<byte>, s: nat)
    requires WellFormed(e) && e.typ == DOUBLE && e.key == [] && s >= 2 && Zeros(Octets(e) + tail, s)
    requires var d := (Octets(e) + tail)[s..];
             && DecodeText(d) == Ok([], 2) && d[0] == d[1] == 0
             && Decode(KeyHolder([]), d[2..]).Ok? && Decode(KeyHolder([]), d[2..]).value == Canon(e, KeyHolder([]))
    ensures var t := Octets(e) + tail;
            Masked(e) && DecodeProperty(t[s..]).Ok? && DecodeProperty(t[s..]).size == 11 && Zeros(t, s + 11)
  {
    var t := Octets(e) + tail;
    var d := t[s..];
    hide Decode, DecodeProperty, DecodeText, Value8, BE8, Octets, Masked, WellFormed, Typed, Canon;
    BehindType(e, tail);
    ShortKey(d);
    EndType(KeyHolder([]), d[2..]);
    NumberAt(KeyHolder([]), d[2..]);
    assert d[2..][1..] == t[s + 3..];
    ZerosGoOn(t, s);
  }

  lemma {:induction false} BehindType(e: Value, tail: seq<byte>)
    requires WellFormed(e) && e.typ == DOUBLE && e.key == []
    ensures e.raw.Number? && Value8((Octets(e) + tail)[1..]) == e.raw.bits && (Masked(e) <==> e.raw.bits == 0)
    ensures Canon(e, KeyHolder([])) == KeyHolder([]).(typ := DOUBLE, raw := e.raw)
  {
    Wire8(e.raw.bits, tail);
    hide Value8, BE8;
    assert (Octets(e) + tail)[1..] == BE8(e.raw.bits) + tail;
  }

  // ---- lists ---------------------------------------------------------------

  /** The property loop, one property at a time. */
  lemma {:induction false} LoopTurn(d: seq<byte>, c: Value, cs: seq<Value>)
    requires c.typ != END_OF_OBJECT && Comes(DecodeProperties(d), [c] + cs)
    ensures d != [] && DecodeProperty(d).Ok? && DecodeProperty(d).value == c
    ensures Comes(DecodeProperties(d[DecodeProperty(d).size..]), cs)
    ensures DecodeProperties(d).size
            == DecodeProperty(d).size + DecodeProperties(d[DecodeProperty(d).size..]).size
  {
    hide DecodeProperty;
    var r := DecodeProperty(d);
    var q := DecodeProperties(d[r.size..]);
    assert DecodeProperties(d).value[0] == r.value;
    assert ([c] + q.value)[1..] == q.value && ([c] + cs)[1..] == cs;
  }

  /** A list whose octets start with two or more zeros does not come out from behind them. */
  lemma {:induction false} NeverShifted(list: seq<Value>, rest: seq<byte>, s: nat)
    requires AnyKeys(list) && TypedList(list) && list != [] && s >= 2 && Zeros(Tail(list, rest), s)
    ensures !Comes(DecodeProperties(Tail(list, rest)[s..]), CanonList(list, true))
    decreases |list|
  {
    hide DecodeProperty, DecodeProperties, Octets, Canon, KeyOctets, WellFormed;
    var t := Tail(list, rest);
    var e, es := list[0], list[1..];
    ListCons(list, END + rest, true);
    CanonTyp(e, KeyHolder(e.key));
    var tail := Tail(es, rest);
    assert es == [] ==> tail[2] == END_OF_OBJECT;
    assert t == KeyOctets(e.key) + Octets(e) + tail;
    if Comes(DecodeProperties(t[s..]), CanonList(list, true)) {
      LoopTurn(t[s..], Canon(e, KeyHolder(e.key)), CanonList(es, true));
      ShiftedProperty(e, tail, s);
      MaskedOctets(e);
      assert t[s..][11..] == t[s + 11..] == tail[s + 2..];
      assert forall i | 0 <= i < s + 2 :: tail[i] == t[9 + i];
      assert Zeros(tail, s + 2);
      if es != [] {
        NeverShifted(es, rest, s + 2);
      }
    }
  }

  lemma {:induction false} MaskedOctets(e: Value)
    requires Masked(e)
    ensures KeyOctets(e.key) == [] && |Octets(e)| == 9
  {
  }

  /** Both ways a list can come back: as the value, and with exactly its octets. */
  predicate Verdicts(list: seq<Value>, rest: seq<byte>)
    requires TypedList(list)
  {
    var r, cs := DecodeProperties(Tail(list, rest)), CanonList(list, true);
    && (Comes(r, cs) <==> Returns(list, rest))
    && (r == Ok(cs, |ListOctets(list)| + 3) <==> SafeList(list, true, END + rest))
  }

  lemma {:induction false} NoneReturn(rest: seq<byte>)
    ensures Verdicts([], rest)
  {
    DecodeEnd(rest);
    assert Tail([], rest) == END + rest;
  }

  /** The octets of a masked property in front of others. */
  lemma {:induction false} MaskedFront(e: Value, es: seq<Value>, rest: seq<byte>)
    requires Masked(e) && Typed(e) && TypedList([e] + es) && TypedList(es)
    ensures var list, c, tail := [e] + es, Canon(e, KeyHolder([])), Tail(es, rest);
            && Tail(list, rest) == Octets(e) + tail && Tail(list, rest)[11..] == tail[2..]
            && |ListOctets(list)| == 9 + |ListOctets(es)|
            && CanonList(list, true) == [c] + CanonList(es, true) && c.typ != END_OF_OBJECT
            && !SafeList(list, true, END + rest)
  {
    hide Octets, Canon, KeyOctets, Safe;
    var list := [e] + es;
    assert list[0] == e && list[1..] == es;
    ListCons(list, END + rest, true);
    CanonTyp(e, KeyHolder([]));
    MaskedOctets(e);
  }

  /** A masked property in front of others. */
  lemma {:induction false} MaskedFirst(e: Value, es: seq<Value>, rest: seq<byte>)
    requires Masked(e) && Typed(e) && AnyKeys(es) && TypedList([e] + es) && TypedList(es) && es != []
    ensures !Comes(DecodeProperties(Tail([e] + es, rest)), CanonList([e] + es, true))
    ensures !SafeList([e] + es, true, END + rest)
  {
    hide DecodeProperty, DecodeProperties, Octets, Canon, CanonList, Typed, TypedList, AnyKeys, Tail, SafeList;
    var t, tail, c := Tail([e] + es, rest), Tail(es, rest), Canon(e, KeyHolder([]));
    MaskedFront(e, es, rest);
    EmptyKey(e, tail);
    if Comes(DecodeProperties(t), [c] + CanonList(es, true)) {
      LoopTurn(t, c, CanonList(es, true));
      assert Zeros(tail, 2);
      NeverShifted(es, rest, 2);
    }
  }

  /** A masked property at the end. */
  lemma {:induction false} MaskedAlone(e: Value, rest: seq<byte>)
    requires Masked(e) && Typed(e) && TypedList([e])
    ensures var r, cs := DecodeProperties(Tail([e], rest)), CanonList([e], true);
            && (Comes(r, cs) <==> HiddenEnd(rest)) && r != Ok(cs, |ListOctets([e])| + 3)
            && !SafeList([e], true, END + rest)
  {
    hide DecodeProperty, DecodeProperties, Octets, Canon, Typed, SafeList, HiddenEnd, KeyOctets, Safe;
    var t, tail, c := Tail([e], rest), Tail([], rest), Canon(e, KeyHolder([]));
    assert [e] + [] == [e] && [c] + [] == [c];
    MaskedFront(e, [], rest);
    assert tail == END + rest && tail[2..] == [END_OF_OBJECT] + rest;
    EmptyKey(e, tail);
    LateEnd(rest);
    MaskedLast(t, c, tail[2..]);
  }

  lemma {:induction false} MaskedLast(t: seq<byte>, c: Value, more: seq<byte>)
    requires |t| >= 11 && t[11..] == more && DecodeProperty(t) == Ok(c, 11) && c.typ != END_OF_OBJECT
    ensures Comes(DecodeProperties(t), [c]) <==> Comes(DecodeProperties(more), [])
    ensures DecodeProperties(t) == Ok([c], 12) <==> DecodeProperties(more) == Ok([], 1)
  {
    hide DecodeProperty;
    var q := DecodeProperties(more);
    if q.Ok? {
      assert ([c] + q.value)[1..] == q.value && [c] + [] == [c];
    }
  }

  /** Any other property in front. */
  lemma {:induction false} OtherFirst(e: Value, es: seq<Value>, rest: seq<byte>)
    requires !Masked(e) && WellFormed(e) && TypedList([e] + es) && TypedList(es) && Verdicts(es, rest)
    ensures Verdicts([e] + es, rest)
  {
    hide DecodeProperty, Octets, Canon, KeyOctets, Safe;
    var list := [e] + es;
    assert list[0] == e && list[1..] == es;
    var t, tail := Tail(list, rest), Tail(es, rest);
    var c, cs := Canon(e, KeyHolder(e.key)), CanonList(es, true);
    ListCons(list, END + rest, true);
    CanonTyp(e, KeyHolder(e.key));
    PropertyExact(e, tail);
    hide WellFormed, DecodeProperties;
    var front := KeyOctets(e.key) + Octets(e);
    assert t == front + tail && t[|front|..] == tail;
    if Usable(e.key) && Safe(e, tail) {
      TurnExact(t, c, |front|, cs);
    } else if Comes(DecodeProperties(t), [c] + cs) {
      LoopTurn(t, c, cs);
    }
  }

  lemma {:induction false} TurnExact(t: seq<byte>, c: Value, n: nat, cs: seq<Value>)
    requires t != [] && n <= |t| && DecodeProperty(t) == Ok(c, n) && c.typ != END_OF_OBJECT
    ensures var q := DecodeProperties(t[n..]);
            && (Comes(DecodeProperties(t), [c] + cs) <==> Comes(q, cs))
            && forall m: nat :: DecodeProperties(t) == Ok([c] + cs, n + m) <==> q == Ok(cs, m)
  {
    hide DecodeProperty;
    var q := DecodeProperties(t[n..]);
    if q.Ok? {
      assert ([c] + q.value)[1..] == q.value && ([c] + cs)[1..] == cs;
    }
  }

  /** Properties with any keys: they come back as values if and only if Returns says so, and with
      exactly their octets if and only if every key is usable and every value safe. */
  lemma {:induction false} AnyKeysReturn(list: seq<Value>, rest: seq<byte>)
    requires AnyKeys(list) && TypedList(list)
    ensures Verdicts(list, rest)
    decreases |list|
  {
    hide WellFormed, Masked, DecodeProperties, CanonList, SafeList, ListOctets, Tail, Safe, Typed;
    if list == [] {
      NoneReturn(rest);
    } else {
      var e, es := list[0], list[1..];
      assert list == [e] + es;
      if Masked(e) {
        if es == [] {
          assert list == [e];
          MaskedAlone(e, rest);
        } else {
          MaskedFirst(e, es, rest);
        }
      } else {
        AnyKeysReturn(es, rest);
        OtherFirst(e, es, rest);
      }
    }
  }

  /** An object or ECMA array whose properties have any keys, with whatever follows it. */
  lemma {:induction false} ObjectReturns(v: Value, into: Value, rest: seq<byte>)
    requires Typed(v) && IsKeyed(v.typ) && |v.raw.list| < TWO32 && AnyKeys(v.raw.list)
    ensures var r := Decode(into, Octets(v) + rest);
            && (r.Ok? && r.value == Canon(v, into) <==> Returns(v.raw.list, rest))
            && (r == Ok(Canon(v, into), |Octets(v)|) <==> Safe(v, rest))
  {
    hide DecodeProperties, DecodeItems, ListOctets, CanonList, SafeList, Returns, DecodeText, DecodeLongText,
      Value8, BE4;
    var list := v.raw.list;
    var t := Tail(list, rest);
    AnyKeysReturn(list, rest);
    var data := Octets(v) + rest;
    if v.typ == OBJECT {
      assert data[1..] == t;
    } else {
      assert data[1..][4..] == t;
    }
  }
}
