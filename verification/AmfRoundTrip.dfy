/** Decoding what was encoded: exactly when it gives the value back. */
module AmfRoundTrip {
  import opened Bytes
  import opened AmfValue
  import opened AmfDecode
  import opened AmfCanon
  import opened AmfKeys

  // ---- the leaves ----------------------------------------------------------

  lemma {:induction false} DecodeLongTextOctets(s: seq<byte>, previous: Raw, rest: seq<byte>)
    requires 0 < |s| < TWO32
    ensures DecodeLongText(BE4(|s|) + s + rest, previous) == Ok(Text(s), 4 + |s|)
  {
    LengthSpelt(|s|);
    TextSlices(BE4(|s|), s, rest);
    hide *;
    LongTextAt(BE4(|s|) + s + rest, previous, |s|);
  }

  lemma {:induction false} LengthSpelt(n: nat)
    requires n < TWO32
    ensures var x := BE4(n); Value4(x[0], x[1], x[2], x[3]) == n
  {
    Wire4(n);
  }

  lemma {:induction false} TextSlices(n: seq<byte>, s: seq<byte>, rest: seq<byte>)
    requires |n| == 4
    ensures var d := n + s + rest;
            && |d| >= 4 + |s| && d[0] == n[0] && d[1] == n[1] && d[2] == n[2] && d[3] == n[3]
            && d[4..4 + |s|] == s
  {
  }

  lemma {:induction false} LongTextAt(d: seq<byte>, previous: Raw, n: nat)
    requires |d| >= 4 + n && n > 0 && Value4(d[0], d[1], d[2], d[3]) == n
    ensures DecodeLongText(d, previous) == Ok(Text(d[4..4 + n]), 4 + n)
  {
    hide Value4;
  }

  lemma {:induction false} DecodeLeaf(v: Value, into: Value, rest: seq<byte>)
    requires WellFormed(v) && !IsKeyed(v.typ) && v.typ != STRICT_ARRAY
    ensures Decode(into, Octets(v) + rest) == Ok(Canon(v, into), |Octets(v)|)
  {
    if v.typ == DOUBLE {
      NumberLeaf(v, into, rest);
    } else if v.typ == DATE {
      DateLeaf(v, into, rest);
    } else if IsText(v.typ) {
      DecodeTextLeaf(v, into, rest);
    }
    hide BE8, BE2, TextOctets, DecodeText, DecodeLongText, DecodeObject, DecodeStrictArray, Value8;
  }

  lemma {:induction false} NumberLeaf(v: Value, into: Value, rest: seq<byte>)
    requires v.typ == DOUBLE && v.raw.Number? && v.raw.bits < TWO64
    ensures Decode(into, Octets(v) + rest) == Ok(Canon(v, into), |Octets(v)|)
  {
    Wire8(v.raw.bits, rest);
    hide Value8, BE8, Decode;
    var data := Octets(v) + rest;
    assert data[1..] == BE8(v.raw.bits) + rest;
    NumberAt(into, data);
  }

  lemma {:induction false} DateLeaf(v: Value, into: Value, rest: seq<byte>)
    requires v.typ == DATE && v.raw.Number? && v.raw.bits < TWO64 && v.offset < TWO16
    ensures Decode(into, Octets(v) + rest) == Ok(Canon(v, into), |Octets(v)|)
  {
    hide Value8, Value2, BE8, BE2, Decode;
    var data, d := Octets(v) + rest, BE2(v.offset) + rest;
    Wire8(v.raw.bits, d);
    Wire2(v.offset);
    assert data[1..] == BE8(v.raw.bits) + d;
    DecodeForms(into, data);
  }

  lemma {:induction false} DecodeTextLeaf(v: Value, into: Value, rest: seq<byte>)
    requires WellFormed(v) && IsText(v.typ)
    ensures Decode(into, Octets(v) + rest) == Ok(Canon(v, into), |Octets(v)|)
  {
    hide BE4, BE2, DecodeText, DecodeLongText;
    var s := v.raw.s;
    var data := Octets(v) + rest;
    if |s| >= 0xFFFF {
      assert data[1..] == BE4(|s|) + s + rest;
      DecodeLongTextOctets(s, into.raw, rest);
    } else {
      assert data[1..] == BE2(|s|) + s + rest;
      DecodeTextOctets(s, rest);
    }
  }

  // ---- lists ---------------------------------------------------------------

  /** The end marker ends the property loop. */
  lemma {:induction false} DecodeEnd(rest: seq<byte>)
    ensures DecodeProperties(END + rest) == Ok([], 3)
  {
    var d := END + rest;
    assert DecodeText(d) == Ok([], 2);
    assert d[2..] == [END_OF_OBJECT] + rest;
    assert Decode(KeyHolder([]), d[2..]) == Ok(KeyHolder([]).(typ := END_OF_OBJECT, ended := true), 1);
  }

  /** The functions on lists, one element at a time. */
  lemma {:induction false} ListCons(list: seq<Value>, rest: seq<byte>, keyed: bool)
    requires list != [] && TypedList(list)
    ensures var e, es := list[0], list[1..];
            && ListOctets(list) + rest == KeyOctets(e.key) + Octets(e) + (ListOctets(es) + rest)
            && |ListOctets(list)| == |KeyOctets(e.key)| + |Octets(e)| + |ListOctets(es)|
            && CanonList(list, keyed) == [Canon(e, Holder(e, keyed))] + CanonList(es, keyed)
            && (SafeList(list, keyed, rest)
                <==> (if keyed then Usable(e.key) else e.key == [])
                     && Safe(e, ListOctets(es) + rest) && SafeList(es, keyed, rest))
            && (KeyOctets(e.key) == [] ==> ListOctets(list) + rest == Octets(e) + (ListOctets(es) + rest))
  {
    hide Octets, Canon, Safe, KeyOctets, Usable;
  }

  /** A right head leaves the verdict to the tail. */
  lemma {:induction false} PrependVerdict(c: Value, n: nat, r: Result<seq<Value>>, list: seq<Value>, m: nat, safe: bool)
    requires Verdict(r, list, m, safe)
    ensures Verdict(Prepend([c], n, r), [c] + list, n + m, safe)
  {
    if r.Ok? && [c] + r.value == [c] + list {
      assert r.value == ([c] + r.value)[1..] == ([c] + list)[1..] == list;
    }
  }

  /** One property in front of others. */
  lemma {:induction false} PropertyStep(d: seq<byte>, n: nat, c: Value, list: seq<Value>, size: nat, first: bool,
      others: bool)
    requires d != [] && n <= |d| && c.typ != END_OF_OBJECT
    requires Verdict(DecodeProperty(d), c, n, first)
    requires Verdict(DecodeProperties(d[n..]), list, size, others)
    ensures Verdict(DecodeProperties(d), [c] + list, n + size, first && others)
  {
    hide DecodeProperty;
    var r := DecodeProperties(d);
    if first {
      PrependVerdict(c, n, DecodeProperties(d[n..]), list, size, others);
    } else if r.Ok? && r.value != [] {
      assert r.value[0] == DecodeProperty(d).value;
    }
  }

  /** One element in front of others. */
  lemma {:induction false} ItemStep(e: Value, tail: seq<byte>, count: nat, list: seq<Value>, size: nat, first: bool,
      others: bool)
    requires Typed(e)
    requires Verdict(Decode(Fresh(DOUBLE), Octets(e) + tail), Canon(e, Fresh(DOUBLE)), |Octets(e)|, first)
    requires Verdict(DecodeItems(tail, count), list, size, others)
    ensures Verdict(DecodeItems(Octets(e) + tail, count + 1), [Canon(e, Fresh(DOUBLE))] + list,
                    |Octets(e)| + size, first && others)
  {
    var d := Octets(e) + tail;
    assert d[|Octets(e)|..] == tail;
    var c := Canon(e, Fresh(DOUBLE));
    hide Octets, Canon, Decode;
    var r := DecodeItems(d, count + 1);
    if first {
      PrependVerdict(c, |Octets(e)|, DecodeItems(tail, count), list, size, others);
    } else if !first && r.Ok? {
      assert r.value[0] == Decode(Fresh(DOUBLE), d).value != ([c] + list)[0];
    }
  }

  lemma {:induction false} NoProperties(tail: seq<byte>, m: nat)
    requires DecodeProperties(tail) == Ok([], m)
    ensures Verdict(DecodeProperties(ListOctets([]) + tail), CanonList([], true), |ListOctets([])| + m,
                    SafeList([], true, tail))
  {
    assert ListOctets([]) + tail == tail;
  }

  lemma {:induction false} NoItems(rest: seq<byte>, count: nat)
    requires count == 0 || rest == []
    ensures Verdict(DecodeItems(ListOctets([]) + rest, count), CanonList([], false), |ListOctets([])|,
                    SafeList([], false, rest))
  {
  }

  lemma {:induction false} CanonTyp(v: Value, into: Value)
    requires Typed(v)
    ensures Canon(v, into).typ != END_OF_OBJECT
  {
  }

  /** What the list predicates say of the first element and the others. */
  lemma {:induction false} FirstAndOthers(list: seq<Value>, keyed: bool)
    requires list != [] && TypedList(list) && WellFormedList(list, keyed)
    ensures Typed(list[0]) && WellFormed(list[0]) && list[0].typ != END_OF_OBJECT
    ensures list[0].raw.Number? ==> list[0].raw.bits < TWO64
    ensures keyed ==> !Masked(list[0])
    ensures TypedList(list[1..]) && WellFormedList(list[1..], keyed)
  {
  }

  /** Properties in front of an end marker or of nothing at all. */
  lemma {:induction false} DecodeListKeyed(list: seq<Value>, last: seq<byte>, m: nat)
    requires TypedList(list) && WellFormedList(list, true) && DecodeProperties(last) == Ok([], m)
    ensures Verdict(DecodeProperties(ListOctets(list) + last), CanonList(list, true), |ListOctets(list)| + m,
                    SafeList(list, true, last))
    decreases list, 1
  {
    hide Decode, Octets, Canon, Safe, DecodeProperties, Verdict, KeyOctets, WellFormed, WellFormedList, Typed,
        TypedList,
      ListOctets, CanonList, SafeList;
    if list == [] {
      NoProperties(last, m);
    } else {
      FirstAndOthers(list, true);
      var e, es := list[0], list[1..];
      var tail := ListOctets(es) + last;
      ListCons(list, last, true);
      DecodeOctets(e, KeyHolder(e.key), tail);
      DecodeListKeyed(es, last, m);
      PropertyVerdict(e, tail, Safe(e, tail));
      var front := KeyOctets(e.key) + Octets(e);
      assert (front + tail)[|front|..] == tail;
      CanonTyp(e, KeyHolder(e.key));
      PropertyStep(front + tail, |front|, Canon(e, KeyHolder(e.key)), CanonList(es, true), |ListOctets(es)| + m,
                   Usable(e.key) && Safe(e, tail), SafeList(es, true, last));
    }
  }

  /** As many elements as announced, or all there are. */
  lemma {:induction false} DecodeListBare(list: seq<Value>, rest: seq<byte>, count: nat)
    requires TypedList(list) && WellFormedList(list, false)
    requires count == |list| || (count > |list| && rest == [])
    ensures Verdict(DecodeItems(ListOctets(list) + rest, count), CanonList(list, false),
                    |ListOctets(list)|, SafeList(list, false, rest))
    decreases list, 1
  {
    hide Decode, Octets, Canon, Safe, DecodeItems, Verdict, KeyOctets, WellFormed, WellFormedList, Typed, TypedList,
      ListOctets, CanonList, SafeList;
    if list == [] {
      NoItems(rest, count);
    } else {
      FirstAndOthers(list, false);
      var e, es := list[0], list[1..];
      var tail := ListOctets(es) + rest;
      ListCons(list, rest, false);
      if e.key == [] {
        DecodeOctets(e, Fresh(DOUBLE), tail);
        DecodeListBare(es, rest, count - 1);
        NoKeyOctets();
        ItemStep(e, tail, count - 1, CanonList(es, false), |ListOctets(es)|, Safe(e, tail), SafeList(es, false, rest));
      } else {
        CanonKey(e, Holder(e, false));
        KeyedItem(ListOctets(list) + rest, count, Canon(e, Holder(e, false)), CanonList(es, false),
                  |ListOctets(list)|);
      }
    }
  }

  lemma {:induction false} NoKeyOctets()
    ensures KeyOctets([]) == []
  {
  }

  /** What comes out of an array has no key. */
  lemma {:induction false} KeyedItem(d: seq<byte>, count: nat, c: Value, list: seq<Value>, size: nat)
    requires c.key != []
    ensures Verdict(DecodeItems(d, count), [c] + list, size, false)
  {
    hide Decode;
    if DecodeItems(d, count).Ok? && DecodeItems(d, count).value != [] {
      KeyKept(Fresh(DOUBLE), d);
      assert DecodeItems(d, count).value[0] == Decode(Fresh(DOUBLE), d).value;
    }
  }

  // ---- the theorem ---------------------------------------------------------

  /** For every well-formed value and whatever follows it in the stream: if it is safe there,
      decoding gives it back and takes exactly its octets; if not, decoding fails or gives back
      something else. */
  lemma {:induction false} DecodeOctets(v: Value, into: Value, rest: seq<byte>)
    requires WellFormed(v) && !into.ended
    ensures Verdict(Decode(into, Octets(v) + rest), Canon(v, into), |Octets(v)|, Safe(v, rest))
    decreases v, 0
  {
    if v.typ == OBJECT {
      DecodeObjectOctets(v, into, rest);
    } else if v.typ == ECMA_ARRAY {
      DecodeECMAOctets(v, into, rest);
    } else if v.typ == STRICT_ARRAY {
      DecodeStrictOctets(v, into, rest);
    } else {
      DecodeLeaf(v, into, rest);
    }
  }

  lemma {:induction false} DecodeObjectOctets(v: Value, into: Value, rest: seq<byte>)
    requires WellFormed(v) && v.typ == OBJECT
    ensures Verdict(Decode(into, Octets(v) + rest), Canon(v, into), |Octets(v)|, Safe(v, rest))
    decreases v.raw.list, 2
  {
    hide DecodeProperties, DecodeItems, ListOctets, CanonList, SafeList, WellFormedList, TypedList, DecodeText,
        DecodeLongText, Value8, BE8;
    var list := v.raw.list;
    DecodeEnd(rest);
    DecodeListKeyed(list, END + rest, 3);
    assert (Octets(v) + rest)[1..] == ListOctets(list) + (END + rest);
  }

  lemma {:induction false} DecodeECMAOctets(v: Value, into: Value, rest: seq<byte>)
    requires WellFormed(v) && v.typ == ECMA_ARRAY
    ensures Verdict(Decode(into, Octets(v) + rest), Canon(v, into), |Octets(v)|, Safe(v, rest))
    decreases v.raw.list, 2
  {
    hide DecodeProperties, DecodeItems, ListOctets, CanonList, SafeList, WellFormedList, TypedList, DecodeText,
        DecodeLongText, Value8, BE8;
    var list := v.raw.list;
    DecodeEnd(rest);
    DecodeListKeyed(list, END + rest, 3);
    var data := Octets(v) + rest;
    hide BE4;
    assert data[1..][4..] == ListOctets(list) + (END + rest);
  }

  /** The swallowed end marker is what tells an unsafe array. */
  lemma {:induction false} DecodeStrictList(list: seq<Value>, rest: seq<byte>)
    requires TypedList(list) && WellFormedList(list, false) && |list| < TWO32
    ensures var safe := SafeList(list, false, rest) && !StartsWith(rest, END);
            Verdict(DecodeStrictArray(BE4(|list|) + (ListOctets(list) + rest)), (CanonList(list, false), false),
                    4 + |ListOctets(list)|, safe)
    decreases list, 2
  {
    hide DecodeItems, DecodeStrictArray, ListOctets, CanonList, SafeList, WellFormedList, TypedList, BE4, Value4;
    DecodeListBare(list, rest, |list|);
    LengthSpelt(|list|);
    var o := ListOctets(list);
    CountSlices(BE4(|list|), o, rest);
    StrictArrayIs(BE4(|list|) + (o + rest), |list|);
  }

  lemma {:induction false} CountSlices(n: seq<byte>, o: seq<byte>, rest: seq<byte>)
    requires |n| == 4
    ensures var d := n + (o + rest);
            && |d| >= 4 + |o| && d[0] == n[0] && d[1] == n[1] && d[2] == n[2] && d[3] == n[3]
            && d[4..] == o + rest && d[4 + |o|..] == rest
  {
  }

  lemma {:induction false} StrictArrayIs(d: seq<byte>, n: nat)
    requires |d| >= 4 && Value4(d[0], d[1], d[2], d[3]) == n
    ensures DecodeStrictArray(d)
            == match DecodeItems(d[4..], n)
               case Bad => Bad
               case Ok(list, k) =>
                 if StartsWith(d[4 + k..], END) then Ok((list, true), 7 + k) else Ok((list, false), 4 + k)
  {
    hide DecodeItems, Value4;
  }

  lemma {:induction false} DecodeStrictOctets(v: Value, into: Value, rest: seq<byte>)
    requires WellFormed(v) && v.typ == STRICT_ARRAY && !into.ended
    ensures Verdict(Decode(into, Octets(v) + rest), Canon(v, into), |Octets(v)|, Safe(v, rest))
    decreases v.raw.list, 3
  {
    hide DecodeStrictArray, ListOctets, CanonList, SafeList, WellFormedList, TypedList, BE4;
    var list := v.raw.list;
    DecodeStrictList(list, rest);
    assert (Octets(v) + rest)[1..] == BE4(|list|) + (ListOctets(list) + rest);
  }

  /** The round trip holds if and only if the value is safe where it stands. */
  lemma {:induction false} RoundTrip(v: Value, into: Value, rest: seq<byte>)
    requires WellFormed(v) && !into.ended
    ensures var r := Decode(into, Octets(v) + rest);
            (r.Ok? && r.value == Canon(v, into)) <==> Safe(v, rest)
    ensures Safe(v, rest) ==> Decode(into, Octets(v) + rest) == Ok(Canon(v, into), |Octets(v)|)
  {
    DecodeOctets(v, into, rest);
  }

  /** A property with whatever key, masked ones included: it comes back with exactly its octets if and
      only if its key is usable and its value is safe; a masked one comes back as a value, at the cost
      of two octets that are not its own, if and only if those are zero. */
  lemma {:induction false} PropertyExact(e: Value, tail: seq<byte>)
    requires WellFormed(e)
    ensures var r := DecodeProperty(KeyOctets(e.key) + Octets(e) + tail);
            var c := Canon(e, KeyHolder(e.key));
            && (r == Ok(c, |KeyOctets(e.key)| + |Octets(e)|) <==> Usable(e.key) && Safe(e, tail))
            && (r.Ok? && r.value == c
                <==> (Usable(e.key) && Safe(e, tail)) || (Masked(e) && StartsWith(tail, [0, 0])))
  {
    if Masked(e) {
      assert KeyOctets(e.key) + Octets(e) + tail == Octets(e) + tail;
      EmptyKey(e, tail);
    } else {
      DecodeOctets(e, KeyHolder(e.key), tail);
      PropertyVerdict(e, tail, Safe(e, tail));
    }
    hide Octets, Canon, Decode, DecodeProperty, KeyOctets;
  }

  /** Whatever follows, an object with one boolean under an empty key does not come back. */
  lemma {:induction false} EmptyKeyLost(into: Value, b: bool, rest: seq<byte>)
    requires !into.ended
    ensures var v := Fresh(OBJECT).(raw := Elements([Fresh(BOOLEAN).(raw := Truth(b))]));
            var r := Decode(into, Octets(v) + rest);
            Typed(v) && !(r.Ok? && r.value == Canon(v, into))
  {
    var e := Fresh(BOOLEAN).(raw := Truth(b));
    var v := Fresh(OBJECT).(raw := Elements([e]));
    assert [e][1..] == [] && TypedList([]) && WellFormedList([], true);
    assert Typed(e) && e.offset < TWO16 && !IsText(e.typ) && !IsKeyed(e.typ) && e.typ != STRICT_ARRAY;
    assert WellFormed(e);
    assert TypedList([e]) && !Masked(e);
    assert WellFormedList([e], true);
    RoundTrip(v, into, rest);
  }

  /** At the end of the data an object may lack its end marker. It then comes back if and only if every
      property is usable and safe there, a strict array at its end included. */
  lemma {:induction false} Unclosed(v: Value, into: Value)
    requires WellFormed(v) && IsKeyed(v.typ) && |ListOctets(v.raw.list)| >= 3
    ensures var o := Octets(v);
            var r := Decode(into, o[..|o| - 3]);
            && (r.Ok? && r.value == Canon(v, into) <==> SafeList(v.raw.list, true, []))
            && (SafeList(v.raw.list, true, []) ==> r == Ok(Canon(v, into), |o| - 3))
  {
    hide DecodeProperties, DecodeItems, ListOctets, CanonList, SafeList, WellFormedList, TypedList, DecodeText,
        DecodeLongText, Value8, BE8, BE4;
    var list, o := v.raw.list, Octets(v);
    NothingLeft();
    DecodeListKeyed(list, [], 0);
    assert ListOctets(list) + [] == ListOctets(list);
    var data := o[..|o| - 3];
    if v.typ == OBJECT {
      assert data[1..] == ListOctets(list);
    } else {
      assert data[1..][4..] == ListOctets(list);
    }
  }

  lemma {:induction false} NothingLeft()
    ensures DecodeProperties([]) == Ok([], 0)
  {
  }

  // ---- arrays --------------------------------------------------------------

  /** At the end of the data a strict array may announce more elements than there are. */
  lemma {:induction false} CountTooLarge(list: seq<Value>, into: Value, n: nat)
    requires TypedList(list) && WellFormedList(list, false) && |list| < n < TWO32
    ensures var o := [STRICT_ARRAY] + BE4(n) + ListOctets(list);
            var c := into.(typ := STRICT_ARRAY, raw := Elements(CanonList(list, false)));
            && (Decode(into, o) == Ok(c, |o|) <==> SafeList(list, false, []))
            && (!SafeList(list, false, []) ==> Decode(into, o).Bad? || Decode(into, o).value.raw != c.raw)
  {
    hide DecodeItems, ListOctets, CanonList, SafeList, WellFormedList, TypedList, BE4, Value4;
    DecodeListBare(list, [], n);
    Wire4(n);
    var o := [STRICT_ARRAY] + BE4(n) + ListOctets(list);
    assert ListOctets(list) + [] == ListOctets(list);
    Behind([STRICT_ARRAY], BE4(n), ListOctets(list));
    StrictAt(into, o, n);
  }

  /** A strict array that ends at the end of the data. */
  lemma {:induction false} StrictAt(into: Value, o: seq<byte>, n: nat)
    requires |o| >= 5 && o[0] == STRICT_ARRAY && Value4(o[1], o[2], o[3], o[4]) == n
    ensures var r, q := Decode(into, o), DecodeItems(o[5..], n);
            && (q.Bad? ==> r.Bad?)
            && (q.Ok? ==> r.Ok? && r.value.typ == STRICT_ARRAY && r.value.raw == Elements(q.value))
            && (q.Ok? && q.size == |o| - 5 ==> r == Ok(into.(typ := STRICT_ARRAY, raw := Elements(q.value)), |o|))
  {
    hide DecodeItems, Value4;
    assert o[1..][4..] == o[5..];
  }

  lemma {:induction false} LastUnsafe(list: seq<Value>, rest: seq<byte>)
    requires TypedList(list) && list != [] && list[|list| - 1].typ == STRICT_ARRAY
    ensures !SafeList(list, true, END + rest)
    decreases |list|
  {
    if |list| == 1 {
      assert list[1..] == [] && ListOctets([]) + (END + rest) == END + rest;
    } else {
      LastUnsafe(list[1..], rest);
    }
  }

  /** Whatever follows, an object whose last property is a strict array does not come back: the array
      takes the end marker for its own. */
  lemma {:induction false} ArrayLast(v: Value, into: Value, rest: seq<byte>)
    requires WellFormed(v) && IsKeyed(v.typ) && !into.ended
    requires v.raw.list != [] && v.raw.list[|v.raw.list| - 1].typ == STRICT_ARRAY
    ensures var r := Decode(into, Octets(v) + rest); !(r.Ok? && r.value == Canon(v, into))
  {
    LastUnsafe(v.raw.list, rest);
    RoundTrip(v, into, rest);
  }

  /** The object {a: []}: its octets, from which it does not come back. */
  lemma {:induction false} EmptyArrayLost(into: Value, rest: seq<byte>)
    requires !into.ended
    ensures var v := Fresh(OBJECT).(raw := Elements([Fresh(STRICT_ARRAY).(key := [0x61], raw := Elements([]))]));
            var o := [OBJECT, 0, 1, 0x61, STRICT_ARRAY, 0, 0, 0, 0, 0, 0, END_OF_OBJECT];
            var r := Decode(into, o + rest);
            Typed(v) && Octets(v) == o && !(r.Ok? && r.value == Canon(v, into))
  {
    var e := Fresh(STRICT_ARRAY).(key := [0x61], raw := Elements([]));
    var v := Fresh(OBJECT).(raw := Elements([e]));
    assert [e][1..] == [] && TypedList([]) && WellFormedList([], true) && WellFormedList([], false);
    assert Typed(e) && WellFormed(e);
    assert TypedList([e]) && WellFormedList([e], true);
    assert Octets(e) == [STRICT_ARRAY, 0, 0, 0, 0];
    assert ListOctets([e]) == KeyOctets([0x61]) + Octets(e) + ListOctets([]);
    ArrayLast(v, into, rest);
  }

  // ---- sequences and re-encoding -------------------------------------------

  function AllOctets(vs: seq<Value>): seq<byte>
    requires TypedList(vs)
    decreases |vs|
  {
    if vs == [] then [] else Octets(vs[0]) + AllOctets(vs[1..])
  }

  predicate AllWellFormed(vs: seq<Value>)
    decreases |vs|
  {
    vs != [] ==> WellFormed(vs[0]) && AllWellFormed(vs[1..])
  }

  predicate AllSafe(vs: seq<Value>, rest: seq<byte>)
    requires TypedList(vs)
    decreases |vs|
  {
    vs != [] ==> Safe(vs[0], AllOctets(vs[1..]) + rest) && AllSafe(vs[1..], rest)
  }

  lemma {:induction false} AllCons(vs: seq<Value>, rest: seq<byte>)
    requires vs != [] && TypedList(vs) && AllWellFormed(vs)
    ensures var e, es := vs[0], vs[1..];
            && WellFormed(e) && Typed(e) && TypedList(es) && AllWellFormed(es)
            && AllOctets(vs) + rest == Octets(e) + (AllOctets(es) + rest)
            && |AllOctets(vs)| == |Octets(e)| + |AllOctets(es)|
            && (AllSafe(vs, rest) <==> Safe(e, AllOctets(es) + rest) && AllSafe(es, rest))
  {
    hide Octets, Canon, Safe, WellFormed, Typed;
  }

  /** What decoding vs into the named Values of a store yields, one result after another. */
  function AllCanon(vs: seq<Value>, store: seq<Value>, slots: seq<nat>): seq<Value>
    requires TypedList(vs) && |slots| == |vs| && InStore(store, slots)
    decreases |vs|
  {
    if vs == [] then []
    else
      var c := Canon(vs[0], store[slots[0]]);
      [c] + AllCanon(vs[1..], store[slots[0] := c], slots[1..])
  }

  /** No Value that is decoded into carries the flag of an earlier end marker. */
  predicate NoneEnded(store: seq<Value>) {
    forall v <- store :: !v.ended
  }

  lemma {:induction false} NoValues(store: seq<Value>, rest: seq<byte>)
    ensures Verdict(DecodeAll(store, [], AllOctets([]) + rest), AllCanon([], store, []), |AllOctets([])|,
                    AllSafe([], rest))
  {
  }

  lemma {:induction false} CanonEnded(v: Value, into: Value)
    requires Typed(v)
    ensures Canon(v, into).ended == into.ended
  {
  }

  /** Values written one after another and decoded one after another at the returned offsets, each
      into one of a few Values that are used again and keep what an earlier decode left there: all
      come back, with exactly their octets, if and only if each is safe in front of the next ones. */
  lemma {:induction false} SequenceRoundTrip(vs: seq<Value>, store: seq<Value>, slots: seq<nat>, rest: seq<byte>)
    requires TypedList(vs) && AllWellFormed(vs) && |slots| == |vs| && InStore(store, slots) && NoneEnded(store)
    ensures Verdict(DecodeAll(store, slots, AllOctets(vs) + rest), AllCanon(vs, store, slots), |AllOctets(vs)|,
                    AllSafe(vs, rest))
    decreases |vs|
  {
    hide Decode, Octets, Canon, Safe, Verdict, WellFormed, Typed, TypedList, AllWellFormed, AllOctets, AllSafe;
    if vs == [] {
      NoValues(store, rest);
    } else {
      var e, es := vs[0], vs[1..];
      AllCons(vs, rest);
      var tail := AllOctets(es) + rest;
      var into := store[slots[0]];
      var c := Canon(e, into);
      DecodeOctets(e, into, tail);
      CanonEnded(e, into);
      var next := store[slots[0] := c];
      SequenceRoundTrip(es, next, slots[1..], rest);
      NextStep(e, tail, store, slots, AllCanon(es, next, slots[1..]), |AllOctets(es)|, Safe(e, tail),
               AllSafe(es, rest));
    }
  }

  lemma {:induction false} NextStep(e: Value, tail: seq<byte>, store: seq<Value>, slots: seq<nat>, list: seq<Value>,
      size: nat, first: bool, others: bool)
    requires Typed(e) && slots != [] && InStore(store, slots)
    requires var into := store[slots[0]];
             && Verdict(Decode(into, Octets(e) + tail), Canon(e, into), |Octets(e)|, first)
             && Verdict(DecodeAll(store[slots[0] := Canon(e, into)], slots[1..], tail), list, size, others)
    ensures Verdict(DecodeAll(store, slots, Octets(e) + tail), [Canon(e, store[slots[0]])] + list,
                    |Octets(e)| + size, first && others)
  {
    var d := Octets(e) + tail;
    var c := Canon(e, store[slots[0]]);
    assert d[|Octets(e)|..] == tail;
    hide Octets, Canon, Decode;
    if first {
      PrependVerdict(c, |Octets(e)|, DecodeAll(store[slots[0] := c], slots[1..], tail), list, size, others);
    } else {
      var r := DecodeAll(store, slots, d);
      if r.Ok? {
        assert r.value[0] == Decode(store[slots[0]], d).value;
      }
    }
  }

  /** What decoding yields encodes to the same octets again, so decoding loses nothing the wire
      carries: text types, keys, order and stale values included. */
  lemma {:induction false} ReEncode(v: Value, into: Value)
    requires WellFormed(v)
    ensures Typed(Canon(v, into)) && Octets(Canon(v, into)) == Octets(v)
    decreases v, 0
  {
    if IsKeyed(v.typ) || v.typ == STRICT_ARRAY {
      ReEncodeList(v.raw.list, IsKeyed(v.typ));
    }
  }

  lemma {:induction false} ReEncodeList(list: seq<Value>, keyed: bool)
    requires TypedList(list) && WellFormedList(list, keyed)
    ensures TypedList(CanonList(list, keyed)) && ListOctets(CanonList(list, keyed)) == ListOctets(list)
    decreases list, 1
  {
    if list != [] {
      ReEncode(list[0], Holder(list[0], keyed));
      ReEncodeList(list[1..], keyed);
      var c := CanonList(list, keyed);
      assert c[0] == Canon(list[0], Holder(list[0], keyed)) && c[1..] == CanonList(list[1..], keyed);
    }
  }
}
