/** AMF0 values and their wire form, as amf.Encode writes it. */
module AmfValue {
  import opened Bytes

  const DOUBLE: byte := 0x00
  const BOOLEAN: byte := 0x01
  const STRING: byte := 0x02
  const OBJECT: byte := 0x03
  const NULL: byte := 0x05
  const UNDEFINED: byte := 0x06
  const ECMA_ARRAY: byte := 0x08
  const END_OF_OBJECT: byte := 0x09
  const STRICT_ARRAY: byte := 0x0A
  const DATE: byte := 0x0B
  const LONG_STRING: byte := 0x0C

  const TWO64 := 0x1_0000_0000_0000_0000

  /** The interface{} of a Value. Numbers are carried as their 64-bit patterns. */
  datatype Raw = Nil | Number(bits: nat) | Truth(b: bool) | Text(s: seq<byte>) | Elements(list: seq<Value>)

  datatype Value = Value(typ: byte, key: seq<byte>, raw: Raw, offset: nat, ended: bool)

  /** NewValue. */
  function Fresh(typ: byte): Value {
    Value(typ, [], Nil, 0, false)
  }

  const END: seq<byte> := [0x00, 0x00, END_OF_OBJECT]

  function BE8(n: nat): (s: seq<byte>)
    ensures |s| == 8
  {
    BE4(n / TWO32) + BE4(n % TWO32)
  }

  predicate IsText(typ: byte) {
    typ == STRING || typ == LONG_STRING
  }

  predicate IsKeyed(typ: byte) {
    typ == OBJECT || typ == ECMA_ARRAY
  }

  /** Encode panics on anything else: the type tag must match the dynamic type of the value. */
  predicate Typed(v: Value)
    decreases v, 0
  {
    if v.typ == DOUBLE then v.raw.Number?
    else if v.typ == BOOLEAN then v.raw.Truth?
    else if IsText(v.typ) then v.raw.Text?
    else if IsKeyed(v.typ) || v.typ == STRICT_ARRAY then
      v.raw.Elements? && TypedList(v.raw.list)
    else if v.typ == DATE then v.raw.Number?
    else v.typ == NULL || v.typ == UNDEFINED
  }

  predicate TypedList(list: seq<Value>)
    decreases list, 1
  {
    list != [] ==> Typed(list[0]) && TypedList(list[1..])
  }

  function TextOctets(s: seq<byte>): seq<byte> {
    if |s| >= 0xFFFF then [LONG_STRING] + BE4(|s|) + s
    else [STRING] + BE2(|s|) + s
  }

  /** The octets Encode appends. */
  function Octets(v: Value): (r: seq<byte>)
    requires Typed(v)
    ensures |r| > 0
    decreases v, 0
  {
    if v.typ == DOUBLE then [DOUBLE] + BE8(v.raw.bits)
    else if v.typ == BOOLEAN then [BOOLEAN, if v.raw.b then 1 else 0]
    else if IsText(v.typ) then TextOctets(v.raw.s)
    else if v.typ == OBJECT then [OBJECT] + ListOctets(v.raw.list) + END
    else if v.typ == ECMA_ARRAY then [ECMA_ARRAY] + BE4(|v.raw.list|) + ListOctets(v.raw.list) + END
    else if v.typ == STRICT_ARRAY then [STRICT_ARRAY] + BE4(|v.raw.list|) + ListOctets(v.raw.list)
    else if v.typ == DATE then [DATE] + BE8(v.raw.bits) + BE2(v.offset)
    else [v.typ]
  }

  /** A key is written only if its 16-bit length is not zero. */
  function KeyOctets(key: seq<byte>): seq<byte> {
    if |key| % TWO16 > 0 then BE2(|key|) + key else []
  }

  function ListOctets(list: seq<Value>): seq<byte>
    requires TypedList(list)
    decreases list, 1
  {
    if list == [] then []
    else KeyOctets(list[0].key) + Octets(list[0]) + ListOctets(list[1..])
  }

  // ---- the octets, by AMF0's own numbers -----------------------------------

  /** Octets i to i + 3 spell n. */
  predicate Spells(o: seq<byte>, i: nat, n: nat) {
    i + 4 <= |o| && Value4(o[i], o[i + 1], o[i + 2], o[i + 3]) == n
  }

  /** Section 2 of the AMF0 specification, for a value whose lengths fit their fields. */
  predicate Laid(v: Value, o: seq<byte>) {
    |o| > 0 && o[0] == v.typ &&
      match v.raw
      case Number(bits) =>
        && Spells(o, 1, bits / 0x1_0000_0000) && Spells(o, 5, bits % 0x1_0000_0000)
        && |o| == (if v.typ == 0x0B then 11 else 9)
        && (v.typ == 0x0B ==> Value2(o[9], o[10]) == v.offset)
      case Truth(b) => o == [0x01, if b then 1 else 0]
      case Elements(list) => TypedList(list) && LaidList(v.typ, list, o)
      case _ => false
  }

  /** Objects end in an end marker, strict arrays start with their count, ECMA arrays have both. */
  predicate LaidList(typ: byte, list: seq<Value>, o: seq<byte>)
    requires TypedList(list)
  {
    var i, j := if typ == 0x03 then 1 else 5, if typ == 0x0A then 0 else 3;
    && i + j <= |o| && (i == 5 ==> Spells(o, 1, |list|))
    && o[i..|o| - j] == ListOctets(list) && (j == 3 ==> o[|o| - 3..] == [0, 0, 0x09])
  }

  /** A text is short or long by its length. */
  predicate LaidText(s: seq<byte>, o: seq<byte>) {
    if |s| < 0xFFFF then |o| == 3 + |s| && o[0] == 0x02 && Value2(o[1], o[2]) == |s| && o[3..] == s
    else |o| == 5 + |s| && o[0] == 0x0C && Spells(o, 1, |s|) && o[5..] == s
  }

  /** Every type can be written: nulls, texts of either type, numbers, booleans, dates, and lists of these. */
  lemma {:induction false} EveryTypeWritten(v: Value)
    ensures v.typ in {0x05, 0x06} ==> Typed(v)
    ensures v.typ in {0x02, 0x0C} && v.raw.Text? ==> Typed(v)
    ensures v.typ in {0x00, 0x0B} && v.raw.Number? ==> Typed(v)
    ensures v.typ == 0x01 && v.raw.Truth? ==> Typed(v)
    ensures v.typ in {0x03, 0x08, 0x0A} && v.raw.Elements? && (forall e <- v.raw.list :: Typed(e)) ==> Typed(v)
  {
    if v.raw.Elements? && forall e <- v.raw.list :: Typed(e) {
      ListTyped(v.raw.list);
    }
  }

  lemma {:induction false} ListTyped(list: seq<Value>)
    requires forall e <- list :: Typed(e)
    ensures TypedList(list)
    decreases |list|
  {
    hide Typed;
    if list != [] {
      ListTyped(list[1..]);
    }
  }

  /** What is written for a value, type by type. */
  lemma {:induction false} OctetsLaid(v: Value)
    requires Typed(v) && (v.raw.Number? ==> v.raw.bits < TWO64) && v.offset < TWO16
    requires v.raw.Elements? ==> |v.raw.list| < TWO32
    requires v.raw.Text? ==> |v.raw.s| < TWO32
    ensures v.typ in {0x00, 0x01, 0x02, 0x03, 0x05, 0x06, 0x08, 0x0A, 0x0B, 0x0C}
    ensures var o := Octets(v);
            if v.typ in {0x05, 0x06} then o == [v.typ]
            else if v.typ in {0x02, 0x0C} then v.raw.Text? && LaidText(v.raw.s, o)
            else Laid(v, o)
  {
    if v.raw.Text? && IsText(v.typ) {
      TextLaid(v.raw.s);
    } else if v.raw.Number? && v.typ in {DOUBLE, DATE} {
      NumberLaid(v);
    } else if v.raw.Elements? && (IsKeyed(v.typ) || v.typ == STRICT_ARRAY) {
      ListLaid(v);
    }
    hide BE4, BE8, ListOctets, TypedList, LaidList, LaidText, Spells;
  }

  lemma {:induction false} TextLaid(s: seq<byte>)
    requires |s| < TWO32
    ensures LaidText(s, TextOctets(s))
  {
    hide BE4, BE2, Value4, Value2;
    Wire4(|s|);
    Wire2(|s|);
    if |s| >= 0xFFFF {
      Behind([LONG_STRING], BE4(|s|), s);
    } else {
      Behind([STRING], BE2(|s|), s);
    }
  }

  /** A count behind a type or nothing, and what follows it. */
  lemma {:induction false} Behind(typ: seq<byte>, n: seq<byte>, rest: seq<byte>)
    requires |typ| <= 1
    ensures var d := typ + n + rest;
            && |d| == |typ| + |n| + |rest| && d[..|typ|] == typ && d[|typ| + |n|..] == rest
            && forall k | 0 <= k < |n| :: d[|typ| + k] == n[k]
  {
  }

  lemma {:induction false} CountSpelt(a: seq<byte>, n: nat, b: seq<byte>)
    requires n < TWO32
    ensures Spells(a + BE4(n) + b, |a|, n)
  {
    Wire4(n);
    hide BE4, Value4;
  }

  lemma {:induction false} NumberLaid(v: Value)
    requires v.raw.Number? && v.raw.bits < TWO64 && v.typ in {DOUBLE, DATE} && v.offset < TWO16
    ensures Laid(v, Octets(v))
  {
    var n, t := v.raw.bits, if v.typ == DATE then BE2(v.offset) else [];
    var o := Octets(v);
    Wire2(v.offset);
    CountSpelt([v.typ], n / TWO32, BE4(n % TWO32) + t);
    CountSpelt([v.typ] + BE4(n / TWO32), n % TWO32, t);
    hide BE4, BE2, Value2, Spells;
    assert o == [v.typ] + BE4(n / TWO32) + (BE4(n % TWO32) + t);
    assert o == [v.typ] + BE4(n / TWO32) + BE4(n % TWO32) + t;
  }

  lemma {:induction false} ListLaid(v: Value)
    requires Typed(v) && (IsKeyed(v.typ) || v.typ == STRICT_ARRAY) && |v.raw.list| < TWO32
    ensures Laid(v, Octets(v))
  {
    var l, o := ListOctets(v.raw.list), Octets(v);
    hide BE4, ListOctets, TypedList, Spells;
    if v.typ == OBJECT {
      assert o == [v.typ] + l + END;
    } else {
      var n := BE4(|v.raw.list|);
      var e := if v.typ == STRICT_ARRAY then [] else END;
      assert o == [v.typ] + n + (l + e);
      CountSpelt([v.typ], |v.raw.list|, l + e);
      assert o[5..|o| - |e|] == l;
    }
  }

  /** The number Encode returns; a null or an undefined value is not counted. */
  function Reported(v: Value): nat
    requires Typed(v)
    decreases v, 0
  {
    if v.typ == DOUBLE then 9
    else if v.typ == BOOLEAN then 2
    else if IsText(v.typ) then |TextOctets(v.raw.s)|
    else if v.typ == OBJECT then 1 + ReportedList(v.raw.list) + 3
    else if v.typ == ECMA_ARRAY then 5 + ReportedList(v.raw.list) + 3
    else if v.typ == STRICT_ARRAY then 5 + ReportedList(v.raw.list)
    else if v.typ == DATE then 11
    else 0
  }

  function ReportedList(list: seq<Value>): nat
    requires TypedList(list)
    decreases list, 1
  {
    if list == [] then 0
    else |KeyOctets(list[0].key)| + Reported(list[0]) + ReportedList(list[1..])
  }

  /** How many null and undefined values a tree holds. */
  function Nulls(v: Value): nat
    decreases v, 0
  {
    if v.typ == NULL || v.typ == UNDEFINED then 1
    else if (IsKeyed(v.typ) || v.typ == STRICT_ARRAY) && v.raw.Elements? then NullsIn(v.raw.list)
    else 0
  }

  function NullsIn(list: seq<Value>): nat
    decreases list, 1
  {
    if list == [] then 0 else Nulls(list[0]) + NullsIn(list[1..])
  }

  /** Encode under-reports by exactly the nulls it wrote. */
  lemma {:induction false} ReportedLength(v: Value)
    requires Typed(v)
    ensures Reported(v) + Nulls(v) == |Octets(v)|
    ensures Reported(v) == |Octets(v)| <==> Nulls(v) == 0
    decreases v, 0
  {
    if IsKeyed(v.typ) || v.typ == STRICT_ARRAY {
      ReportedListLength(v.raw.list);
    }
  }

  lemma {:induction false} ReportedListLength(list: seq<Value>)
    requires TypedList(list)
    ensures ReportedList(list) + NullsIn(list) == |ListOctets(list)|
    decreases list, 1
  {
    if list != [] {
      ReportedLength(list[0]);
      ReportedListLength(list[1..]);
    }
  }
}
