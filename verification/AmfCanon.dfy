/** Which values the format can carry, what decoding makes of them, and when they are safe where
    they stand. */
module AmfCanon {
  import opened Bytes
  import opened AmfValue
  import opened AmfDecode

  /** The number 0 under an empty key: the one property without a written key whose octets can be
      read as a key and a value that look the same. */
  predicate Masked(e: Value) {
    e.key == [] && e.typ == DOUBLE && e.raw == Number(0)
  }

  /** A key that is written, with its whole length. */
  predicate Usable(key: seq<byte>) {
    0 < |key| < TWO16
  }

  /** Values the format can carry: 64-bit numbers, 16-bit offsets, lengths that fit their field.
      Properties and array elements may have any key, masked properties excepted. */
  predicate WellFormed(v: Value)
    decreases v, 0
  {
    && Typed(v)
    && (v.raw.Number? ==> v.raw.bits < TWO64)
    && v.offset < TWO16
    && (IsText(v.typ) ==> |v.raw.s| < TWO32)
    && (IsKeyed(v.typ) || v.typ == STRICT_ARRAY ==>
          |v.raw.list| < TWO32 && WellFormedList(v.raw.list, IsKeyed(v.typ)))
  }

  predicate WellFormedList(list: seq<Value>, keyed: bool)
    decreases list, 1
  {
    list != [] ==>
      && WellFormed(list[0])
      && (keyed ==> !Masked(list[0]))
      && WellFormedList(list[1..], keyed)
  }

  /** Every property in v has a usable key, no array element has a key, and no strict array in v is
      followed, in the stream, by octets that look like an end marker. */
  predicate Safe(v: Value, rest: seq<byte>)
    requires Typed(v)
    decreases v, 0
  {
    if IsKeyed(v.typ) then SafeList(v.raw.list, true, END + rest)
    else if v.typ == STRICT_ARRAY then SafeList(v.raw.list, false, rest) && !StartsWith(rest, END)
    else true
  }

  predicate SafeList(list: seq<Value>, keyed: bool, rest: seq<byte>)
    requires TypedList(list)
    decreases list, 1
  {
    list != [] ==>
      && (if keyed then Usable(list[0].key) else list[0].key == [])
      && Safe(list[0], ListOctets(list[1..]) + rest)
      && SafeList(list[1..], keyed, rest)
  }

  /** The Value a list element should be decoded into. Elements of an array are in fact decoded without
      a key. */
  function Holder(e: Value, keyed: bool): Value {
    if keyed then KeyHolder(e.key) else Fresh(DOUBLE).(key := e.key)
  }

  /** What decoding v into `into` should yield: the text type follows from the length, and null and
      undefined leave the old value in place. */
  function Canon(v: Value, into: Value): Value
    requires Typed(v)
    decreases v, 0
  {
    var w := into.(typ := if IsText(v.typ) then (if |v.raw.s| >= 0xFFFF then LONG_STRING else STRING) else v.typ);
    if v.typ == NULL || v.typ == UNDEFINED then w
    else if IsKeyed(v.typ) || v.typ == STRICT_ARRAY then
      w.(raw := Elements(CanonList(v.raw.list, IsKeyed(v.typ))))
    else if v.typ == DATE then w.(raw := v.raw, offset := v.offset)
    else w.(raw := v.raw)
  }

  function CanonList(list: seq<Value>, keyed: bool): (r: seq<Value>)
    requires TypedList(list)
    ensures |r| == |list|
    decreases list, 1
  {
    if list == [] then []
    else [Canon(list[0], Holder(list[0], keyed))] + CanonList(list[1..], keyed)
  }

  /** A decoded value or list is the expected one of the expected size, or else is not the expected one;
      which of the two depends on safety alone. */
  predicate Verdict<T(==)>(r: Result<T>, expected: T, size: nat, safe: bool) {
    if safe then r == Ok(expected, size) else r.Ok? ==> r.value != expected
  }
}
