/** What amf.Decode makes of a sequence of octets. */
module AmfDecode {
  import opened Bytes
  import opened AmfValue

  /** A decoded value and the number of octets it took, or a failure. */
  datatype Result<+T> = Ok(value: T, size: nat) | Bad

  function Value8(s: seq<byte>): nat
    requires |s| >= 8
  {
    Value4(s[0], s[1], s[2], s[3]) * TWO32 + Value4(s[4], s[5], s[6], s[7])
  }

  /** DecodeString: a 16-bit length and that many octets. */
  function DecodeText(data: seq<byte>): (r: Result<seq<byte>>)
    ensures r.Ok? ==> 2 <= r.size <= |data| && r.value == data[2..r.size]
  {
    if |data| < 2 then Bad
    else
      var n := Value2(data[0], data[1]);
      if n > |data| - 2 then Bad else Ok(data[2..2 + n], 2 + n)
  }

  /** DecodeLongString leaves the old value in place when the length is zero. */
  function DecodeLongText(data: seq<byte>, previous: Raw): (r: Result<Raw>)
    ensures r.Ok? ==> r.size <= |data|
  {
    if |data| < 4 then Bad
    else
      var n := Value4(data[0], data[1], data[2], data[3]);
      if n > |data| - 4 then Bad else Ok(if n > 0 then Text(data[4..4 + n]) else previous, 4 + n)
  }

  /** Decode into v. A successful call consumes at least the type marker. */
  function Decode(v: Value, data: seq<byte>): (r: Result<Value>)
    ensures r.Ok? ==> 0 < r.size <= |data|
    decreases |data|, 0
  {
    if data == [] then Bad
    else
      var t, d := data[0], data[1..];
      var w := v.(typ := t);
      if t == DOUBLE then
        if |d| < 8 then Bad else Ok(w.(raw := Number(Value8(d))), 9)
      else if t == BOOLEAN then
        if |d| < 1 then Bad else Ok(w.(raw := Truth(d[0] > 0)), 2)
      else if t == STRING then
        match DecodeText(d)
        case Bad => Bad
        case Ok(s, n) => Ok(w.(raw := Text(s)), 1 + n)
      else if t == OBJECT then
        match DecodeObject(d)
        case Bad => Bad
        case Ok(list, n) => Ok(w.(raw := Elements(list)), 1 + n)
      else if t == NULL || t == UNDEFINED then Ok(w, 1)
      else if t == ECMA_ARRAY then
        if |d| < 4 then Bad
        else
          match DecodeObject(d[4..])
          case Bad => Bad
          case Ok(list, n) => Ok(w.(raw := Elements(list)), 5 + n)
      else if t == END_OF_OBJECT then Ok(w.(ended := true), 1)
      else if t == STRICT_ARRAY then
        match DecodeStrictArray(d)
        case Bad => Bad
        case Ok((list, ended), n) => Ok(w.(raw := Elements(list), ended := ended || w.ended), 1 + n)
      else if t == DATE then
        if |d| < 10 then Bad
        else Ok(w.(raw := Number(Value8(d)), offset := Value2(d[8], d[9])), 11)
      else if t == LONG_STRING then
        match DecodeLongText(d, w.raw)
        case Bad => Bad
        case Ok(raw, n) => Ok(w.(raw := raw), 1 + n)
      else Bad
  }

  function DecodeObject(data: seq<byte>): (r: Result<seq<Value>>)
    ensures r.Ok? ==> r.size <= |data|
    decreases |data|, 3
  {
    if |data| < 3 then Bad else DecodeProperties(data)
  }

  /** The property's value is decoded into the Value that has just held its key. */
  function KeyHolder(key: seq<byte>): Value {
    Fresh(DOUBLE).(key := key, raw := Text(key))
  }

  /** Values already decoded, in n octets, in front of further ones. */
  function Prepend(vs: seq<Value>, n: nat, r: Result<seq<Value>>): Result<seq<Value>> {
    match r
    case Bad => Bad
    case Ok(list, m) => Ok(vs + list, n + m)
  }

  /** One turn of the loop of DecodeObject: a key and its value. */
  function DecodeProperty(data: seq<byte>): (r: Result<Value>)
    ensures r.Ok? ==> 2 < r.size <= |data|
    decreases |data|, 1
  {
    match DecodeText(data)
    case Bad => Bad
    case Ok(key, k) =>
      match Decode(KeyHolder(key), data[k..])
      case Bad => Bad
      case Ok(v, n) => Ok(v, k + n)
  }

  /** The loop of DecodeObject: properties up to an end marker or the end of the data. */
  function DecodeProperties(data: seq<byte>): (r: Result<seq<Value>>)
    ensures r.Ok? ==> r.size <= |data|
    decreases |data|, 2
  {
    if data == [] then Ok([], 0)
    else
      match DecodeProperty(data)
      case Bad => Bad
      case Ok(v, n) =>
        if v.typ == END_OF_OBJECT then Ok([], n)
        else Prepend([v], n, DecodeProperties(data[n..]))
  }

  /** The loop of DecodeStrictArray: at most count elements. */
  function DecodeItems(data: seq<byte>, count: nat): (r: Result<seq<Value>>)
    ensures r.Ok? ==> r.size <= |data|
    decreases |data|, 1
  {
    if count == 0 || data == [] then Ok([], 0)
    else
      match Decode(Fresh(DOUBLE), data)
      case Bad => Bad
      case Ok(v, n) =>
        Prepend([v], n, DecodeItems(data[n..], count - 1))
  }

  /** An end marker right after the elements is swallowed, whoever wrote it. */
  function DecodeStrictArray(data: seq<byte>): (r: Result<(seq<Value>, bool)>)
    ensures r.Ok? ==> r.size <= |data|
    decreases |data|, 2
  {
    if |data| < 4 then Bad
    else
      match DecodeItems(data[4..], Value4(data[0], data[1], data[2], data[3]))
      case Bad => Bad
      case Ok(list, n) =>
        if StartsWith(data[4 + n..], END) then Ok((list, true), 4 + n + 3)
        else Ok((list, false), 4 + n)
  }

  // ---- by AMF0's own numbers -----------------------------------------------

  /** Only ten types and the end marker are decoded, and what the fixed ones mean. */
  lemma {:induction false} DecodeForms(v: Value, data: seq<byte>)
    ensures var r := Decode(v, data);
            && (r.Ok? ==> |data| > 0 && data[0] in {0x00, 0x01, 0x02, 0x03, 0x05, 0x06, 0x08, 0x09, 0x0A, 0x0B, 0x0C}
                          && r.value.typ == data[0])
            && (|data| > 0 && data[0] == 0x00 ==>
                  r == if |data| < 9 then Bad else Ok(v.(typ := 0x00, raw := Number(Value8(data[1..]))), 9))
            && (|data| > 0 && data[0] == 0x01 ==>
                  r == if |data| < 2 then Bad else Ok(v.(typ := 0x01, raw := Truth(data[1] != 0)), 2))
            && (|data| > 0 && data[0] == 0x03 && |data| < 4 ==> r.Bad?)
            && (|data| > 0 && data[0] == 0x08 && |data| < 8 ==> r.Bad?)
            && (|data| > 0 && data[0] == 0x0A && |data| < 5 ==> r.Bad?)
            && (|data| > 0 && data[0] in {0x05, 0x06} ==> r == Ok(v.(typ := data[0]), 1))
            && (|data| > 0 && data[0] == 0x09 ==> r == Ok(v.(typ := 0x09, ended := true), 1))
            && (|data| > 0 && data[0] == 0x0B ==>
                  r == if |data| < 11 then Bad
                       else Ok(v.(typ := 0x0B, raw := Number(Value8(data[1..])), offset := Value2(data[9], data[10])),
                               11))
  {
    hide DecodeProperties, DecodeItems, DecodeText, DecodeLongText, Value8, Value2, Value4;
  }

  /** An empty long string leaves the old value in place, an empty short one does not. */
  lemma {:induction false} EmptyText(v: Value, rest: seq<byte>)
    ensures Decode(v, [0x0C, 0, 0, 0, 0] + rest) == Ok(v.(typ := 0x0C), 5)
    ensures Decode(v, [0x02, 0, 0] + rest) == Ok(v.(typ := 0x02, raw := Text([])), 3)
  {
    var d, e := [0x0C, 0, 0, 0, 0] + rest, [0x02, 0, 0] + rest;
    assert d[1..] == [0, 0, 0, 0] + rest && e[1..] == [0, 0] + rest;
    assert e[1..][2..2] == [];
  }

  /** Every name in slots is the name of a Value of the store. */
  predicate InStore(store: seq<Value>, slots: seq<nat>) {
    forall k | 0 <= k < |slots| :: slots[k] < |store|
  }

  /** Decoding values one after another, the k-th into the Value slots[k]. A Value is decoded into
      again with all that is still in it. CommandMessage.Parse and DataMessage.Parse work like this:
      the name, the transaction id and later arguments all go through one Value, the command object
      and the argument object through one each. */
  function DecodeAll(store: seq<Value>, slots: seq<nat>, data: seq<byte>): (r: Result<seq<Value>>)
    requires InStore(store, slots)
    decreases |slots|
  {
    if slots == [] then Ok([], 0)
    else
      match Decode(store[slots[0]], data)
      case Bad => Bad
      case Ok(v, n) => Prepend([v], n, DecodeAll(store[slots[0] := v], slots[1..], data[n..]))
  }
}
