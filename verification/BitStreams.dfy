/** The bit reader: ShowBits and ShowBitsLong against the bits of the zero-padded buffer. */
module BitStreams {
  import opened Bytes

  function Pow2(n: nat): (p: nat)
    ensures p > 0
  {
    if n == 0 then 1 else 2 * Pow2(n - 1)
  }

  /** n with its k low bits dropped. */
  function Drop(n: nat, k: nat): nat {
    if k == 0 then n else Drop(n, k - 1) / 2
  }

  // ---- what the bits of a buffer are --------------------------------------

  /** Bit i of the buffer, most significant bit of each octet first, 0 past the end. */
  function Bit(s: seq<byte>, i: nat): (b: nat)
    ensures b <= 1
  {
    if i / 8 < |s| then Drop(s[i / 8], 7 - i % 8) % 2 else 0
  }

  /** Octet k of the zero-padded buffer. */
  function Octet(s: seq<byte>, k: nat): byte {
    if k < |s| then s[k] else 0
  }

  /** The n bits from i on, as an unsigned number. */
  function BitsValue(s: seq<byte>, i: nat, n: nat): nat {
    if n == 0 then 0 else 2 * BitsValue(s, i, n - 1) + Bit(s, i + n - 1)
  }

  /** A field a followed by a field b of k bits. */
  function Join(a: nat, k: nat, b: nat): nat {
    a * Pow2(k) + b
  }

  // ---- 32-bit arithmetic ---------------------------------------------------

  /** x << k on uint32: everything is shifted out from k == 32 on. */
  function Shl(x: nat, k: nat): nat {
    if k >= 32 then 0 else x * Pow2(k) % TWO32
  }

  /** x >> k on uint32. */
  function Shr(x: nat, k: nat): nat {
    if k >= 32 then 0 else Drop(x, k)
  }

  /** Bitwise or. */
  function Or(a: nat, b: nat): nat {
    if a == 0 then b else if b == 0 then a
    else 2 * Or(a / 2, b / 2) + if a % 2 == 1 || b % 2 == 1 then 1 else 0
  }

  /** Four octets, as far as the buffer has them: every guard keeps its index inside. */
  function Word(s: seq<byte>, index: nat): nat {
    var i, bits := index / 8, 8 * |s|;
    var x := if index < bits then s[i] * TWO24 else 0;
    var y := if index + 8 < bits then Or(x, s[i + 1] * TWO16) else x;
    var z := if index + 16 < bits then Or(y, s[i + 2] * TWO8) else y;
    if index + 24 < bits then Or(z, s[i + 3]) else z
  }

  /** What ShowBits(n) computes at a position; the shift count 32-n is a uint32. */
  function Shown(s: seq<byte>, index: nat, n: int): nat {
    Shr(Shl(Word(s, index), index % 8), (32 - n) % TWO32)
  }

  /** What ShowBitsLong(n) computes at a position. */
  function ShownLong(s: seq<byte>, index: nat, n: int): nat {
    if n <= 25 then Shown(s, index, n)
    else Or(Shl(Shown(s, index, 16), n - 16), Shown(s, index, n - 16))
  }

  // ---- powers and bits -----------------------------------------------------

  lemma {:induction false} Double(x: nat, p: nat)
    ensures x * (2 * p) == 2 * (x * p)
  {
  }

  lemma {:induction false} PowAdd(a: nat, b: nat)
    ensures Pow2(a + b) == Pow2(a) * Pow2(b)
  {
    if a > 0 {
      PowAdd(a - 1, b);
      Double(Pow2(b), Pow2(a - 1));
    }
  }

  lemma {:induction false} PowValues()
    ensures Pow2(0) == 1 && Pow2(1) == 2 && Pow2(2) == 4 && Pow2(3) == 8 && Pow2(4) == 16
    ensures Pow2(5) == 32 && Pow2(6) == 64 && Pow2(7) == 128 && Pow2(8) == TWO8
    ensures Pow2(16) == TWO16 && Pow2(24) == TWO24 && Pow2(32) == TWO32
  {
    assert Pow2(4) == 16 && Pow2(8) == 256;
    PowAdd(8, 8);
    PowAdd(16, 8);
    PowAdd(16, 16);
  }

  lemma {:induction false} PowMonotone(a: nat, b: nat)
    requires a <= b
    ensures Pow2(a) <= Pow2(b)
  {
    if a < b {
      PowMonotone(a, b - 1);
    }
  }

  lemma {:induction false} BitsBound(s: seq<byte>, i: nat, n: nat)
    ensures BitsValue(s, i, n) < Pow2(n)
  {
    if n > 0 {
      BitsBound(s, i, n - 1);
    }
  }

  lemma {:induction false} Distribute(a: nat, q: nat, b: nat, p: nat)
    ensures (a * q + b) * p == a * (q * p) + b * p
  {
    assert a * q * p == a * (q * p);
  }

  lemma {:induction false} LessTimes(b: nat, q: nat, p: nat)
    requires b < q && p > 0
    ensures b * p < q * p
  {
  }

  /** Adjacent fields. */
  lemma {:induction false} BitsSplit(s: seq<byte>, i: nat, a: nat, b: nat)
    ensures BitsValue(s, i, a + b) == Join(BitsValue(s, i, a), b, BitsValue(s, i + a, b))
  {
    hide Bit;
    if b > 0 {
      BitsSplit(s, i, a, b - 1);
      Double(BitsValue(s, i, a), Pow2(b - 1));
    }
  }

  /** Dropping the low field. */
  lemma {:induction false} DropLow(c: nat, k: nat, d: nat)
    requires d < Pow2(k)
    ensures Drop(Join(c, k, d), k) == c
    decreases k
  {
    if k > 0 {
      var p := Pow2(k - 1);
      var e := if d < p then 0 else 1;
      Double(c, p);
      Distribute(c, 2, e, p);
      assert Join(c, k, d) == Join(c * 2 + e, k - 1, d - e * p);
      DropLow(c * 2 + e, k - 1, d - e * p);
    }
  }

  lemma {:induction false} OctetDropped(b: byte)
    ensures Drop(b, 8) == 0
  {
    assert Drop(b, 1) == b / 2;
    assert Drop(b, 3) == Drop(b, 1) / 2 / 2;
    assert Drop(b, 5) == Drop(b, 3) / 2 / 2;
    assert Drop(b, 7) == Drop(b, 5) / 2 / 2;
  }

  lemma {:induction false} NoBits(n: nat)
    ensures Drop(0, n) == 0
  {
    if n > 0 {
      NoBits(n - 1);
    }
  }

  /** The leading n bits of an octet. */
  lemma {:induction false} LeadingBits(s: seq<byte>, k: nat, n: nat)
    requires n <= 8
    ensures BitsValue(s, 8 * k, n) == Drop(Octet(s, k), 8 - n)
  {
    if n == 0 {
      OctetDropped(Octet(s, k));
    } else {
      LeadingBits(s, k, n - 1);
      ModUnique(8 * k + n - 1, 8, k, n - 1);
      NoBits(8 - n);
      var b := Drop(Octet(s, k), 8 - n);
      assert Drop(Octet(s, k), 9 - n) == b / 2;
      assert Bit(s, 8 * k + n - 1) == b % 2;
    }
  }

  /** Or of disjoint fields is their sum. */
  lemma {:induction false} OrDisjoint(a: nat, k: nat, b: nat)
    requires b < Pow2(k)
    ensures Or(a * Pow2(k), b) == Join(a, k, b)
  {
    if k > 0 && a > 0 {
      var h := a * Pow2(k - 1);
      assert a * Pow2(k) == 2 * h;
      OrDisjoint(a, k - 1, b / 2);
    }
  }

  lemma {:induction false} Or24(a: nat, b: nat)
    requires b < TWO24
    ensures Or(a * TWO24, b) == a * TWO24 + b == Join(a, 24, b)
  {
    PowValues();
    OrDisjoint(a, 24, b);
    hide Or, Pow2;
  }

  lemma {:induction false} Or16(a: nat, b: nat)
    requires b < TWO16
    ensures Or(a * TWO16, b) == a * TWO16 + b == Join(a, 16, b)
  {
    PowValues();
    OrDisjoint(a, 16, b);
    hide Or, Pow2;
  }

  lemma {:induction false} Or8(a: nat, b: nat)
    requires b < TWO8
    ensures Or(a * TWO8, b) == a * TWO8 + b == Join(a, 8, b)
  {
    PowValues();
    OrDisjoint(a, 8, b);
    hide Or, Pow2;
  }

  /** The guards only skip octets that are missing. */
  lemma {:induction false} WordOctets(s: seq<byte>, index: nat)
    ensures var k := index / 8;
            Word(s, index)
            == Or(Or(Or(Octet(s, k) * TWO24, Octet(s, k + 1) * TWO16), Octet(s, k + 2) * TWO8), Octet(s, k + 3))
  {
    assert forall x: nat {:trigger Or(x, 0)} :: Or(x, 0) == x;
    hide Or;
  }

  lemma {:induction false} OrOctets(a: byte, b: byte, c: byte, d: byte)
    ensures Or(Or(Or(a * TWO24, b * TWO16), c * TWO8), d) == a * TWO24 + b * TWO16 + c * TWO8 + d
  {
    hide Or, Join;
    Or24(a, b * TWO16);
    Or16(a * TWO8 + b, c * TWO8);
    Or8((a * TWO8 + b) * TWO8 + c, d);
  }

  lemma {:induction false} WholeOctet(s: seq<byte>, k: nat)
    ensures BitsValue(s, 8 * k, 8) == Octet(s, k)
  {
    LeadingBits(s, k, 8);
  }

  lemma {:induction false} FourOctets(s: seq<byte>, k: nat)
    ensures BitsValue(s, 8 * k, 32)
            == Octet(s, k) * TWO24 + Octet(s, k + 1) * TWO16 + Octet(s, k + 2) * TWO8 + Octet(s, k + 3)
  {
    hide BitsValue, Octet, Join, Or;
    WholeOctet(s, k);
    WholeOctet(s, k + 1);
    WholeOctet(s, k + 2);
    WholeOctet(s, k + 3);
    BitsSplit(s, 8 * k, 8, 24);
    BitsSplit(s, 8 * k + 8, 8, 16);
    BitsSplit(s, 8 * k + 16, 8, 8);
    var a, b, c, d := Octet(s, k), Octet(s, k + 1), Octet(s, k + 2), Octet(s, k + 3);
    Or8(c, d);
    Or16(b, c * TWO8 + d);
    Or24(a, b * TWO16 + c * TWO8 + d);
  }

  /** The word read at a position is the 32 bits from the start of its octet. */
  lemma {:induction false} WordBits(s: seq<byte>, index: nat)
    ensures Word(s, index) == BitsValue(s, index / 8 * 8, 32)
  {
    var k := index / 8;
    WordOctets(s, index);
    hide Word, Octet, Or, BitsValue;
    OrOctets(Octet(s, k), Octet(s, k + 1), Octet(s, k + 2), Octet(s, k + 3));
    FourOctets(s, k);
  }

  // ---- ShowBits ------------------------------------------------------------

  /** Multiplying by p modulo q*p drops the high part. */
  lemma {:induction false} HighOut(a: nat, b: nat, q: nat, p: nat)
    requires q * p == TWO32 && b < q && p > 0
    ensures (a * q + b) * p % TWO32 == b * p
  {
    Distribute(a, q, b, p);
    LessTimes(b, q, p);
    ModUnique((a * q + b) * p, TWO32, a, b * p);
  }

  lemma {:induction false} JoinTimes(c: nat, m: nat, d: nat, r: nat)
    requires d < Pow2(m)
    ensures Join(c, m, d) * Pow2(r) == Join(c, m + r, d * Pow2(r)) && d * Pow2(r) < Pow2(m + r)
  {
    PowAdd(m, r);
    Distribute(c, Pow2(m), d, Pow2(r));
    LessTimes(d, Pow2(m), Pow2(r));
  }

  lemma {:induction false} ShlJoin(a: nat, b: nat, r: nat)
    requires r < 32 && b < Pow2(32 - r)
    ensures Shl(Join(a, 32 - r, b), r) == b * Pow2(r)
  {
    var q, p := Pow2(32 - r), Pow2(r);
    assert q * p == TWO32 by {
      PowAdd(32 - r, r);
      PowValues();
    }
    HighOut(a, b, q, p);
    assert Join(a, 32 - r, b) == a * q + b;
    hide Pow2, Join;
  }

  /** Shifting the r leading bits of a 32-bit word out and keeping the n after them. */
  lemma {:induction false} ShiftOut(a: nat, b: nat, c: nat, d: nat, r: nat, n: nat)
    requires r < 32 && r + n <= 32
    requires b == Join(c, 32 - r - n, d) && d < Pow2(32 - r - n) && b < Pow2(32 - r)
    ensures Drop(Shl(Join(a, 32 - r, b), r), 32 - n) == c
  {
    hide *;
    ShlJoin(a, b, r);
    JoinTimes(c, 32 - r - n, d, r);
    DropLow(c, 32 - n, d * Pow2(r));
  }

  lemma {:induction false} ShownNone(s: seq<byte>, index: nat)
    ensures Shown(s, index, 0) == 0
  {
    hide Word, Shl;
  }

  lemma {:induction false} ShownSome(s: seq<byte>, index: nat, n: nat)
    requires 0 < n <= 32
    ensures Shown(s, index, n) == Drop(Shl(Word(s, index), index % 8), 32 - n)
  {
    hide Word, Shl, Drop;
    assert (32 - n) % TWO32 == 32 - n;
  }

  lemma {:induction false} FieldOfWord(s: seq<byte>, base: nat, r: nat, n: nat)
    requires r < 8 && 0 < n <= 25
    ensures Drop(Shl(BitsValue(s, base, 32), r), 32 - n) == BitsValue(s, base + r, n)
  {
    hide *;
    var index := base + r;
    BitsSplit(s, base, r, 32 - r);
    BitsSplit(s, index, n, 32 - r - n);
    BitsBound(s, index, 32 - r);
    BitsBound(s, index + n, 32 - r - n);
    ShiftOut(BitsValue(s, base, r), BitsValue(s, index, 32 - r), BitsValue(s, index, n),
             BitsValue(s, index + n, 32 - r - n), r, n);
  }

  /** ShowBits(n) is right for every n up to 25 at every position. */
  lemma {:induction false} ShownBits(s: seq<byte>, index: nat, n: nat)
    requires n <= 25
    ensures Shown(s, index, n) == BitsValue(s, index, n)
  {
    if n == 0 {
      ShownNone(s, index);
    } else {
      ShownSome(s, index, n);
      WordBits(s, index);
      hide *;
      FieldOfWord(s, index / 8 * 8, index % 8, n);
    }
  }

  /** For 26 to 32 bits both halves come from the same position. */
  lemma {:induction false} ShownLongSum(s: seq<byte>, index: nat, n: nat)
    requires 26 <= n <= 32
    ensures ShownLong(s, index, n) == Join(BitsValue(s, index, 16), n - 16, BitsValue(s, index, n - 16))
  {
    var a, b := BitsValue(s, index, 16), BitsValue(s, index, n - 16);
    ShownBits(s, index, 16);
    ShownBits(s, index, n - 16);
    BitsBound(s, index, 16);
    BitsBound(s, index, n - 16);
    PowValues();
    PowMonotone(n - 16, 16);
    hide Shown, BitsValue, Pow2, Or, Shl;
    ShlSmall(a, n - 16);
    OrDisjoint(a, n - 16, b);
  }

  lemma {:induction false} ShlSmall(a: nat, k: nat)
    requires k <= 16 && a < TWO16
    ensures Shl(a, k) == a * Pow2(k)
  {
    PowValues();
    PowMonotone(k, 16);
    hide Pow2;
    LessTimes(a, TWO16, Pow2(k));
    assert 0 <= a * Pow2(k);
  }

  /** The last n-16 of n bits are the first ones again. */
  predicate Repeats(s: seq<byte>, index: nat, n: nat)
    requires n >= 16
  {
    BitsValue(s, index, n - 16) == BitsValue(s, index + 16, n - 16)
  }

  /** ShowBitsLong(n) is right for n above 25 exactly when the n-16 bits here are also the n-16
      bits 16 positions further. */
  lemma {:induction false} ShownLongExact(s: seq<byte>, index: nat, n: nat)
    requires 26 <= n <= 32
    ensures ShownLong(s, index, n) == BitsValue(s, index, n)
            <==> Repeats(s, index, n)
  {
    hide ShownLong, BitsValue;
    ShownLongSum(s, index, n);
    BitsSplit(s, index, 16, n - 16);
  }

  lemma {:induction false} LongBits(s: seq<byte>, index: nat, n: int)
    ensures 0 <= n <= 25 ==> ShownLong(s, index, n) == BitsValue(s, index, n)
    ensures 26 <= n <= 32 ==> (ShownLong(s, index, n) == BitsValue(s, index, n) <==> Repeats(s, index, n))
  {
    hide Shown, BitsValue, Repeats;
    if 0 <= n <= 25 {
      ShownBits(s, index, n);
    } else if 26 <= n <= 32 {
      ShownLongExact(s, index, n);
    }
  }

  /** The octets 00 01 00 00, read as 32 bits, come out as 00 01 00 01. */
  lemma {:induction false} LongWrong(s: seq<byte>, k: nat)
    requires Octet(s, k) == 0 && Octet(s, k + 1) == 1 && Octet(s, k + 2) == 0 && Octet(s, k + 3) == 0
    ensures BitsValue(s, 8 * k, 32) == 0x1_0000 && ShownLong(s, 8 * k, 32) == 0x1_0001
  {
    hide Octet, BitsValue, ShownLong, Join, Or, Pow2;
    FourOctets(s, k);
    WholeOctet(s, k);
    WholeOctet(s, k + 1);
    BitsSplit(s, 8 * k, 8, 8);
    ShownLongSum(s, 8 * k, 32);
    Or8(0, 1);
    Or16(1, 1);
  }

  class BitStream {
    var index: int
    var bits: nat
    var buffer: seq<byte>

    ghost predicate Valid()
      reads this
    {
      bits == 8 * |buffer|
    }

    constructor ()
      ensures Valid() && index == 0 && buffer == []
    {
      index, bits, buffer := 0, 0, [];
    }

    /** Init refuses buffers whose bit count comes near the int32 range. */
    method Init(b: seq<byte>) returns (ok: bool)
      requires Valid()
      modifies this
      ensures Valid()
      ensures ok <==> |b| <= 268435454
      ensures if ok then index == 0 && buffer == b else index == old(index) && buffer == old(buffer)
    {
      var n := |b|;
      if n > 0x7FFF_FFFF / 8 { return false; }
      n := n * 8;
      if n >= 0x7FFF_FFFF - 7 { return false; }
      index, bits, buffer := 0, n, b;
      return true;
    }

    /** ShowBits: a negative position is an index out of range. */
    function ShowBits(n: int): (r: nat)
      requires Valid() && index >= 0
      reads this
      ensures r == Shown(buffer, index, n)
      ensures 0 <= n <= 25 ==> r == BitsValue(buffer, index, n)
    {
      if 0 <= n <= 25 then ShownBits(buffer, index, n); Shown(buffer, index, n) else Shown(buffer, index, n)
    }

    function ShowBitsLong(n: int): (r: nat)
      requires Valid() && index >= 0
      reads this
      ensures r == ShownLong(buffer, index, n)
      ensures 0 <= n <= 25 ==> r == BitsValue(buffer, index, n)
      ensures 26 <= n <= 32 ==> (r == BitsValue(buffer, index, n) <==> Repeats(buffer, index, n))
    {
      LongBits(buffer, index, n);
      if n <= 25 then ShowBits(n) else Or(Shl(ShowBits(16), n - 16), ShowBits(n - 16))
    }

    method ReadBits(n: int) returns (r: nat)
      requires Valid() && index >= 0
      modifies this`index
      ensures r == Shown(buffer, old(index), n) && index == old(index) + n
      ensures 0 <= n <= 25 ==> r == BitsValue(buffer, old(index), n)
    {
      r := ShowBits(n);
      index := index + n;
    }

    method ReadBitsLong(n: int) returns (r: nat)
      requires Valid() && index >= 0
      modifies this`index
      ensures r == ShownLong(buffer, old(index), n) && index == old(index) + n
      ensures 0 <= n <= 25 ==> r == BitsValue(buffer, old(index), n)
      ensures 26 <= n <= 32 ==> (r == BitsValue(buffer, old(index), n) <==> Repeats(buffer, old(index), n))
    {
      r := ShowBitsLong(n);
      index := index + n;
    }

    function Left(): int
      reads this
    {
      bits - index
    }
  }
}
