/** Exp-Golomb codes: ReadUE and ReadSE against sections 9.1 and 9.1.1 of H.264. */
module Golombs {
  import opened Bytes
  import opened BitStreams

  // ---- the codes -----------------------------------------------------------

  function Log2(n: nat): (z: nat)
    requires n > 0
    ensures Pow2(z) <= n < Pow2(z + 1)
  {
    if n == 1 then 0 else 1 + Log2(n / 2)
  }

  /** The code of u: z zero bits, then u+1 in z+1 bits. */
  function CodeLength(u: nat): nat {
    2 * Log2(u + 1) + 1
  }

  predicate CodedAt(s: seq<byte>, i: nat, u: nat) {
    BitsValue(s, i, CodeLength(u)) == u + 1
  }

  /** The code number of a signed value. */
  function SeCode(v: int): nat {
    if v > 0 then 2 * v - 1 else -2 * v
  }

  // ---- what the reader computes --------------------------------------------

  /** The loop counter of ReadUE: zero bits before the first one bit, or one less than the bits
      that are left when all of them are zero. */
  function Prefix(s: seq<byte>, i: nat, left: nat): (n: int)
    ensures n >= -1 && (n == -1 ==> left == 0)
    decreases left
  {
    if left == 0 then -1 else if Bit(s, i) == 1 then 0 else 1 + Prefix(s, i + 1, left - 1)
  }

  function LeftAt(s: seq<byte>, i: nat): nat {
    if i < 8 * |s| then 8 * |s| - i else 0
  }

  function Uint32(x: int): (r: nat)
    ensures r < TWO32
  {
    x % TWO32
  }

  /** The result of ReadUE at a position, on uint32, and the position after it. */
  function UeValue(s: seq<byte>, i: nat): (r: nat)
    ensures r < TWO32
  {
    var n := Prefix(s, i, LeftAt(s, i));
    Uint32(Shl(1, Uint32(n)) - 1 + ShownLong(s, i + n + 1, n))
  }

  /** With nothing left the position moves back by one. */
  function UeEnd(s: seq<byte>, i: nat): (j: int)
    ensures s != [] ==> j >= 0
  {
    i + 2 * Prefix(s, i, LeftAt(s, i)) + 1
  }

  function ToInt32(x: nat): int
    requires x < TWO32
  {
    if x < 0x8000_0000 then x else x - TWO32
  }

  /** The mapping of ReadSE; >> on int32 rounds down. */
  function SeOf(u: nat): int
    requires u < TWO32
  {
    if u % 2 == 0 then -ToInt32(u / 2) else ToInt32(Uint32(u + 1)) / 2
  }

  // ---- inverses ------------------------------------------------------------

  lemma {:induction false} JoinZero(a: nat, k: nat, b: nat)
    requires Join(a, k, b) < Pow2(k)
    ensures a == 0 && Join(a, k, b) == b
  {
    hide Pow2;
    if a > 0 {
      Distribute(a - 1, 1, 1, Pow2(k));
    }
  }

  lemma {:induction false} NoLeadingBit(s: seq<byte>, i: nat, z: nat)
    requires z > 0 && BitsValue(s, i, z) == 0
    ensures Bit(s, i) == 0 && BitsValue(s, i + 1, z - 1) == 0
  {
    hide *;
    BitsSplit(s, i, 1, z - 1);
    JoinZero(BitsValue(s, i, 1), z - 1, BitsValue(s, i + 1, z - 1));
    FirstBit(s, i);
  }

  lemma {:induction false} PrefixIs(s: seq<byte>, i: nat, left: nat, z: nat)
    requires z < left && BitsValue(s, i, z) == 0 && Bit(s, i + z) == 1
    ensures Prefix(s, i, left) == z
    decreases z
  {
    hide Bit, BitsValue;
    if z > 0 {
      NoLeadingBit(s, i, z);
      PrefixIs(s, i + 1, left - 1, z - 1);
    }
  }

  lemma {:induction false} FirstBit(s: seq<byte>, i: nat)
    ensures BitsValue(s, i, 1) == Bit(s, i)
  {
    assert BitsValue(s, i, 1) == 2 * BitsValue(s, i, 0) + Bit(s, i);
  }

  lemma {:induction false} InRange(s: seq<byte>, i: nat, z: nat)
    requires Bit(s, i + z) == 1
    ensures z < LeftAt(s, i)
  {
  }

  lemma {:induction false} OneJoin(a: nat, k: nat, b: nat)
    requires a <= 1 && b < Pow2(k) <= Join(a, k, b)
    ensures a == 1 && b == Join(a, k, b) - Pow2(k)
  {
    hide Pow2;
  }

  lemma {:induction false} ZerosFirst(s: seq<byte>, i: nat, z: nat)
    requires BitsValue(s, i, 2 * z + 1) < Pow2(z + 1)
    ensures BitsValue(s, i, z) == 0 && BitsValue(s, i + z, z + 1) == BitsValue(s, i, 2 * z + 1)
  {
    hide *;
    assert z + (z + 1) == 2 * z + 1;
    BitsSplit(s, i, z, z + 1);
    JoinZero(BitsValue(s, i, z), z + 1, BitsValue(s, i + z, z + 1));
  }

  lemma {:induction false} OneThenRest(s: seq<byte>, i: nat, z: nat)
    requires Pow2(z) <= BitsValue(s, i, z + 1)
    ensures Bit(s, i) == 1 && BitsValue(s, i + 1, z) == BitsValue(s, i, z + 1) - Pow2(z)
  {
    hide *;
    assert 1 + z == z + 1;
    BitsSplit(s, i, 1, z);
    FirstBit(s, i);
    BitsBound(s, i + 1, z);
    OneJoin(Bit(s, i), z, BitsValue(s, i + 1, z));
  }

  /** A code at a position: zeros, a one bit, and the low bits of u+1. */
  lemma {:induction false} CodeParts(s: seq<byte>, i: nat, u: nat)
    requires CodedAt(s, i, u)
    ensures var z := Log2(u + 1);
            && Prefix(s, i, LeftAt(s, i)) == z
            && BitsValue(s, i + z + 1, z) == u + 1 - Pow2(z)
  {
    var z := Log2(u + 1);
    assert BitsValue(s, i, 2 * z + 1) == u + 1;
    hide *;
    ZerosFirst(s, i, z);
    OneThenRest(s, i + z, z);
    InRange(s, i, z);
    PrefixIs(s, i, LeftAt(s, i), z);
  }

  lemma {:induction false} ShlOne(z: nat)
    requires z <= 31
    ensures Shl(1, z) == Pow2(z) && 2 * Pow2(z) <= TWO32
  {
    PowMonotone(z + 1, 32);
    PowValues();
    assert Pow2(z + 1) == 2 * Pow2(z);
    hide Pow2;
  }

  lemma {:induction false} UeParts(s: seq<byte>, i: nat, z: nat)
    requires Prefix(s, i, LeftAt(s, i)) == z <= 31
    ensures UeValue(s, i) == Uint32(Pow2(z) - 1 + ShownLong(s, i + z + 1, z))
    ensures UeEnd(s, i) == i + 2 * z + 1
  {
    hide Prefix, LeftAt, ShownLong, Pow2, Shl, Uint32;
    ShlOne(z);
    Small(z);
  }

  lemma {:induction false} Small(n: nat)
    requires n < TWO32
    ensures Uint32(n) == n
  {
  }

  /** The number of leading zeros tells how large u is. */
  lemma {:induction false} LogRange(u: nat)
    requires u < TWO32 - 1
    ensures Log2(u + 1) <= 31 && (Log2(u + 1) <= 25 <==> u <= 0x3FF_FFFE)
  {
    var z := Log2(u + 1);
    PowValues();
    PowAdd(24, 2);
    hide Log2;
    assert Pow2(26) == 0x400_0000;
    hide Pow2;
    if z > 31 {
      PowMonotone(32, z);
    } else if z > 25 {
      PowMonotone(26, z);
    } else {
      PowMonotone(z + 1, 26);
    }
  }

  lemma {:induction false} ShortLong(s: seq<byte>, i: nat, n: nat)
    requires n <= 25
    ensures ShownLong(s, i, n) == BitsValue(s, i, n)
  {
    ShownBits(s, i, n);
    hide Shown, BitsValue;
  }

  lemma {:induction false} EndOfCode(s: seq<byte>, i: nat, u: nat)
    requires CodedAt(s, i, u) && u < TWO32 - 1
    ensures UeEnd(s, i) == i + CodeLength(u)
  {
    hide UeEnd;
    LogRange(u);
    CodeParts(s, i, u);
    UeParts(s, i, Log2(u + 1));
  }

  /** ReadUE inverts the code of every u up to 2^26-2 at every bit offset, and moves by exactly the
      length of the code. */
  lemma {:induction false} UeInverse(s: seq<byte>, i: nat, u: nat)
    requires CodedAt(s, i, u) && u <= 0x3FF_FFFE
    ensures UeValue(s, i) == u && UeEnd(s, i) == i + CodeLength(u)
  {
    hide UeValue, UeEnd, CodeLength, Prefix, LeftAt, Log2, Pow2, CodedAt, BitsValue, ShownLong;
    var z := Log2(u + 1);
    LogRange(u);
    EndOfCode(s, i, u);
    CodeParts(s, i, u);
    UeParts(s, i, z);
    ShortLong(s, i + z + 1, z);
  }

  /** Above that, ReadUE is right exactly when the low bits repeat 16 positions further. */
  lemma {:induction false} UeExact(s: seq<byte>, i: nat, u: nat)
    requires CodedAt(s, i, u) && 0x3FF_FFFE < u < TWO32 - 1
    ensures UeEnd(s, i) == i + CodeLength(u)
    ensures var z := Log2(u + 1);
            z >= 26 && (UeValue(s, i) == u <==> Repeats(s, i + z + 1, z))
  {
    hide UeValue, UeEnd, CodeLength, Prefix, LeftAt, Log2, Pow2, CodedAt, BitsValue, ShownLong, Join, Shl, Repeats;
    var z := Log2(u + 1);
    var j := i + z + 1;
    LogRange(u);
    EndOfCode(s, i, u);
    CodeParts(s, i, u);
    UeParts(s, i, z);
    ShownLongExact(s, j, z);
    ShownLongBound(s, j, z);
    ShlOne(z);
  }

  lemma {:induction false} ShownLongBound(s: seq<byte>, i: nat, n: nat)
    requires 26 <= n <= 32
    ensures ShownLong(s, i, n) < Pow2(n)
  {
    hide *;
    ShownLongSum(s, i, n);
    BitsBound(s, i, 16);
    BitsBound(s, i, n - 16);
    JoinBound(BitsValue(s, i, 16), 16, n - 16, BitsValue(s, i, n - 16));
  }

  lemma {:induction false} JoinBound(a: nat, m: nat, k: nat, b: nat)
    requires a < Pow2(m) && b < Pow2(k)
    ensures Join(a, k, b) < Pow2(m + k)
  {
    PowAdd(m, k);
    hide Pow2;
    TimesMonotone(a + 1, Pow2(m), Pow2(k));
    Distribute(a, 1, 1, Pow2(k));
  }

  lemma {:induction false} TimesMonotone(a: nat, b: nat, p: nat)
    requires a <= b
    ensures a * p <= b * p
  {
  }

  /** What ReadUE returns has as many leading zeros as the code it read. */
  lemma {:induction false} UeRange(s: seq<byte>, i: nat, u: nat)
    requires CodedAt(s, i, u) && 0x3FF_FFFE < u < TWO32 - 1
    ensures var z := Log2(u + 1);
            && 26 <= z <= 31 && UeValue(s, i) == Pow2(z) - 1 + ShownLong(s, i + z + 1, z) < 2 * Pow2(z) - 1 < TWO32
  {
    hide UeValue, UeEnd, CodeLength, Prefix, LeftAt, Log2, Pow2, CodedAt, BitsValue, ShownLong, Join, Shl;
    var z := Log2(u + 1);
    LogRange(u);
    CodeParts(s, i, u);
    UeParts(s, i, z);
    ShownLongBound(s, i + z + 1, z);
    ShlOne(z);
  }

  /** A code whose low bits are all zero but the last loses that bit. */
  lemma {:induction false} LastBitLost(s: seq<byte>, i: nat, u: nat)
    requires CodedAt(s, i, u) && 0x3FF_FFFE < u < TWO32 - 1 && u == Pow2(Log2(u + 1))
    ensures UeValue(s, i) == u - 1
  {
    var z := Log2(u + 1);
    UeRange(s, i, u);
    CodeParts(s, i, u);
    hide UeValue, CodedAt, Prefix, LeftAt, Log2;
    OnlyLast(s, i + z + 1, z);
  }

  lemma {:induction false} OnlyLast(s: seq<byte>, j: nat, z: nat)
    requires 26 <= z <= 31 && BitsValue(s, j, z) == 1
    ensures ShownLong(s, j, z) == 0
  {
    hide *;
    BitsSplit(s, j, 16, z - 16);
    JoinOne(BitsValue(s, j, 16), z - 16, BitsValue(s, j + 16, z - 16));
    BitsSplit(s, j, z - 16, 32 - z);
    JoinNothing(BitsValue(s, j, z - 16), 32 - z, BitsValue(s, j + z - 16, 32 - z));
    ShownLongSum(s, j, z);
    JoinNothing(0, z - 16, 0);
  }

  lemma {:induction false} JoinOne(a: nat, k: nat, b: nat)
    requires Join(a, k, b) == 1 && k > 0
    ensures a == 0
  {
    if a > 0 {
      Distribute(a - 1, 1, 1, Pow2(k));
    }
  }

  lemma {:induction false} JoinNothing(a: nat, k: nat, b: nat)
    ensures Join(a, k, b) == 0 <==> a == 0 && b == 0
  {
    if a > 0 {
      LessTimes(0, a, Pow2(k));
    }
  }

  /** 2^26 is read as 2^26 - 1, wherever its code stands. */
  lemma {:induction false} UeWrong(s: seq<byte>, i: nat)
    requires CodedAt(s, i, 0x400_0000)
    ensures UeValue(s, i) == 0x3FF_FFFF
  {
    var u := 0x400_0000;
    PowValues();
    PowAdd(24, 2);
    LogIs(u + 1, 26);
    hide UeValue, CodedAt, Log2, Pow2;
    LastBitLost(s, i, u);
  }

  lemma {:induction false} LogIs(n: nat, z: nat)
    requires Pow2(z) <= n < 2 * Pow2(z)
    ensures Log2(n) == z
  {
    hide Log2;
    if Log2(n) < z {
      PowMonotone(Log2(n) + 1, z);
    } else if Log2(n) > z {
      PowMonotone(z + 1, Log2(n));
    }
  }

  /** At the end of the buffer ReadUE answers 2^32 - 1, ReadSE 0, and the position moves back by one. */
  lemma {:induction false} PastEnd(s: seq<byte>, i: nat)
    requires i >= 8 * |s|
    ensures UeValue(s, i) == 0xFFFF_FFFF && SeOf(UeValue(s, i)) == 0 && UeEnd(s, i) == i - 1
  {
  }

  /** Where only zero bits are left, as many bits as those are taken once more, but one. */
  lemma {:induction false} ZerosLeft(s: seq<byte>, i: nat)
    requires i < 8 * |s| && BitsValue(s, i, 8 * |s| - i) == 0
    ensures UeEnd(s, i) == i + 2 * (8 * |s| - i) - 1
  {
    hide Bit, BitsValue;
    AllZeros(s, i, 8 * |s| - i);
  }

  lemma {:induction false} AllZeros(s: seq<byte>, i: nat, left: nat)
    requires BitsValue(s, i, left) == 0
    ensures Prefix(s, i, left) == left - 1
    decreases left
  {
    hide Bit, BitsValue;
    if left > 0 {
      NoLeadingBit(s, i, left);
      AllZeros(s, i + 1, left - 1);
    }
  }

  /** The signed mapping is inverted exactly below 2^30: from there on int32(u+1) is negative. */
  lemma {:induction false} SeExact(v: int)
    requires -0x8000_0000 < v < 0x8000_0000
    ensures SeCode(v) < TWO32 - 1 && (SeOf(SeCode(v)) == v <==> v < 0x4000_0000)
  {
  }

  /** ReadSE inverts the signed code on the range of ReadUE. */
  lemma {:induction false} SeInverse(s: seq<byte>, i: nat, v: int)
    requires CodedAt(s, i, SeCode(v)) && SeCode(v) <= 0x3FF_FFFE
    ensures SeOf(UeValue(s, i)) == v && UeEnd(s, i) == i + CodeLength(SeCode(v))
  {
    UeInverse(s, i, SeCode(v));
    SeExact(v);
  }

  /** Which code numbers the mapping takes to v: its own, and one more that wraps to a negative. */
  lemma {:induction false} SePreimage(w: nat, v: int)
    requires w < TWO32 && -0x8000_0000 < v < 0x8000_0000
    ensures SeOf(w) == v
            <==> v < 0x4000_0000
                 && (w == SeCode(v) || (v <= 0 && w >= 0x7FFF_FFFF && w == TWO32 - 1 - SeCode(v)))
  {
    hide SeOf;
    var h := w / 2;
    if w % 2 == 0 {
      SeOfEven(h);
    } else {
      SeOfOdd(h);
    }
  }

  lemma {:induction false} SeOfEven(h: nat)
    requires 2 * h < TWO32
    ensures SeOf(2 * h) + h == 0
  {
  }

  lemma {:induction false} SeOfOdd(h: nat)
    requires 2 * h + 1 < TWO32
    ensures SeOf(2 * h + 1) == if h == 0x7FFF_FFFF then 0 else if h < 0x3FFF_FFFF then h + 1 else h + 1 - 0x8000_0000
  {
    hide SeOf;
    SeOfOddIs(h);
    var n := 2 * h + 2;
    if h < 0x7FFF_FFFF {
      Small(n);
    }
  }

  lemma {:induction false} SeOfOddIs(h: nat)
    requires 2 * h + 1 < TWO32
    ensures SeOf(2 * h + 1) == ToInt32(Uint32(2 * h + 2)) / 2
  {
    hide Uint32, ToInt32;
  }

  /** Above the range of ReadUE, ReadSE is right exactly below 2^30 where ReadUE is right, and for -2^30,
      whose code number is read one too low and then wraps to the same value. */
  lemma {:induction false} SeRight(s: seq<byte>, i: nat, v: int)
    requires -0x8000_0000 < v < 0x8000_0000 && CodedAt(s, i, SeCode(v)) && SeCode(v) > 0x3FF_FFFE
    ensures var z := Log2(SeCode(v) + 1);
            z >= 26 && (SeOf(UeValue(s, i)) == v
                        <==> v < 0x4000_0000 && (Repeats(s, i + z + 1, z) || v == -0x4000_0000))
  {
    hide UeValue, Log2, Pow2, CodedAt, Repeats, SeOf;
    var u := SeCode(v);
    var z := Log2(u + 1);
    SeExact(v);
    UeExact(s, i, u);
    UeRange(s, i, u);
    SePreimage(UeValue(s, i), v);
    SmallerPowers(z);
    if v == -0x4000_0000 {
      ReadOneLow(s, i);
    }
  }

  /** The code number of -2^30 is read one too low. */
  lemma {:induction false} ReadOneLow(s: seq<byte>, i: nat)
    requires CodedAt(s, i, 0x8000_0000)
    ensures UeValue(s, i) == 0x7FFF_FFFF
  {
    hide UeValue, CodedAt, Log2, Pow2;
    HalfWord();
    LogIs(0x8000_0001, 31);
    LastBitLost(s, i, 0x8000_0000);
  }

  lemma {:induction false} HalfWord()
    ensures Pow2(31) == 0x8000_0000
  {
    PowValues();
    assert Pow2(32) == 2 * Pow2(31);
  }

  lemma {:induction false} SmallerPowers(z: nat)
    requires z <= 31
    ensures z < 31 ==> Pow2(z) <= 0x4000_0000
    ensures z == 31 ==> Pow2(z) == 0x8000_0000
  {
    HalfWord();
    if z < 31 {
      PowMonotone(z + 1, 31);
    }
  }

  /** utils.Golomb: a bit stream with the two readers. */
  class Golomb {
    const stream: BitStream

    constructor (stream: BitStream)
      ensures this.stream == stream
    {
      this.stream := stream;
    }

    method ReadUE() returns (r: nat)
      requires stream.Valid() && stream.index >= 0
      modifies stream`index
      ensures r == UeValue(stream.buffer, old(stream.index))
      ensures stream.index == UeEnd(stream.buffer, old(stream.index))
    {
      hide Bit, BitsValue, Shown, ShownLong;
      ghost var s, start := stream.buffer, stream.index;
      ghost var count := Prefix(s, start, LeftAt(s, start));
      var n, i := -1, 0;
      while i == 0 && stream.Left() > 0
        invariant n >= -1 && stream.index == start + n + 1
        invariant if i == 0 then count == n + 1 + Prefix(s, stream.index, LeftAt(s, stream.index)) else count == n
        decreases stream.Left(), i == 0
      {
        ghost var at := stream.index;
        i := stream.ReadBits(1);
        FirstBit(s, at);
        n := n + 1;
      }
      var low := stream.ReadBitsLong(n);
      r := Uint32(Shl(1, Uint32(n)) - 1 + low);
    }

    method ReadSE() returns (v: int)
      requires stream.Valid() && stream.index >= 0
      modifies stream`index
      ensures v == SeOf(UeValue(stream.buffer, old(stream.index)))
      ensures stream.index == UeEnd(stream.buffer, old(stream.index))
    {
      hide UeValue, UeEnd;
      var u := ReadUE();
      v := if u % 2 == 0 then -ToInt32(u / 2) else ToInt32(Uint32(u + 1)) / 2;
    }
  }
}
