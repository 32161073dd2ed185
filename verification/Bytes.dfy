/** Octets, fixed-width integers and their big- and little-endian wire forms. */
module Bytes {

  type byte = x: int | 0 <= x < 256

  const TWO8 := 0x100
  const TWO16 := 0x1_0000
  const TWO24 := 0x100_0000
  const TWO32 := 0x1_0000_0000

  datatype Option<+T> = None | Some(value: T)

  /** The low 16 bits of n, most significant octet first. */
  function BE2(n: nat): (s: seq<byte>)
    ensures |s| == 2
  {
    [n / TWO8 % TWO8, n % TWO8]
  }

  /** The low 24 bits of n, most significant octet first. */
  function BE3(n: nat): (s: seq<byte>)
    ensures |s| == 3
  {
    [n / TWO16 % TWO8, n / TWO8 % TWO8, n % TWO8]
  }

  /** The low 32 bits of n, most significant octet first. */
  function BE4(n: nat): (s: seq<byte>)
    ensures |s| == 4
  {
    [n / TWO24 % TWO8, n / TWO16 % TWO8, n / TWO8 % TWO8, n % TWO8]
  }

  /** The low 32 bits of n, least significant octet first. */
  function LE4(n: nat): (s: seq<byte>)
    ensures |s| == 4
  {
    [n % TWO8, n / TWO8 % TWO8, n / TWO16 % TWO8, n / TWO24 % TWO8]
  }

  function Value2(a: byte, b: byte): (n: nat)
    ensures n < TWO16
  {
    a * TWO8 + b
  }

  function Value3(a: byte, b: byte, c: byte): (n: nat)
    ensures n < TWO24
  {
    a * TWO16 + b * TWO8 + c
  }

  function Value4(a: byte, b: byte, c: byte, d: byte): (n: nat)
    ensures n < TWO32
  {
    a * TWO24 + b * TWO16 + c * TWO8 + d
  }

  lemma {:induction false} Wire2(n: nat)
    ensures var s := BE2(n); Value2(s[0], s[1]) == n % TWO16
  {
    assert n / TWO8 / TWO8 == n / TWO16;
  }

  lemma {:induction false} Wire3(n: nat)
    ensures var s := BE3(n); Value3(s[0], s[1], s[2]) == n % TWO24
  {
    assert n / TWO8 / TWO8 == n / TWO16 && n / TWO16 / TWO8 == n / TWO24;
  }

  lemma {:induction false} Wire4(n: nat)
    ensures var s := BE4(n); Value4(s[0], s[1], s[2], s[3]) == n % TWO32
    ensures var s := LE4(n); Value4(s[3], s[2], s[1], s[0]) == n % TWO32
  {
    assert n / TWO8 / TWO8 == n / TWO16 && n / TWO16 / TWO8 == n / TWO24 && n / TWO24 / TWO8 == n / TWO32;
  }

  /** The most significant octet comes first, in LE4 last. */
  lemma {:induction false} OctetOrder()
    ensures BE2(0x0102) == [1, 2] && Value2(1, 2) == 0x0102
    ensures BE3(0x010203) == [1, 2, 3] && Value3(1, 2, 3) == 0x010203
    ensures BE4(0x01020304) == [1, 2, 3, 4] && Value4(1, 2, 3, 4) == 0x01020304
    ensures LE4(0x01020304) == [4, 3, 2, 1]
  {
  }

  lemma {:induction false} LowOctet(x: nat, c: byte)
    ensures (x * TWO8 + c) / TWO8 == x && (x * TWO8 + c) % TWO8 == c
  {
  }

  /** Reading an octet string and writing it again. */
  lemma {:induction false} Octets3(a: byte, b: byte, c: byte)
    ensures BE3(Value3(a, b, c)) == [a, b, c]
  {
    var n := Value3(a, b, c);
    LowOctet(a * TWO8 + b, c);
    LowOctet(a, b);
    assert n / TWO16 == n / TWO8 / TWO8;
  }

  lemma {:induction false} Octets4(a: byte, b: byte, c: byte, d: byte)
    ensures BE4(Value4(a, b, c, d)) == [a, b, c, d]
  {
    var n := Value4(a, b, c, d);
    var m := Value3(a, b, c);
    LowOctet(m, d);
    Octets3(a, b, c);
    assert n == m * TWO8 + d && n / TWO16 == n / TWO8 / TWO8 && n / TWO24 == n / TWO8 / TWO16;
  }

  /** Whether s starts with p. */
  predicate StartsWith(s: seq<byte>, p: seq<byte>) {
    |p| <= |s| && s[..|p|] == p
  }

  function Min(a: int, b: int): int {
    if a <= b then a else b
  }

  function Concat(pieces: seq<seq<byte>>): seq<byte>
    decreases |pieces|
  {
    if pieces == [] then [] else pieces[0] + Concat(pieces[1..])
  }

  lemma {:induction false} ModUnique(k: nat, m: nat, q: nat, r: nat)
    requires m > 0 && r < m && k == m * q + r
    ensures k % m == r && k / m == q
  {
    var d := k / m - q;
    assert m * d == r - k % m;
  }

  /** The remainder of a successor. */
  lemma {:induction false} NextMod(k: nat, m: nat)
    requires m > 0
    ensures (k + 1) % m == if k % m + 1 == m then 0 else k % m + 1
  {
    var q, r := k / m, k % m;
    if r + 1 == m {
      assert k + 1 == m * (q + 1);
      ModUnique(k + 1, m, q + 1, 0);
    } else {
      ModUnique(k + 1, m, q, r + 1);
    }
  }

  lemma {:induction false} Assoc<T>(a: seq<T>, b: seq<T>, c: seq<T>)
    ensures a + b + c == a + (b + c)
  {
  }

  lemma {:induction false} AssocThree<T>(a: seq<T>, b: seq<T>, c: seq<T>, d: seq<T>)
    ensures a + b + c + d == a + (b + c + d)
  {
  }

  lemma {:induction false} AssocFour<T>(a: seq<T>, b: seq<T>, c: seq<T>, d: seq<T>, e: seq<T>)
    ensures a + b + c + d + e == a + (b + c + d + e)
  {
  }
}
