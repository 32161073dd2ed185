/** Emulation prevention: ebsp2rbsp against the insertion of section 7.4.1 of H.264. */
module Emulation {
  import opened Bytes

  /** The number of zero octets that end at the next position, given how many precede it. */
  function ZerosAfter(z: nat, b: byte): nat {
    if b == 0 then z + 1 else 0
  }

  /** Decoding: drop every 03 that follows two zero octets; z zeros precede data. */
  function Strip(z: nat, data: seq<byte>): seq<byte>
    decreases |data|
  {
    if data == [] then []
    else if data[0] == 3 && z >= 2 then Strip(0, data[1..])
    else [data[0]] + Strip(ZerosAfter(z, data[0]), data[1..])
  }

  /** Encoding, as the standard prescribes: a 03 before any octet up to 03 that would follow two zeros,
      and one at the end if the last octet is zero. */
  function Protect(z: nat, rbsp: seq<byte>): seq<byte>
    decreases |rbsp|
  {
    if rbsp == [] then if z > 0 then [3] else []
    else if z >= 2 && rbsp[0] <= 3 then [3, rbsp[0]] + Protect(ZerosAfter(0, rbsp[0]), rbsp[1..])
    else [rbsp[0]] + Protect(ZerosAfter(z, rbsp[0]), rbsp[1..])
  }

  /** What the standard requires of the octets of a NAL unit: no start code prefix or reserved
      pattern, 03 after two zeros only as an escape, no zero at the end. */
  predicate Legal(z: nat, data: seq<byte>)
    decreases |data|
  {
    if data == [] then z == 0
    else if z < 2 then Legal(ZerosAfter(z, data[0]), data[1..])
    else if data[0] == 3 then (data[1..] == [] || data[1] <= 3) && Legal(0, data[1..])
    else data[0] > 3 && Legal(0, data[1..])
  }

  function TrailingZeros(z: nat, s: seq<byte>): nat
    decreases |s|
  {
    if s == [] then z else TrailingZeros(ZerosAfter(z, s[0]), s[1..])
  }

  /** The zeros that count: after each inserted octet the encoder starts over. */
  function Pending(n: nat): nat {
    if n == 0 then 0 else if n % 2 == 1 then 1 else 2
  }

  lemma {:induction false} StripCons(z: nat, b: byte, rest: seq<byte>)
    ensures Strip(z, [b] + rest)
            == if b == 3 && z >= 2 then Strip(0, rest) else [b] + Strip(ZerosAfter(z, b), rest)
  {
    assert ([b] + rest)[1..] == rest;
  }

  lemma {:induction false} LegalCons(z: nat, b: byte, rest: seq<byte>)
    ensures Legal(z, [b] + rest)
            == if z < 2 then Legal(ZerosAfter(z, b), rest)
               else if b == 3 then (rest == [] || rest[0] <= 3) && Legal(0, rest)
               else b > 3 && Legal(0, rest)
  {
    assert ([b] + rest)[1..] == rest;
  }

  lemma {:induction false} PendingNext(n: nat, b: byte)
    ensures Pending(n) <= 2
    ensures Pending(ZerosAfter(n, b))
            == if Pending(n) >= 2 && b <= 3 then ZerosAfter(0, b) else ZerosAfter(Pending(n), b)
  {
  }

  lemma {:induction false} NothingLeft(n: nat)
    ensures Strip(Pending(n), Protect(Pending(n), [])) == if n % 2 == 1 then [3] else []
  {
    StripCons(Pending(n), 3, []);
  }

  /** Decoding undoes encoding except that, when the RBSP ends in an odd number of zero octets, the
      final 03 follows a single zero and stays. n zeros precede the rest of the RBSP. */
  lemma {:induction false} StripProtect(n: nat, rbsp: seq<byte>)
    ensures Strip(Pending(n), Protect(Pending(n), rbsp))
            == rbsp + if TrailingZeros(n, rbsp) % 2 == 1 then [3] else []
    decreases |rbsp|
  {
    var z := Pending(n);
    if rbsp == [] {
      NothingLeft(n);
    } else {
      var b, rest := rbsp[0], rbsp[1..];
      assert rbsp == [b] + rest;
      PendingNext(n, b);
      StripProtect(ZerosAfter(n, b), rest);
      var end := if TrailingZeros(n, rbsp) % 2 == 1 then [3] else [];
      Assoc([b], rest, end);
      hide Pending, ZerosAfter, Strip;
      if z >= 2 && b <= 3 {
        var tail := Protect(ZerosAfter(0, b), rest);
        assert [3, b] + tail == [3] + ([b] + tail);
        StripCons(z, 3, [b] + tail);
        StripCons(0, b, tail);
      } else {
        StripCons(z, b, Protect(ZerosAfter(z, b), rest));
      }
    }
  }

  /** Encoded octets are legal: no start code can appear inside them. */
  lemma {:induction false} ProtectLegal(z: nat, rbsp: seq<byte>)
    requires z <= 2
    ensures Legal(z, Protect(z, rbsp))
    decreases |rbsp|
  {
    if rbsp == [] {
      LegalCons(z, 3, []);
      assert [3] + [] == [3];
    } else {
      var b, rest := rbsp[0], rbsp[1..];
      if z >= 2 && b <= 3 {
        var tail := Protect(ZerosAfter(0, b), rest);
        ProtectLegal(ZerosAfter(0, b), rest);
        assert [3, b] + tail == [3] + ([b] + tail);
        LegalCons(z, 3, [b] + tail);
        LegalCons(0, b, tail);
      } else {
        var tail := Protect(ZerosAfter(z, b), rest);
        ProtectLegal(ZerosAfter(z, b), rest);
        LegalCons(z, b, tail);
      }
    }
  }

  /** Encoding what was decoded gives back every legal NAL unit. */
  lemma {:induction false} ProtectStrip(z: nat, data: seq<byte>)
    requires z <= 2 && Legal(z, data)
    ensures Protect(z, Strip(z, data)) == data
    decreases |data|
  {
    if data != [] {
      var b, rest := data[0], data[1..];
      assert data == [b] + rest;
      StripCons(z, b, rest);
      LegalCons(z, b, rest);
      if b == 3 && z >= 2 {
        if rest == [] {
          assert Strip(0, rest) == [];
        } else {
          var c, more := rest[0], rest[1..];
          assert rest == [c] + more;
          StripCons(0, c, more);
          LegalCons(0, c, more);
          ProtectStrip(ZerosAfter(0, c), more);
          var r := Strip(ZerosAfter(0, c), more);
          assert ([c] + r)[1..] == r;
          assert [3, c] + more == [3] + ([c] + more);
        }
      } else {
        ProtectStrip(ZerosAfter(z, b), rest);
        var r := Strip(ZerosAfter(z, b), rest);
        assert ([b] + r)[1..] == r;
      }
    }
  }

  /** The first two octets are copied without looking at them. */
  lemma {:induction false} FirstTwo(data: seq<byte>)
    requires |data| >= 2
    ensures Strip(0, data) == data[..2] + Strip(ZerosAfter(ZerosAfter(0, data[0]), data[1]), data[2..])
  {
    var a, b, rest := data[0], data[1], data[2..];
    assert data == [a] + ([b] + rest) && data[..2] == [a] + [b];
    StripCons(0, a, [b] + rest);
    StripCons(ZerosAfter(0, a), b, rest);
  }

  /** What ebsp2rbsp returns: fewer than two octets make it panic. */
  function Decoded(data: seq<byte>): Option<seq<byte>> {
    if |data| < 2 then None else Some(Strip(0, data))
  }

  method Ebsp2Rbsp(data: array<byte>) returns (rbsp: Option<seq<byte>>)
    ensures rbsp == Decoded(data[..])
  {
    var n := data.Length;
    if n < 2 {
      return None;
    }
    var i := 2;
    var dst := new byte[n];
    dst[0], dst[1] := data[0], data[1];
    var j := 2;
    ghost var z := ZerosAfter(ZerosAfter(0, data[0]), data[1]);
    FirstTwo(data[..]);
    assert dst[..2] == data[..2];
    while j < n
      invariant 2 <= i <= j <= n
      invariant z >= 2 <==> data[j - 1] == 0 && data[j - 2] == 0
      invariant z >= 1 <==> data[j - 1] == 0
      invariant dst[..i] + Strip(z, data[j..]) == Strip(0, data[..])
    {
      var b := data[j];
      assert data[j..] == [b] + data[j + 1..];
      StripCons(z, b, data[j + 1..]);
      if b == 3 && data[j - 1] == 0 && data[j - 2] == 0 {
        z := 0;
      } else {
        ghost var before := dst[..i];
        dst[i] := b;
        i := i + 1;
        assert dst[..i] == before + [b];
        Assoc(before, [b], Strip(ZerosAfter(z, b), data[j + 1..]));
        z := ZerosAfter(z, b);
      }
      j := j + 1;
    }
    assert data[n..] == [] && dst[..i] + [] == dst[..i];
    return Some(dst[..i]);
  }

  lemma {:induction false} ProtectGrows(z: nat, rbsp: seq<byte>)
    ensures |Protect(z, rbsp)| >= |rbsp|
    decreases |rbsp|
  {
    if rbsp != [] {
      ProtectGrows(ZerosAfter(0, rbsp[0]), rbsp[1..]);
      ProtectGrows(ZerosAfter(z, rbsp[0]), rbsp[1..]);
    }
  }

  /** One octet: written as itself, or a zero with a 03 behind it. */
  lemma {:induction false} OneOctet(b: byte)
    ensures Protect(0, [b]) == if b == 0 then [0, 3] else [b]
    ensures Decoded(Protect(0, [b])) == if b == 0 then Some([0, 3]) else None
  {
    assert [b][1..] == [];
    assert Protect(1, []) == [3];
    if b == 0 {
      assert [0, 3] == [0] + ([3] + []);
      StripCons(0, 0, [3] + []);
      StripCons(1, 3, []);
    }
  }

  /** The round trip through the standard's encoder holds exactly for an RBSP of at least two octets that
      ends in an even number of zeros, as one made of whole cabac_zero_words does. */
  lemma {:induction false} RoundTrip(rbsp: seq<byte>)
    ensures Decoded(Protect(0, rbsp)) == Some(rbsp) <==> |rbsp| >= 2 && TrailingZeros(0, rbsp) % 2 == 0
  {
    StripProtect(0, rbsp);
    ProtectGrows(0, rbsp);
    if |rbsp| == 1 {
      assert rbsp == [rbsp[0]];
      OneOctet(rbsp[0]);
    } else if TrailingZeros(0, rbsp) % 2 == 1 {
      assert |rbsp + [3]| == |rbsp| + 1;
    } else {
      assert rbsp + [] == rbsp;
    }
  }

  /** One zero octet at the end keeps its 03. */
  lemma {:induction false} OddZeros(b: byte)
    requires b != 0
    ensures Protect(0, [b, 0]) == [b, 0, 3] && Decoded([b, 0, 3]) == Some([b, 0, 3])
  {
    assert [b, 0][1..] == [0] && [0][1..] == [];
    assert Protect(1, []) == [3] && Protect(0, [0]) == [0, 3];
    assert [b, 0, 3][1..] == [0, 3] && [0, 3][1..] == [3] && [3][1..] == [];
    assert Strip(1, [3]) == [3] && Strip(0, [0, 3]) == [0, 3];
  }
}
