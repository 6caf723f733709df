/** Bytes, fixed-width unsigned integers and the bitwise operations the codecs use. */
module Bytes {

  newtype byte = x: int | 0 <= x < 256

  type uint16 = x: int | 0 <= x < 0x1_0000
  type uint32 = x: int | 0 <= x < 0x1_0000_0000
  type uint64 = x: int | 0 <= x < 0x1_0000_0000_0000_0000

  const WORD32: int := 0x1_0000_0000

  /** n + 1 in 32 bits. */
  function Next32(n: uint32): (r: uint32)
    ensures n + 1 < WORD32 ==> r == n + 1
  {
    if n + 1 == WORD32 then 0 else n + 1
  }

  /** The parts one after the other. */
  function Joined(parts: seq<seq<byte>>): seq<byte> {
    if parts == [] then [] else parts[0] + Joined(parts[1..])
  }

  /** Bitwise exclusive or, bit by bit from the lowest. */
  function XorNat(a: nat, b: nat): nat
    decreases a + b
  {
    if a == 0 && b == 0 then 0 else 2 * XorNat(a / 2, b / 2) + (a + b) % 2
  }

  /** Bitwise and, bit by bit from the lowest. */
  function AndNat(a: nat, b: nat): nat
    decreases a + b
  {
    if a == 0 || b == 0 then 0 else 2 * AndNat(a / 2, b / 2) + (a % 2) * (b % 2)
  }

  lemma {:induction false} XorBound(a: nat, b: nat, w: nat)
    requires a < Pow2(w) && b < Pow2(w)
    ensures XorNat(a, b) < Pow2(w)
    decreases w
  {
    if w == 0 {
    } else if a == 0 && b == 0 {
      Pow2Positive(w);
    } else {
      XorBound(a / 2, b / 2, w - 1);
    }
  }

  lemma {:induction false} AndBound(a: nat, b: nat)
    ensures AndNat(a, b) <= a
    decreases a + b
  {
    if a == 0 || b == 0 {
    } else {
      AndBound(a / 2, b / 2);
    }
  }

  lemma ParityCancels(a: nat, b: nat, h: nat, x: nat)
    requires x == 2 * h + (a + b) % 2
    ensures x / 2 == h && (x + b) % 2 == a % 2
  {
    assert (a + b) % 2 == (a % 2 + b % 2) % 2;
  }

  lemma {:induction false} XorNatCancels(a: nat, b: nat)
    ensures XorNat(XorNat(a, b), b) == a
    decreases a + b
  {
    if a == 0 && b == 0 {
    } else {
      XorNatCancels(a / 2, b / 2);
      var h, x := XorNat(a / 2, b / 2), XorNat(a, b);
      assert x == 2 * h + (a + b) % 2;
      ParityCancels(a, b, h, x);
      assert x != 0 || b != 0;
      assert XorNat(x, b) == 2 * XorNat(h, b / 2) + a % 2;
    }
  }

  function Pow2(w: nat): nat {
    if w == 0 then 1 else 2 * Pow2(w - 1)
  }

  lemma {:induction false} Pow2Positive(w: nat)
    ensures Pow2(w) > 0
  {
    if w > 0 {
      Pow2Positive(w - 1);
    }
  }

  lemma Pow2Of8()
    ensures Pow2(8) == 256
  {
    assert Pow2(4) == 16;
  }

  function Xor(a: byte, b: byte): byte {
    Pow2Of8();
    XorBound(a as nat, b as nat, 8);
    XorNat(a as nat, b as nat) as byte
  }

  /** Applying the same mask twice gives the byte back. */
  lemma XorCancels(a: byte, b: byte)
    ensures Xor(Xor(a, b), b) == a
  {
    XorNatCancels(a as nat, b as nat);
  }

  /** A byte combined with 0 stays, and with itself is 0. */
  lemma XorZero(b: byte)
    ensures Xor(0, b) == b && Xor(b, b) == 0
  {
    XorNatZero(b as nat);
    XorNatSelf(b as nat);
  }

  lemma {:induction false} XorNatZero(b: nat)
    ensures XorNat(0, b) == b
  {
    if b > 0 {
      XorNatZero(b / 2);
    }
  }

  lemma {:induction false} XorNatSelf(b: nat)
    ensures XorNat(b, b) == 0
  {
    if b > 0 {
      XorNatSelf(b / 2);
    }
  }

  function And(a: byte, b: byte): byte {
    AndBound(a as nat, b as nat);
    AndNat(a as nat, b as nat) as byte
  }

  /** Big-endian encodings of the low 16 and 24 bits of n, as Go's byte(n >> k) conversions give them. */
  function PutBE16(n: nat): (s: seq<byte>)
    ensures |s| == 2
  {
    [(n / 256 % 256) as byte, (n % 256) as byte]
  }

  function PutBE24(n: nat): (s: seq<byte>)
    ensures |s| == 3
  {
    [(n / 65536 % 256) as byte, (n / 256 % 256) as byte, (n % 256) as byte]
  }

  function BE16(s: seq<byte>, i: nat): uint16
    requires i + 2 <= |s|
  {
    s[i] as int * 256 + s[i + 1] as int
  }

  function BE24(s: seq<byte>, i: nat): (n: nat)
    requires i + 3 <= |s|
  {
    s[i] as int * 65536 + s[i + 1] as int * 256 + s[i + 2] as int
  }

  /** The big-endian reads undo the writes for every value that fits. */
  lemma BE16RoundTrip(n: nat)
    requires n < 0x1_0000
    ensures BE16(PutBE16(n), 0) == n
  {
  }

  lemma BE24RoundTrip(n: nat)
    requires n < 0x100_0000
    ensures BE24(PutBE24(n), 0) == n
  {
    var h := n / 256;
    assert h / 256 == n / 65536 && h < 0x1_0000;
    assert h / 256 * 256 + h % 256 == h;
  }

  function LE16(s: seq<byte>, i: nat): uint16
    requires i + 2 <= |s|
  {
    s[i] as int + 256 * s[i + 1] as int
  }

  function LE32(s: seq<byte>, i: nat): uint32
    requires i + 4 <= |s|
  {
    LE16(s, i) + 0x1_0000 * LE16(s, i + 2)
  }

  function LE64(s: seq<byte>, i: nat): uint64
    requires i + 8 <= |s|
  {
    LE32(s, i) + 0x1_0000_0000 * LE32(s, i + 4)
  }

  // ---- What the encodings say ---------------------------------------------------------------

  /** The number that bytes say, the most significant first. */
  function Number(s: seq<byte>): nat {
    if s == [] then 0 else 256 * Number(s[..|s| - 1]) + s[|s| - 1] as nat
  }

  /** The number that bytes say, the least significant first. */
  function LittleNumber(s: seq<byte>): nat {
    if s == [] then 0 else s[0] as nat + 256 * LittleNumber(s[1..])
  }

  lemma NumberOfTwo(a: byte, b: byte)
    ensures Number([a, b]) == 256 * a as nat + b as nat
  {
    assert [a, b][..1] == [a] && [a][..0] == [];
    assert Number([a]) == a as nat;
  }

  lemma {:induction false} NumberConcat(s: seq<byte>, a: byte, b: byte)
    ensures Number(s + [a, b]) == 0x1_0000 * Number(s) + Number([a, b])
  {
    var t := s + [a, b];
    assert t[..|t| - 1] == s + [a] && (s + [a])[..|s|] == s;
    NumberOfTwo(a, b);
  }

  lemma BE16SaysNumber(n: nat)
    ensures Number(PutBE16(n)) == n % 0x1_0000
  {
    var (a, b) := (n / 256 % 256, n % 256);
    NumberOfTwo(a as byte, b as byte);
    assert n == 256 * (n / 256) + b && n / 256 == 256 * (n / 256 / 256) + a;
  }

  lemma BE24SaysNumber(n: nat)
    requires n < 0x100_0000
    ensures Number(PutBE24(n)) == n
  {
    var s := PutBE24(n);
    assert s[..2] == [s[0], s[1]];
    NumberOfTwo(s[0], s[1]);
  }

  lemma LittleNumberOfTwo(a: byte, b: byte)
    ensures LittleNumber([a, b]) == a as nat + 256 * b as nat
  {
    assert [a, b][1..] == [b] && [b][1..] == [];
    assert LittleNumber([b]) == b as nat;
  }

  lemma LittleConcat(a: byte, b: byte, s: seq<byte>)
    ensures LittleNumber([a, b] + s) == LittleNumber([a, b]) + 0x1_0000 * LittleNumber(s)
  {
    var t := [a, b] + s;
    assert t[1..] == [b] + s && ([b] + s)[1..] == s;
    LittleNumberOfTwo(a, b);
  }

  lemma LESaysNumber(s: seq<byte>, i: nat)
    ensures i + 2 <= |s| ==> LE16(s, i) == LittleNumber(s[i..i + 2])
    ensures i + 4 <= |s| ==> LE32(s, i) == LittleNumber(s[i..i + 4])
    ensures i + 8 <= |s| ==> LE64(s, i) == LittleNumber(s[i..i + 8])
  {
    if i + 2 <= |s| {
      LE16SaysNumber(s, i);
    }
    if i + 4 <= |s| {
      LE32SaysNumber(s, i);
    }
    if i + 8 <= |s| {
      LE64SaysNumber(s, i);
    }
  }

  lemma LE16SaysNumber(s: seq<byte>, i: nat)
    requires i + 2 <= |s|
    ensures LE16(s, i) == LittleNumber(s[i..i + 2])
  {
    assert s[i..i + 2] == [s[i], s[i + 1]];
    LittleNumberOfTwo(s[i], s[i + 1]);
  }

  lemma LE32SaysNumber(s: seq<byte>, i: nat)
    requires i + 4 <= |s|
    ensures LE32(s, i) == LittleNumber(s[i..i + 4])
  {
    assert s[i..i + 4] == [s[i], s[i + 1]] + s[i + 2..i + 4];
    LittleConcat(s[i], s[i + 1], s[i + 2..i + 4]);
    LittleNumberOfTwo(s[i], s[i + 1]);
    LE16SaysNumber(s, i + 2);
  }

  lemma LE64SaysNumber(s: seq<byte>, i: nat)
    requires i + 8 <= |s|
    ensures LE64(s, i) == LittleNumber(s[i..i + 8])
  {
    var t := s[i + 2..i + 8];
    assert s[i..i + 8] == [s[i], s[i + 1]] + t && t == [s[i + 2], s[i + 3]] + s[i + 4..i + 8];
    LittleConcat(s[i], s[i + 1], t);
    LittleConcat(s[i + 2], s[i + 3], s[i + 4..i + 8]);
    LittleNumberOfTwo(s[i], s[i + 1]);
    LittleNumberOfTwo(s[i + 2], s[i + 3]);
    LE32SaysNumber(s, i + 4);
  }
}
