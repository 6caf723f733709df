/** The key of encrypted strings as pkg/lobby/message/message.go computes it: with Go's operators on bytes,
    which are those of 8-bit vectors. */
module KeyInBits {
  import opened Bytes
  import opened EncryptedStrings

  function Plus(x: bv8, y: bv8): bv8 {
    x + y
  }

  function Minus(x: bv8, y: bv8): bv8 {
    x - y
  }

  function Times(x: bv8, y: bv8): bv8 {
    x * y
  }

  function Masked(x: bv8, y: bv8): bv8 {
    x & y
  }

  /** i & 7 as an index. */
  function Index(i: bv8): (k: nat)
    ensures k < 8
  {
    var x := i & 7;
    if x == 0 then 0 else if x == 1 then 1 else if x == 2 then 2 else if x == 3 then 3
    else if x == 4 then 4 else if x == 5 then 5 else if x == 6 then 6 else 7
  }

  const TABLE: seq<bv8> := [21, 23, 10, 17, 23, 19, 6, 13]
  const MASK: seq<bv8> := [0x33, 0x30, 0x3c, 0x34, 0x2d, 0x30, 0x3c, 0x34]

  /** The expression of both loops, operator by operator. */
  function SourceKey(p: bv8, i: bv8): bv8 {
    Plus(Minus(Minus(TABLE[Index(i)], Masked(i, 0xf8)), p), Times(Masked(Plus(Minus(p, 9), i), MASK[Index(i)]), 2))
  }

  // ---- Numbers in 8 bits --------------------------------------------------------------------

  /** n in 8 bits, as Go's conversion to byte. */
  function Bits(n: int): bv8 {
    Counted(n % 256)
  }

  function Counted(n: nat): bv8 {
    if n == 0 then 0 else Counted(n - 1) + 1
  }

  lemma {:induction false} CountedSum(a: nat, b: nat)
    ensures Counted(a + b) == Counted(a) + Counted(b)
  {
    if b > 0 {
      CountedSum(a, b - 1);
    }
  }

  lemma CountedTo256()
    ensures Counted(256) == 0
  {
    assert Counted(4) == 4;
    CountedSum(4, 4);
    CountedSum(8, 8);
    CountedSum(16, 16);
    CountedSum(32, 32);
    CountedSum(64, 64);
    CountedSum(128, 128);
  }

  lemma {:induction false} BitsAreCounted(n: nat)
    ensures Bits(n) == Counted(n)
  {
    if n >= 256 {
      BitsAreCounted(n - 256);
      CountedSum(n - 256, 256);
      CountedTo256();
    }
  }

  lemma SumLow(a: int, b: int)
    ensures (a % 256 + b % 256) % 256 == (a + b) % 256
  {
  }

  lemma PlusBits(a: int, b: int)
    ensures Plus(Bits(a), Bits(b)) == Bits(a + b)
  {
    CountedSum(a % 256, b % 256);
    BitsAreCounted(a % 256 + b % 256);
    SumLow(a, b);
  }

  lemma MinusBits(a: int, b: int)
    ensures Minus(Bits(a), Bits(b)) == Bits(a - b)
  {
    PlusBits(a - b, b);
    MinusUndoes(Bits(a - b), Bits(b));
  }

  lemma MinusUndoes(x: bv8, y: bv8)
    ensures Minus(Plus(x, y), y) == x
  {
  }

  lemma TwiceBits(a: int)
    ensures Times(Bits(a), 2) == Bits(a * 2)
  {
    PlusBits(a, a);
    Twice(Bits(a));
  }

  lemma Twice(x: bv8)
    ensures Times(x, 2) == Plus(x, x)
  {
  }

  lemma ShiftedAnd(x: bv8, y: bv8, a: bv8, b: bv8)
    requires a <= 1 && b <= 1
    ensures (x + x + a) & (y + y + b) == (x & y) + (x & y) + (a & b)
  {
  }

  lemma Halved(a: nat)
    ensures Counted(a) == Counted(a / 2) + Counted(a / 2) + Counted(a % 2)
    ensures Counted(a % 2) == if a % 2 == 0 then 0 else 1
  {
    assert a == (a / 2 + a / 2) + a % 2;
    CountedSum(a / 2, a / 2);
    CountedSum(a / 2 + a / 2, a % 2);
    assert Counted(1) == Counted(0) + 1;
  }

  lemma {:induction false} CountedAnd(a: nat, b: nat)
    ensures Counted(AndNat(a, b)) == Counted(a) & Counted(b)
    decreases a
  {
    if a == 0 || b == 0 {
      ZeroAnd(Counted(a), Counted(b));
    } else {
      CountedAnd(a / 2, b / 2);
      Halved(a);
      Halved(b);
      ShiftedAnd(Counted(a / 2), Counted(b / 2), Counted(a % 2), Counted(b % 2));
      var h := AndNat(a / 2, b / 2);
      LowAnd(a, b);
      assert AndNat(a, b) == (h + h) + (a % 2) * (b % 2);
      CountedSum(h, h);
      CountedSum(h + h, (a % 2) * (b % 2));
    }
  }

  lemma ZeroAnd(x: bv8, y: bv8)
    requires x == 0 || y == 0
    ensures x & y == 0
  {
  }

  lemma LowAnd(a: nat, b: nat)
    ensures Counted((a % 2) * (b % 2)) == Counted(a % 2) & Counted(b % 2)
  {
    assert Counted(1) == Counted(0) + 1;
    assert a % 2 == 0 || a % 2 == 1;
    assert b % 2 == 0 || b % 2 == 1;
  }

  lemma MaskedBits(a: int, b: nat, masked: nat)
    requires b < 256 && masked == AndNat(a % 256, b)
    ensures Masked(Bits(a), Bits(b)) == Bits(masked)
  {
    CountedAnd(a % 256, b);
    BitsAreCounted(b);
    BitsAreCounted(masked);
  }

  /** Counted, digit by digit. */
  function Halving(n: nat): bv8 {
    if n == 0 then 0 else Halving(n / 2) + Halving(n / 2) + if n % 2 == 0 then 0 else 1
  }

  lemma {:induction false} CountedIsHalving(n: nat)
    ensures Counted(n) == Halving(n)
  {
    if n > 0 {
      CountedIsHalving(n / 2);
      Halved(n);
    }
  }

  // ---- The low three bits -------------------------------------------------------------------

  lemma {:induction false} LowThree(n: nat)
    ensures Counted(n) & 7 == Counted(n % 8)
  {
    if n >= 8 {
      LowThree(n - 8);
      CountedSum(n - 8, 8);
      CountedIsHalving(8);
      PlusEight(Counted(n - 8));
    } else {
      Small(n);
      SmallBits(Counted(n));
    }
  }

  lemma Small(n: nat)
    requires n < 8
    ensures Counted(n) < 8
  {
    CountedIsHalving(n);
  }

  lemma SmallBits(x: bv8)
    requires x < 8
    ensures x & 7 == x
  {
  }

  lemma PlusEight(x: bv8)
    ensures (x + 8) & 7 == x & 7
  {
  }

  lemma IndexOf(i: nat)
    requires i < 256
    ensures Index(Bits(i)) == i % 8
  {
    LowThree(i);
    Literals();
    IndexIs(Bits(i), i % 8);
  }

  lemma HighBits(i: nat)
    requires i < 256
    ensures Masked(Bits(i), 0xf8) == Bits(i - i % 8)
  {
    LowThree(i);
    HighFive(Bits(i));
    MinusBits(i, i % 8);
  }

  lemma IndexIs(x: bv8, k: nat)
    requires (k == 0 && x & 7 == 0) || (k == 1 && x & 7 == 1) || (k == 2 && x & 7 == 2) || (k == 3 && x & 7 == 3)
             || (k == 4 && x & 7 == 4) || (k == 5 && x & 7 == 5) || (k == 6 && x & 7 == 6) || (k == 7 && x & 7 == 7)
    ensures Index(x) == k
  {
  }

  lemma HighFive(x: bv8)
    ensures Masked(x, 0xf8) == Minus(x, Masked(x, 7))
  {
  }

  // ---- The key ------------------------------------------------------------------------------

  /** Bytes in 8 bits are themselves. */
  lemma Literals()
    ensures Bits(0) == 0 && Bits(1) == 1 && Bits(2) == 2 && Bits(3) == 3
    ensures Bits(4) == 4 && Bits(5) == 5 && Bits(6) == 6 && Bits(7) == 7 && Bits(9) == 9
  {
    assert Counted(1) == 1 && Counted(2) == 2 && Counted(3) == 3;
    CountedSum(2, 2);
    CountedSum(3, 2);
    CountedSum(3, 3);
    CountedSum(6, 1);
    CountedSum(6, 3);
  }

  lemma FixvalLiterals()
    ensures Bits(21) == 21 && Bits(23) == 23 && Bits(10) == 10 && Bits(17) == 17
    ensures Bits(19) == 19 && Bits(6) == 6 && Bits(13) == 13
  {
    Literals();
    CountedSum(5, 5);
    CountedSum(10, 7);
    CountedSum(10, 3);
    CountedSum(13, 6);
    CountedSum(17, 4);
    CountedSum(17, 6);
  }

  lemma MasksLiterals()
    ensures Bits(0x33) == 0x33 && Bits(0x30) == 0x30 && Bits(0x3c) == 0x3c && Bits(0x34) == 0x34 && Bits(0x2d) == 0x2d
  {
    Literals();
    CountedSum(6, 6);
    CountedSum(12, 12);
    CountedSum(24, 24);
    CountedSum(48, 3);
    CountedSum(48, 4);
    CountedSum(48, 12);
    CountedSum(24, 12);
    CountedSum(36, 9);
  }

  lemma FixvalAgrees(k: nat)
    requires k < 8
    ensures TABLE[k] == Bits(FIXVAL[k] as int)
  {
    FixvalLiterals();
  }

  lemma MasksAgree(k: nat)
    requires k < 8
    ensures MASK[k] == Bits(MASKS[k] as int)
  {
    MasksLiterals();
  }

  /** For every number and position the key is the source's expression. */
  lemma KeyIsTheSources(seqno: uint16, j: nat)
    ensures Bits(Key(seqno, j) as int) == SourceKey(Bits(seqno), Bits(j))
  {
    LowBits(seqno);
    LowBits(j);
    var masked, key := KeyParts(seqno, j);
    KeyOfParts(seqno % 256, j % 256, masked, key);
    LowBits(key);
  }

  lemma LowBits(n: int)
    ensures Bits(n % 256) == Bits(n)
  {
  }

  lemma KeyParts(seqno: uint16, j: nat) returns (masked: nat, key: int)
    ensures masked == MaskedKey(seqno % 256, j % 256) && key == WholeKey(seqno % 256, j % 256, masked)
    ensures Key(seqno, j) as int == key % 256
  {
    masked := MaskedKey(seqno % 256, j % 256);
    key := WholeKey(seqno % 256, j % 256, masked);
    LowThreeOfByte(j);
    KeyOfBytesIs(seqno % 256, j % 256, j % 8, AndNat((seqno % 256 - 9 + j % 256) % 256, MASKS[j % 8] as nat));
  }

  lemma LowThreeOfByte(j: nat)
    ensures j % 256 % 8 == j % 8
  {
  }

  lemma KeyOfBytesIs(p: nat, i: nat, k: nat, masked: nat)
    requires k < 8 && masked == AndNat((p - 9 + i) % 256, MASKS[k] as nat)
    ensures KeyOfBytes(p, i, k) as int == (FIXVAL[k] as int - (i - k) - p + masked * 2) % 256
  {
  }

  function MaskedKey(p: int, i: nat): nat {
    AndNat((p - 9 + i) % 256, MASKS[i % 8] as int)
  }

  function WholeKey(p: int, i: nat, masked: nat): int {
    FIXVAL[i % 8] as int - (i - i % 8) - p + masked * 2
  }

  lemma KeyOfParts(p: nat, i: nat, masked: nat, key: int)
    requires p < 256 && i < 256 && masked == MaskedKey(p, i) && key == WholeKey(p, i, masked)
    ensures SourceKey(Bits(p), Bits(i)) == Bits(key)
  {
    var (k, h, sum) := (i % 8, i - i % 8, p - 9 + i);
    var left := FIXVAL[k] as int - h - p;
    IndexOf(i);
    HighBits(i);
    FixvalAgrees(k);
    MasksAgree(k);
    Evaluated(p, i, k, h, FIXVAL[k] as int, MASKS[k] as int, left, sum, masked, key);
  }

  lemma Evaluated(p: nat, i: nat, k: nat, h: nat, f: int, m: nat, left: int, sum: int, masked: nat, key: int)
    requires k < 8 && Index(Bits(i)) == k && Masked(Bits(i), 0xf8) == Bits(h)
    requires TABLE[k] == Bits(f) && MASK[k] == Bits(m) && m < 256
    requires left == f - h - p && sum == p - 9 + i && masked == AndNat(sum % 256, m) && key == left + masked * 2
    ensures SourceKey(Bits(p), Bits(i)) == Bits(key)
  {
    Shifted(p, i, sum);
    MaskedBits(sum, m, masked);
    Differences(f, h, p, left);
    TwiceBits(masked);
    PlusIs(left, masked * 2, key);
    Composed(Bits(p), Bits(i), TABLE[k], Bits(h), MASK[k], Bits(left), Bits(sum), Bits(masked), Bits(masked * 2),
             Bits(key));
  }

  lemma PlusIs(a: int, b: int, c: int)
    requires c == a + b
    ensures Plus(Bits(a), Bits(b)) == Bits(c)
  {
    PlusBits(a, b);
  }

  /** The expression, operator by operator. */
  lemma Composed(p: bv8, i: bv8, f: bv8, h: bv8, m: bv8, left: bv8, sum: bv8, masked: bv8, twice: bv8, key: bv8)
    requires TABLE[Index(i)] == f && Masked(i, 0xf8) == h && MASK[Index(i)] == m
    requires Minus(Minus(f, h), p) == left && Plus(Minus(p, 9), i) == sum && Masked(sum, m) == masked
    requires Times(masked, 2) == twice && Plus(left, twice) == key
    ensures SourceKey(p, i) == key
  {
  }

  lemma Shifted(p: int, i: int, sum: int)
    requires sum == p - 9 + i
    ensures Plus(Minus(Bits(p), 9), Bits(i)) == Bits(sum)
  {
    Literals();
    MinusBits(p, 9);
    PlusIs(p - 9, i, sum);
  }

  lemma Differences(f: int, h: int, p: int, left: int)
    requires left == f - h - p
    ensures Minus(Minus(Bits(f), Bits(h)), Bits(p)) == Bits(left)
  {
    MinusBits(f, h);
    MinusBits(f - h, p);
  }
}
