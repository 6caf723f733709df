/** Encrypted strings of the lobby's messages: the reader of pkg/lobby/message/message.go and the client's
    encoder of pkg/lobby/flow_test.go. Both loops run over all bytes but store byte j at j mod 256, the
    position in 8 bits, so strings of more than 256 bytes do not get through. */
module EncryptedStrings {
  import opened Wrappers
  import opened Bytes
  import MessageCodec

  // ---- The key ------------------------------------------------------------------------------

  const FIXVAL: seq<byte> := [21, 23, 10, 17, 23, 19, 6, 13]
  const MASKS: seq<byte> := [0x33, 0x30, 0x3c, 0x34, 0x2d, 0x30, 0x3c, 0x34]

  /** A position in 8 bits. */
  function Low8(j: nat): (i: nat)
    ensures i < 256 && i <= j && (j < 256 ==> i == j)
  {
    if j < 256 then j else Low8(j - 256)
  }

  lemma {:induction false} Low8IsMod(j: nat)
    ensures Low8(j) == j % 256
  {
    if j >= 256 {
      Low8IsMod(j - 256);
    }
  }

  /** The byte that position i is combined with: it depends on the message's number besides, and all of it
      is computed in 8 bits. */
  function Key(seqno: uint16, i: nat): byte {
    KeyOfBytes(seqno % 256, i % 256, i % 8)
  }

  function KeyOfBytes(p: nat, i: nat, k: nat): byte
    requires k < 8
  {
    Byte(FIXVAL[k] as int - (i - k) - p + And(Byte(p - 9 + i), MASKS[k]) as int * 2)
  }

  /** Go's conversion to byte. */
  function Byte(n: int): byte {
    (n % 256) as byte
  }

  function KeyOf(seqno: uint16): nat -> byte {
    (i: nat) => Key(seqno, i)
  }

  /** The key bytes of positions from .. to - 1; they come again after 256. */
  function KeyBytes(key: nat -> byte, from: nat, to: nat): (r: seq<byte>)
    requires from <= to
    ensures |r| == to - from && forall j :: 0 <= j < to - from ==> r[j] == key(Low8(from + j))
  {
    seq(to - from, j requires 0 <= j < to - from => key(Low8(from + j)))
  }

  /** Every byte combined with that of the key. */
  function Crypt(key: nat -> byte, s: seq<byte>): (r: seq<byte>)
    ensures |r| == |s| && forall j :: 0 <= j < |s| ==> r[j] == Xor(s[j], key(Low8(j)))
  {
    seq(|s|, j requires 0 <= j < |s| => Xor(s[j], key(Low8(j))))
  }

  lemma CryptTwice(key: nat -> byte, s: seq<byte>)
    ensures Crypt(key, Crypt(key, s)) == s
  {
    forall j | 0 <= j < |s| ensures Crypt(key, Crypt(key, s))[j] == s[j] {
      XorCancels(s[j], key(Low8(j)));
    }
  }

  // ---- Sums ---------------------------------------------------------------------------------

  /** The sum of the first n bytes in 16 bits. */
  function SumTo(s: seq<byte>, n: nat): uint16
    requires n <= |s|
  {
    if n == 0 then 0 else Plus16(SumTo(s, n - 1), s[n - 1] as int)
  }

  function Plus16(a: uint16, b: uint16): uint16 {
    if a + b < 0x1_0000 then a + b else a + b - 0x1_0000
  }

  function Checksum(s: seq<byte>): uint16 {
    SumTo(s, |s|)
  }

  function Sum(s: seq<byte>, n: nat): nat
    requires n <= |s|
  {
    if n == 0 then 0 else Sum(s, n - 1) + s[n - 1] as int
  }

  lemma {:induction false} ChecksumIsSum(s: seq<byte>, n: nat)
    requires n <= |s|
    ensures SumTo(s, n) == Sum(s, n) % 0x1_0000
  {
    if n > 0 {
      ChecksumIsSum(s, n - 1);
    }
  }

  lemma {:induction false} SumOfPrefix(a: seq<byte>, b: seq<byte>, n: nat)
    requires n <= |a|
    ensures SumTo(a + b, n) == SumTo(a, n)
  {
    if n > 0 {
      SumOfPrefix(a, b, n - 1);
    }
  }

  lemma {:induction false} SumBehind(a: seq<byte>, b: seq<byte>, n: nat)
    requires n <= |b|
    ensures SumTo(a + b, |a| + n) == Plus16(Checksum(a), SumTo(b, n))
  {
    if n == 0 {
      SumOfPrefix(a, b, |a|);
    } else {
      SumBehind(a, b, n - 1);
      assert (a + b)[|a| + n - 1] == b[n - 1];
    }
  }

  lemma ChecksumOfThree(a: seq<byte>, b: seq<byte>, c: seq<byte>)
    ensures Checksum(a + b + c) == Plus16(Plus16(Checksum(a), Checksum(b)), Checksum(c))
  {
    SumBehind(a + b, c, |c|);
    SumBehind(a, b, |b|);
  }

  lemma {:induction false} SumOfZeros(s: seq<byte>, n: nat)
    requires n <= |s| && forall j :: 0 <= j < |s| ==> s[j] == 0
    ensures SumTo(s, n) == 0
  {
    if n > 0 {
      SumOfZeros(s, n - 1);
    }
  }

  // ---- Where the loops store ----------------------------------------------------------------

  /** The last of the first n indices that is stored at i. */
  function Last(n: nat, i: nat): (j: nat)
    requires i < n && i < 256
    ensures j < n && Low8(j) == i && n <= j + 256
  {
    if Low8(n - 1) == i then n - 1 else Last(n - 1, i)
  }

  /** The first n - 256 positions are stored over. */
  lemma LastIs(n: nat, i: nat)
    requires i < n && i < 256
    ensures Last(n, i) >= 256 <==> i + 256 < n
    ensures i + 256 >= n ==> Last(n, i) == i
  {
  }

  /** What the reader's loop makes of the bytes it reads. */
  function Deciphered(key: nat -> byte, s: seq<byte>): (r: seq<byte>)
    ensures |r| == |s|
    ensures forall i :: 0 <= i < |s| ==> r[i] == if i < 256 then Xor(s[Last(|s|, i)], key(i)) else s[i]
  {
    seq(|s|, i requires 0 <= i < |s| => if i < 256 then Xor(s[Last(|s|, i)], key(i)) else s[i])
  }

  /** What the client's loop makes of a string. */
  function Enciphered(key: nat -> byte, s: seq<byte>): (r: seq<byte>)
    ensures |r| == |s|
    ensures forall i :: 0 <= i < |s| ==> r[i] == if i < 256 then Xor(s[Last(|s|, i)], key(i)) else 0
  {
    seq(|s|, i requires 0 <= i < |s| => if i < 256 then Xor(s[Last(|s|, i)], key(i)) else 0)
  }

  /** Up to 256 bytes both combine every byte with that of the key. */
  lemma ShortIsCrypt(key: nat -> byte, s: seq<byte>)
    requires |s| <= 256
    ensures Deciphered(key, s) == Enciphered(key, s) == Crypt(key, s)
  {
    forall i | 0 <= i < |s| ensures Last(|s|, i) == i {
      LastIs(|s|, i);
    }
  }

  /** A number in 16 bits. */
  function Low16(n: nat): uint16 {
    if n < 0x1_0000 then n else Low16(n - 0x1_0000)
  }

  lemma {:induction false} Low16IsMod(n: nat)
    ensures Low16(n) == n % 0x1_0000
  {
    if n >= 0x1_0000 {
      Low16IsMod(n - 0x1_0000);
    }
  }

  /** What the client sends for a string. */
  function Encrypted(key: nat -> byte, plain: seq<byte>): seq<byte> {
    PutBE16(Low16(|plain| + 2)) + PutBE16(Checksum(plain)) + Enciphered(key, plain)
  }

  method EncryptString(seqno: uint16, plain: seq<byte>) returns (data: seq<byte>)
    ensures data == Encrypted(KeyOf(seqno), plain)
  {
    var enc := new byte[|plain|](_ => 0);
    var sum := Encipher(KeyOf(seqno), plain, enc);
    Low16IsMod(enc.Length + 2);
    data := PutBE16((enc.Length + 2) % 0x1_0000) + PutBE16(sum);
    data := data + enc[..];
  }

  /** out after j bytes of s were stored into start. */
  predicate Stored(key: nat -> byte, s: seq<byte>, start: seq<byte>, j: nat, out: seq<byte>)
    requires j <= |s|
  {
    && |out| == |start| == |s|
    && forall i :: 0 <= i < |s| ==> out[i] == if i < j && i < 256 then Xor(s[Last(j, i)], key(i)) else start[i]
  }

  lemma StoreNext(key: nat -> byte, s: seq<byte>, start: seq<byte>, j: nat, out: seq<byte>)
    requires j < |s| && Stored(key, s, start, j, out)
    ensures Low8(j) < |s| && Stored(key, s, start, j + 1, out[Low8(j) := Xor(s[j], key(Low8(j)))])
  {
    forall i | 0 <= i < j + 1 && i < 256 ensures Last(j + 1, i) == if i == Low8(j) then j else Last(j, i) {
    }
  }

  /** The loop of the encoder. */
  method Encipher(key: nat -> byte, plain: seq<byte>, enc: array<byte>) returns (sum: uint16)
    requires enc.Length == |plain| && forall k :: 0 <= k < enc.Length ==> enc[k] == 0
    modifies enc
    ensures enc[..] == Enciphered(key, plain) && sum == Checksum(plain)
  {
    sum := 0;
    ghost var zeros := enc[..];
    for j := 0 to |plain|
      invariant Stored(key, plain, zeros, j, enc[..]) && sum == SumTo(plain, j)
    {
      StoreNext(key, plain, zeros, j, enc[..]);
      ghost var was := enc[..];
      var i := j % 256;
      Low8IsMod(j);
      enc[i] := Xor(plain[j], key(i));
      assert enc[..] == was[i := Xor(plain[j], key(i))];
      sum := Plus16(sum, plain[j] as int);
    }
  }

  /** The loop of the reader, in place; the sum is that of all bytes it computed, also of those stored over. */
  method DecryptInPlace(key: nat -> byte, buf: array<byte>) returns (sum: uint16)
    modifies buf
    ensures buf[..] == Deciphered(key, old(buf[..])) && sum == Checksum(Crypt(key, old(buf[..])))
  {
    sum := 0;
    ghost var enc, all := buf[..], Crypt(key, buf[..]);
    for j := 0 to buf.Length
      invariant |all| == |enc| == buf.Length
      invariant Stored(key, enc, enc, j, buf[..]) && sum == SumTo(all, j)
    {
      ReadNext(key, enc, j, buf[..]);
      ghost var was := buf[..];
      var i := j % 256;
      Low8IsMod(j);
      buf[i] := Xor(buf[j], key(i));
      assert buf[..] == was[i := all[j]];
      sum := Plus16(sum, buf[i] as int);
    }
  }

  lemma ReadNext(key: nat -> byte, enc: seq<byte>, j: nat, out: seq<byte>)
    requires j < |enc| && Stored(key, enc, enc, j, out)
    ensures Low8(j) < |enc| && Xor(out[j], key(Low8(j))) == Crypt(key, enc)[j]
    ensures Stored(key, enc, enc, j + 1, out[Low8(j) := Crypt(key, enc)[j]])
  {
    StoreNext(key, enc, enc, j, out);
    assert out[j] == enc[j];
  }

  /** A number of two bytes, 0 if they are not all there, and what is left. */
  function Take16(data: seq<byte>): (uint16, seq<byte>) {
    if |data| < 2 then (0, []) else (BE16(data, 0), data[2..])
  }

  /** The bytes of an encrypted string, None where the reader returns "", and what it leaves unread. */
  function Decrypted(key: nat -> byte, data: seq<byte>): (Option<seq<byte>>, seq<byte>) {
    if data == [] then (None, [])
    else
      var (size, rest) := Take16(data);
      if size <= 2 then (None, rest)
      else
        var (chksum, enc) := Take16(rest);
        if |enc| < size - 2 then (None, [])
        else (Opened(key, chksum, enc[..size - 2]), enc[size - 2..])
  }

  /** The bytes, if their checksum is right. */
  function Opened(key: nat -> byte, chksum: uint16, enc: seq<byte>): Option<seq<byte>> {
    if Checksum(Crypt(key, enc)) == chksum then Some(Deciphered(key, enc)) else None
  }

  class MessageBodyReader {
    const seqno: uint16
    var data: seq<byte>

    constructor (m: MessageCodec.Message)
      ensures seqno == m.seqno && data == m.body
    {
      seqno, data := m.seqno, m.body;
    }

    method Read16() returns (n: uint16)
      modifies this
      ensures (n, data) == Take16(old(data))
    {
      if |data| < 2 {
        data := [];
        return 0;
      }
      n := BE16(data, 0);
      data := data[2..];
    }

    /** What the string is decoded from. */
    method ReadEncryptedString() returns (r: Option<seq<byte>>)
      modifies this
      ensures (r, data) == Decrypted(KeyOf(seqno), old(data))
    {
      if |data| == 0 {
        return None;
      }
      var size := Read16();
      if size <= 2 {
        return None;
      }
      var buf := new byte[size - 2];
      var chksum := Read16();
      var n := if |data| < size - 2 then |data| else size - 2;
      ghost var enc := data;
      for k := 0 to n
        invariant data == enc && forall i :: 0 <= i < k ==> buf[i] == enc[i]
      {
        buf[k] := data[k];
      }
      data := data[n..];
      if n != size - 2 {
        return None;
      }
      assert buf[..] == enc[..size - 2];
      var sum := DecryptInPlace(KeyOf(seqno), buf);
      if sum != chksum {
        return None;
      }
      return Some(buf[..]);
    }
  }

  // ---- What gets through --------------------------------------------------------------------

  function StoredOver(n: nat): nat
    requires n > 256
  {
    if n < 512 then n - 256 else 256
  }

  /** The strings both loops keep: those of up to 256 bytes, and longer ones that end in zeros from byte 256,
      begin with the key as far as it is stored over, and repeat key bytes of the right sum. */
  predicate Kept(key: nat -> byte, s: seq<byte>) {
    |s| > 256 ==> Settled(key, s) && SumsAgree(key, |s|)
  }

  predicate Settled(key: nat -> byte, s: seq<byte>)
    requires |s| > 256
  {
    && (forall k :: 256 <= k < |s| ==> s[k] == 0)
    && (forall i :: 0 <= i < StoredOver(|s|) ==> s[i] == key(i))
  }

  predicate SumsAgree(key: nat -> byte, n: nat)
    requires n > 256
  {
    Checksum(KeyBytes(key, 256, n)) == Checksum(KeyBytes(key, 0, StoredOver(n)))
  }

  /** Enciphering and deciphering gives the string back if and only if it is settled. */
  lemma LongComesBack(key: nat -> byte, s: seq<byte>)
    requires |s| > 256
    ensures Deciphered(key, Enciphered(key, s)) == s <==> Settled(key, s)
  {
    var (n, m) := (|s|, StoredOver(|s|));
    var enc := Enciphered(key, s);
    var back := Deciphered(key, enc);
    forall i | 0 <= i < n
      ensures back[i] == if i < m then key(i) else if i < 256 then s[i] else 0
    {
      BackAt(key, s, i);
    }
    if Settled(key, s) {
      assert back == s;
    }
  }

  lemma BackAt(key: nat -> byte, s: seq<byte>, i: nat)
    requires i < |s| && |s| > 256
    ensures Deciphered(key, Enciphered(key, s))[i] ==
            if i < StoredOver(|s|) then key(i) else if i < 256 then s[i] else 0
  {
    if i < 256 {
      LastIs(|s|, i);
      XorZero(key(i));
      XorCancels(s[i], key(i));
    }
  }

  /** Deciphering and enciphering gives the bytes back under the same condition. */
  lemma LongGoesBack(key: nat -> byte, enc: seq<byte>)
    requires |enc| > 256
    ensures Enciphered(key, Deciphered(key, enc)) == enc <==> Settled(key, enc)
    ensures Settled(key, enc) ==> Settled(key, Deciphered(key, enc))
  {
    var (n, m) := (|enc|, StoredOver(|enc|));
    var plain := Deciphered(key, enc);
    var again := Enciphered(key, plain);
    forall i | 0 <= i < n
      ensures again[i] == if i >= 256 then 0 else if i < m then Xor(enc[Last(n, i)], key(i)) else enc[i]
      ensures i < m ==> plain[i] == Xor(enc[Last(n, i)], key(i)) && Last(n, i) >= 256
    {
      if i < 256 {
        LastIs(n, i);
        XorCancels(enc[i], key(i));
      }
    }
    forall i | 0 <= i < m ensures Xor(0, key(i)) == key(i) {
      XorZero(key(i));
    }
    if again == enc {
      forall i | 0 <= i < m ensures enc[i] == key(i) {
        assert enc[Last(n, i)] == again[Last(n, i)] == 0;
      }
    }
    if Settled(key, enc) {
      assert again == enc;
    }
  }

  /** For a string that comes back, the reader's sum is the client's if and only if the key bytes agree. */
  lemma SumsOfSettled(key: nat -> byte, s: seq<byte>)
    requires |s| > 256 && Settled(key, s)
    ensures Checksum(Crypt(key, Enciphered(key, s))) == Checksum(s) <==> SumsAgree(key, |s|)
  {
    var (n, m) := (|s|, StoredOver(|s|));
    var (head, mid, tail) := (KeyBytes(key, 0, m), s[m..256], KeyBytes(key, 256, n));
    var (zeros, ends) := (seq(m, _ => 0 as byte), s[256..]);
    assert s == head + mid + ends;
    CryptOfSettled(key, s, zeros);
    SameChecksums(head, zeros, mid, ends, tail);
  }

  lemma SameChecksums(head: seq<byte>, zeros: seq<byte>, mid: seq<byte>, ends: seq<byte>, tail: seq<byte>)
    requires forall j :: 0 <= j < |zeros| ==> zeros[j] == 0
    requires forall j :: 0 <= j < |ends| ==> ends[j] == 0
    ensures Checksum(zeros + mid + tail) == Checksum(head + mid + ends) <==> Checksum(tail) == Checksum(head)
  {
    ChecksumOfThree(head, mid, ends);
    ChecksumOfThree(zeros, mid, tail);
    SumOfZeros(zeros, |zeros|);
    SumOfZeros(ends, |ends|);
  }

  lemma CryptOfSettled(key: nat -> byte, s: seq<byte>, zeros: seq<byte>)
    requires |s| > 256 && Settled(key, s)
    requires |zeros| == StoredOver(|s|) && forall i :: 0 <= i < |zeros| ==> zeros[i] == 0
    ensures Crypt(key, Enciphered(key, s)) == zeros + s[|zeros|..256] + KeyBytes(key, 256, |s|)
  {
    var all := Crypt(key, Enciphered(key, s));
    forall i | 0 <= i < |s|
      ensures all[i] == if i < |zeros| then 0 else if i < 256 then s[i] else key(Low8(i))
    {
      CryptAt(key, s, i);
    }
    assert forall j :: 0 <= j < |s| - 256 ==> KeyBytes(key, 256, |s|)[j] == key(Low8(256 + j));
  }

  lemma CryptAt(key: nat -> byte, s: seq<byte>, i: nat)
    requires i < |s| && |s| > 256 && Settled(key, s)
    ensures Crypt(key, Enciphered(key, s))[i] ==
            if i < StoredOver(|s|) then 0 else if i < 256 then s[i] else key(Low8(i))
  {
    XorZero(key(Low8(i)));
    if i < 256 {
      LastIs(|s|, i);
      XorCancels(s[i], key(i));
    }
  }

  lemma OpenedBack(key: nat -> byte, plain: seq<byte>)
    ensures Opened(key, Checksum(plain), Enciphered(key, plain)) == Some(plain) <==> Kept(key, plain)
  {
    if |plain| <= 256 {
      ShortIsCrypt(key, plain);
      ShortIsCrypt(key, Crypt(key, plain));
      CryptTwice(key, plain);
    } else {
      LongComesBack(key, plain);
      if Settled(key, plain) {
        SumsOfSettled(key, plain);
      }
    }
  }

  lemma OpenedWasEnciphered(key: nat -> byte, chksum: uint16, enc: seq<byte>)
    requires Opened(key, chksum, enc).Some?
    ensures var plain := Opened(key, chksum, enc).value;
            Enciphered(key, plain) == enc && Checksum(plain) == chksum <==> Kept(key, enc)
  {
    var plain := Opened(key, chksum, enc).value;
    if |enc| <= 256 {
      ShortIsCrypt(key, enc);
      ShortIsCrypt(key, plain);
      CryptTwice(key, enc);
    } else {
      LongGoesBack(key, enc);
      if Settled(key, enc) {
        SumsOfSettled(key, plain);
      }
    }
  }

  /** The reader gives back what the client enciphers if and only if it has 1 to 65533 bytes and is kept; so
      every string of 1 to 256 bytes comes back. */
  lemma StringRoundTrip(key: nat -> byte, plain: seq<byte>, rest: seq<byte>)
    ensures Decrypted(key, Encrypted(key, plain) + rest) == (Some(plain), rest) <==>
            1 <= |plain| <= 65533 && Kept(key, plain)
  {
    var size := Low16(|plain| + 2);
    var enc := Enciphered(key, plain) + rest;
    EncryptedParts(key, plain, rest);
    OpenedBack(key, plain);
    if 1 <= |plain| <= 65533 {
      assert size == |plain| + 2;
      assert enc[..size - 2] == Enciphered(key, plain) && enc[size - 2..] == rest;
    } else if size > 2 && |enc| >= size - 2 {
      assert |Deciphered(key, enc[..size - 2])| != |plain|;
    }
  }

  lemma EncryptedParts(key: nat -> byte, plain: seq<byte>, rest: seq<byte>)
    ensures var (data, size) := (Encrypted(key, plain) + rest, Low16(|plain| + 2));
            var (sum, enc) := (PutBE16(Checksum(plain)), Enciphered(key, plain) + rest);
            data != [] && Take16(data) == (size, sum + enc) && Take16(sum + enc) == (Checksum(plain), enc)
  {
    var (size, sum, enc) := (PutBE16(Low16(|plain| + 2)), PutBE16(Checksum(plain)), Enciphered(key, plain));
    Regroup(size, sum, enc, rest);
    Take16Put(Low16(|plain| + 2), sum + (enc + rest));
    Take16Put(Checksum(plain), enc + rest);
  }

  lemma Regroup(a: seq<byte>, b: seq<byte>, c: seq<byte>, d: seq<byte>)
    ensures a + b + c + d == a + (b + (c + d))
  {
  }

  lemma Take16Put(n: uint16, after: seq<byte>)
    ensures Take16(PutBE16(n) + after) == (n, after)
  {
    BE16RoundTrip(n);
    assert (PutBE16(n) + after)[2..] == after;
  }

  /** The client's encoding of "A" in message number 1, and that it is read. */
  lemma LetterA()
    ensures Encrypted(KeyOf(1), [65]) == [0, 3, 0, 65, 53]
    ensures Decrypted(KeyOf(1), [0, 3, 0, 65, 53]) == (Some([65]), [])
  {
    KeyOfA();
    var (key, a, sent) := (KeyOf(1), [65], Encrypted(KeyOf(1), [65]));
    ShortIsCrypt(key, a);
    OneByte(a);
    assert sent == [0, 3, 0, 65, 53];
    StringRoundTrip(key, a, []);
    assert sent + [] == sent;
  }

  lemma OneByte(s: seq<byte>)
    requires s == [65]
    ensures Checksum(s) == 65 && Low16(|s| + 2) == 3
    ensures PutBE16(3) == [0, 3] && PutBE16(65) == [0, 65]
  {
    assert SumTo(s, 0) == 0 && SumTo(s, 1) == 65;
  }

  lemma KeyOfA()
    ensures Key(1, 0) == 116 && Xor(65, 116) == 53
  {
    MaskedForA();
    KeyAt(1, 0, 248, 51);
    XorOfA();
    XorIs(65, 116, 53);
  }

  lemma KeyAt(seqno: uint16, i: nat, a: byte, mask: byte)
    requires seqno == 1 && i == 0 && a == 248 && mask == 51 && AndNat(a as nat, mask as nat) == 48
    ensures Key(seqno, i) == 116
  {
    AndIs(a, mask, 48);
    BytesForA();
    assert KeyOfBytes(1, 0, 0) == Byte(21 - 0 - 1 + 48 * 2);
    assert seqno % 256 == 1 && i % 256 == 0 && i % 8 == 0;
  }

  lemma BytesForA()
    ensures Byte(1 - 9 + 0) == 248 && Byte(21 - 0 - 1 + 48 * 2) == 116
  {
  }

  lemma AndIs(a: byte, b: byte, x: byte)
    requires AndNat(a as nat, b as nat) == x as nat
    ensures And(a, b) == x
  {
  }

  lemma XorIs(a: byte, b: byte, x: byte)
    requires XorNat(a as nat, b as nat) == x as nat
    ensures Xor(a, b) == x
  {
  }

  lemma MaskedForA()
    ensures AndNat(248, 51) == 48
  {
    assert AndNat(7, 1) == 1;
    assert AndNat(31, 6) == 6;
    assert AndNat(124, 25) == 24;
  }

  lemma XorOfA()
    ensures XorNat(65, 116) == 53
  {
    assert XorNat(4, 7) == 3;
    assert XorNat(16, 29) == 13;
  }

  /** An empty string leaves its checksum unread. */
  lemma EmptyString(key: nat -> byte, rest: seq<byte>)
    ensures Decrypted(key, Encrypted(key, []) + rest) == (None, [0, 0] + rest)
  {
    EncryptedParts(key, [], rest);
    assert PutBE16(Checksum([])) == [0, 0];
    assert Enciphered(key, []) + rest == rest;
  }

  /** The shortest strings that are lost have 257 bytes, as this one with any key. */
  lemma LongStringIsLost(key: nat -> byte, rest: seq<byte>)
    ensures Decrypted(key, Encrypted(key, Repeated(1)) + rest) != (Some(Repeated(1)), rest)
  {
    assert Repeated(1)[256] == 1;
    StringRoundTrip(key, Repeated(1), rest);
  }

  /** What the reader accepts is what the client sends for the result if and only if the bytes are kept;
      so it is for every string of up to 256 bytes. */
  lemma DecryptedWasEncrypted(key: nat -> byte, data: seq<byte>, plain: seq<byte>, rest: seq<byte>)
    requires Decrypted(key, data) == (Some(plain), rest)
    ensures |data| >= 4 + |plain|
    ensures data == Encrypted(key, plain) + rest <==> Kept(key, data[4..4 + |plain|])
  {
    var chksum, enc := DecryptedParts(key, data, plain, rest);
    OpenedWasEnciphered(key, chksum, enc);
    EncryptedIs(key, plain);
    SameParts(|plain| + 2, Checksum(plain), Enciphered(key, plain), chksum, enc, rest);
  }

  lemma DecryptedParts(key: nat -> byte, data: seq<byte>, plain: seq<byte>, rest: seq<byte>)
    returns (chksum: uint16, enc: seq<byte>)
    requires Decrypted(key, data) == (Some(plain), rest)
    ensures |plain| <= 65533 && |data| >= 4 + |plain| && enc == data[4..4 + |plain|]
    ensures Opened(key, chksum, enc) == Some(plain)
    ensures data == PutBE16(|plain| + 2) + PutBE16(chksum) + enc + rest
  {
    var (size, after) := Take16(data);
    var more := Take16(after).1;
    chksum := Take16(after).0;
    enc := more[..size - 2];
    assert |plain| == |enc| == size - 2;
    assert more == data[4..] && enc == data[4..4 + |plain|];
    PutBE16Back(data);
    PutBE16Back(after);
    assert more == enc + rest;
    Regroup(PutBE16(size), PutBE16(chksum), enc, rest);
  }

  lemma EncryptedIs(key: nat -> byte, plain: seq<byte>)
    requires |plain| <= 65533
    ensures Encrypted(key, plain) == PutBE16(|plain| + 2) + PutBE16(Checksum(plain)) + Enciphered(key, plain)
  {
  }

  lemma SameParts(size: uint16, sum: uint16, enc: seq<byte>, sum1: uint16, enc1: seq<byte>, rest: seq<byte>)
    requires |enc| == |enc1|
    ensures PutBE16(size) + PutBE16(sum) + enc + rest == PutBE16(size) + PutBE16(sum1) + enc1 + rest <==>
            sum == sum1 && enc == enc1
  {
    var (a, b) := (PutBE16(size) + PutBE16(sum) + enc + rest, PutBE16(size) + PutBE16(sum1) + enc1 + rest);
    BE16RoundTrip(sum);
    BE16RoundTrip(sum1);
    assert a[2..4] == PutBE16(sum) && a[4..4 + |enc|] == enc;
    assert b[2..4] == PutBE16(sum1) && b[4..4 + |enc|] == enc1;
  }

  lemma PutBE16Back(data: seq<byte>)
    requires |data| >= 2
    ensures data == PutBE16(BE16(data, 0)) + data[2..]
  {
    var n := BE16(data, 0);
    assert n / 256 == data[0] as int && n % 256 == data[1] as int;
  }

  /** The reader accepts bytes no client sends: a byte other than the first of the key, 257 times, every one
      combined with its byte of the key. */
  lemma AcceptedWithoutClient(key: nat -> byte, b: byte)
    requires b != key(0)
    ensures var data := PutBE16(259) + PutBE16(Checksum(Repeated(b))) + Crypt(key, Repeated(b));
            && Decrypted(key, data).0.Some?
            && forall plain :: data != Encrypted(key, plain)
  {
    var enc := Crypt(key, Repeated(b));
    var data := PutBE16(259) + PutBE16(Checksum(Repeated(b))) + enc;
    assert data == PutBE16(259) + (PutBE16(Checksum(Repeated(b))) + enc);
    Take16Put(259, PutBE16(Checksum(Repeated(b))) + enc);
    Take16Put(Checksum(Repeated(b)), enc);
    assert enc[..257] == enc;
    CryptTwice(key, Repeated(b));
    assert data[260] != 0 by {
      assert data[260] == enc[256] == Xor(b, key(Low8(256)));
      XorCancels(b, key(0));
      XorZero(key(0));
    }
    forall plain ensures data != Encrypted(key, plain) {
      SentAt260(key, plain);
    }
  }

  function Repeated(b: byte): (s: seq<byte>)
    ensures |s| == 257 && forall i :: 0 <= i < 257 ==> s[i] == b
  {
    seq(257, _ => b)
  }

  lemma SentAt260(key: nat -> byte, plain: seq<byte>)
    ensures |Encrypted(key, plain)| == 261 ==> Encrypted(key, plain)[260] == 0
  {
    if |plain| == 257 {
      assert Encrypted(key, plain)[260] == Enciphered(key, plain)[256];
    }
  }
}
