/** The cryptographic functions pkg/dnas uses, taken as parameters, and the TLS 1.0 pseudo-random
    function built from them (section 5 of RFC 2246). */
module TlsPrf {
  import opened Wrappers
  import opened Bytes

  datatype Hash = MD5 | SHA1

  /** Decryption may fail, as with a ciphertext of the wrong length; or succeed without a message inside. */
  datatype Decryption = Undecryptable | NoMessage | Message(message: seq<byte>)

  /** hmac(hash, key, data), digest(hash, data); keystream(key, i) is byte i of the RC4 stream of a key;
      encrypt(public key, randomness, message) and decrypt(private key, ciphertext) are PKCS #1 v1.5;
      publicKey reads the key of a DER certificate. */
  datatype Crypto = Crypto(
    hmac: (Hash, seq<byte>, seq<byte>) -> seq<byte>,
    digest: (Hash, seq<byte>) -> seq<byte>,
    keystream: (seq<byte>, nat) -> byte,
    encrypt: (seq<byte>, seq<byte>, seq<byte>) -> seq<byte>,
    decrypt: (seq<byte>, seq<byte>) -> Decryption,
    publicKey: seq<byte> -> Option<seq<byte>>)

  function Size(h: Hash): nat {
    if h == MD5 then 16 else 20
  }

  /** All that is assumed of HMAC: its results have the length of the hash. */
  ghost predicate FixedLength(c: Crypto) {
    forall h, k, d :: |c.hmac(h, k, d)| == Size(h)
  }

  // ---- P_hash -------------------------------------------------------------------------------

  /** A(0) = seed, A(i) = HMAC_hash(secret, A(i - 1)). */
  function A(c: Crypto, h: Hash, secret: seq<byte>, seed: seq<byte>, i: nat): seq<byte> {
    if i == 0 then seed else c.hmac(h, secret, A(c, h, secret, seed, i - 1))
  }

  /** The first n terms of P_hash(secret, seed): HMAC(secret, A(1) + seed) + HMAC(secret, A(2) + seed) + ... */
  function Terms(c: Crypto, h: Hash, secret: seq<byte>, seed: seq<byte>, n: nat): seq<byte> {
    if n == 0 then []
    else Terms(c, h, secret, seed, n - 1) + c.hmac(h, secret, A(c, h, secret, seed, n) + seed)
  }

  lemma {:induction false} TermsGrow(c: Crypto, h: Hash, secret: seq<byte>, seed: seq<byte>, m: nat, n: nat)
    requires FixedLength(c) && m <= n
    ensures |Terms(c, h, secret, seed, n)| >= |Terms(c, h, secret, seed, m)| + (n - m)
    ensures Terms(c, h, secret, seed, m) <= Terms(c, h, secret, seed, n)
    decreases n
  {
    if m < n {
      TermsGrow(c, h, secret, seed, m, n - 1);
    }
  }

  /** The first len bytes of P_hash. */
  function PHash(c: Crypto, h: Hash, secret: seq<byte>, seed: seq<byte>, len: nat): (r: seq<byte>)
    requires FixedLength(c)
    ensures |r| == len
  {
    TermsGrow(c, h, secret, seed, 0, len);
    Terms(c, h, secret, seed, len)[..len]
  }

  /** Any number of terms that covers len bytes gives the same bytes. */
  lemma PHashIsAnyPrefix(c: Crypto, h: Hash, secret: seq<byte>, seed: seq<byte>, len: nat, n: nat)
    requires FixedLength(c) && |Terms(c, h, secret, seed, n)| >= len
    ensures PHash(c, h, secret, seed, len) == Terms(c, h, secret, seed, n)[..len]
  {
    TermsGrow(c, h, secret, seed, 0, len);
    if n <= len {
      TermsGrow(c, h, secret, seed, n, len);
    } else {
      TermsGrow(c, h, secret, seed, len, n);
    }
  }

  /** A longer output begins with a shorter one. */
  lemma PHashPrefixes(c: Crypto, h: Hash, secret: seq<byte>, seed: seq<byte>, short: nat, long: nat)
    requires FixedLength(c) && short <= long
    ensures PHash(c, h, secret, seed, short) == PHash(c, h, secret, seed, long)[..short]
  {
    TermsGrow(c, h, secret, seed, 0, long);
    PHashIsAnyPrefix(c, h, secret, seed, short, long);
    assert Terms(c, h, secret, seed, long)[..long][..short] == Terms(c, h, secret, seed, long)[..short];
  }

  /** Go's copy(out[n:], src). */
  method CopyInto(out: array<byte>, n: nat, src: seq<byte>) returns (count: nat)
    requires n <= out.Length
    modifies out
    ensures count == if |src| < out.Length - n then |src| else out.Length - n
    ensures out[..] == old(out[..n]) + src[..count] + old(out[n + count..])
  {
    count := if |src| < out.Length - n then |src| else out.Length - n;
    for i := 0 to count
      invariant out[..] == old(out[..n]) + src[..i] + old(out[n + i..])
    {
      out[n + i] := src[i];
    }
  }

  /** prfHash fills out with P_hash. */
  method FillPHash(c: Crypto, h: Hash, secret: seq<byte>, seed: seq<byte>, out: array<byte>)
    requires FixedLength(c)
    modifies out
    ensures out[..] == PHash(c, h, secret, seed, out.Length)
  {
    var a := seed;
    var n := 0;
    ghost var i := 0;
    while n < out.Length
      invariant n <= out.Length
      invariant a == A(c, h, secret, seed, i)
      invariant n == if |Terms(c, h, secret, seed, i)| < out.Length then |Terms(c, h, secret, seed, i)| else out.Length
      invariant out[..n] == Terms(c, h, secret, seed, i)[..n]
      decreases out.Length - n
    {
      a := c.hmac(h, secret, a);
      i := i + 1;
      var block := c.hmac(h, secret, a + seed);
      ghost var before, terms := out[..n], Terms(c, h, secret, seed, i - 1);
      assert before == terms;
      var copied := CopyInto(out, n, block);
      assert Terms(c, h, secret, seed, i) == terms + block;
      assert out[..n + copied] == before + block[..copied];
      n := n + copied;
    }
    assert out[..n] == out[..];
    PHashIsAnyPrefix(c, h, secret, seed, out.Length, i);
  }

  // ---- The PRF ------------------------------------------------------------------------------

  function XorAll(a: seq<byte>, b: seq<byte>): (r: seq<byte>)
    requires |a| == |b|
    ensures |r| == |a|
  {
    seq(|a|, i requires 0 <= i < |a| => Xor(a[i], b[i]))
  }

  function Half(n: nat): (h: nat)
    ensures h <= n && (n == 2 * h || n == 2 * h - 1)
  {
    (n + 1) / 2
  }

  /** PRF(secret, label, seed) = P_MD5(S1, label + seed) xor P_SHA-1(S2, label + seed), S1 and S2 being the
      halves of the secret. */
  function Prf(c: Crypto, secret: seq<byte>, label_: seq<byte>, seed: seq<byte>, n: nat): (r: seq<byte>)
    requires FixedLength(c)
    ensures |r| == n
  {
    var h := Half(|secret|);
    XorAll(PHash(c, MD5, secret[..h], label_ + seed, n), PHash(c, SHA1, secret[|secret| - h..], label_ + seed, n))
  }

  /** The halves have equal length, cover the secret, and share its middle byte when its length is odd. */
  lemma HalvesOfSecret(secret: seq<byte>)
    ensures var h := Half(|secret|);
            var (s1, s2) := (secret[..h], secret[|secret| - h..]);
            && |s1| == |s2|
            && (if |secret| == 2 * h then s1 + s2 == secret
                else |secret| == 2 * h - 1 && s1[h - 1] == s2[0] == secret[h - 1] && s1 + s2[1..] == secret)
  {
    var h := Half(|secret|);
    if |secret| == 2 * h {
      assert secret[..h] + secret[h..] == secret;
    } else {
      assert secret[h - 1..][1..] == secret[h..];
      assert secret[..h] + secret[h..] == secret;
    }
  }

  method Prf10(c: Crypto, secret: seq<byte>, label_: seq<byte>, seed: seq<byte>, n: nat) returns (a: array<byte>)
    requires FixedLength(c)
    ensures fresh(a) && a[..] == Prf(c, secret, label_, seed, n)
  {
    var ls := label_ + seed;
    var h := (|secret| + 1) / 2;
    assert h == Half(|secret|);
    a := new byte[n];
    var b := new byte[n];
    FillPHash(c, MD5, secret[..h], ls, a);
    FillPHash(c, SHA1, secret[|secret| - h..], ls, b);
    XorInto(a, b);
  }

  method XorInto(a: array<byte>, b: array<byte>)
    requires a != b && a.Length == b.Length
    modifies a
    ensures a[..] == XorAll(old(a[..]), b[..])
  {
    for i := 0 to a.Length
      invariant forall k :: 0 <= k < i ==> a[k] == Xor(old(a[k]), b[k])
      invariant forall k :: i <= k < a.Length ==> a[k] == old(a[k])
    {
      a[i] := Xor(a[i], b[i]);
    }
  }
}
