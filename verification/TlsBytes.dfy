/** What goes over the wire and into the hashes, byte by byte, as RFC 2246 has it: two ends of one program
    agree with each other whatever they do, these agree with others too. */
module TlsBytes {
  import opened Wrappers
  import opened Bytes
  import opened TlsPrf
  import opened TlsRecords
  import opened TlsHandshake

  // ---- Keys ---------------------------------------------------------------------------------

  function Ascii(s: string): (r: seq<byte>)
    requires forall i :: 0 <= i < |s| ==> s[i] as int < 128
    ensures |r| == |s|
  {
    seq(|s|, i requires 0 <= i < |s| => s[i] as int as byte)
  }

  lemma Labels()
    ensures MASTER_SECRET == Ascii("master secret") && KEY_EXPANSION == Ascii("key expansion")
    ensures CLIENT_FINISHED == Ascii("client finished") && SERVER_FINISHED == Ascii("server finished")
  {
  }

  /** The first bytes of P_hash, section 5. */
  lemma FirstTerms(c: Crypto, h: Hash, secret: seq<byte>, seed: seq<byte>)
    requires FixedLength(c)
    ensures var a1 := c.hmac(h, secret, seed);
            var a2 := c.hmac(h, secret, a1);
            PHash(c, h, secret, seed, 2 * Size(h)) == c.hmac(h, secret, a1 + seed) + c.hmac(h, secret, a2 + seed)
  {
    var a1 := A(c, h, secret, seed, 1);
    assert A(c, h, secret, seed, 0) == seed && A(c, h, secret, seed, 2) == c.hmac(h, secret, a1);
    assert Terms(c, h, secret, seed, 1) == [] + c.hmac(h, secret, a1 + seed);
    var two := Terms(c, h, secret, seed, 2);
    assert |two| == 2 * Size(h) && two[..2 * Size(h)] == two;
    PHashIsAnyPrefix(c, h, secret, seed, 2 * Size(h), 2);
  }

  /** The PRF, byte by byte; label and seed are one input. */
  lemma PrfAt(c: Crypto, secret: seq<byte>, label_: seq<byte>, seed: seq<byte>, n: nat, k: nat)
    requires FixedLength(c) && k < n
    ensures var (s1, s2) := (secret[..(|secret| + 1) / 2], secret[|secret| / 2..]);
            Prf(c, secret, label_, seed, n)[k] ==
            Xor(PHash(c, MD5, s1, label_ + seed, n)[k], PHash(c, SHA1, s2, label_ + seed, n)[k])
  {
    assert |secret| - (|secret| + 1) / 2 == |secret| / 2;
  }

  /** The key block in its order, section 6.3. */
  lemma KeyBlockParts(c: Crypto, hash: Hash, master: seq<byte>, clientRandom: seq<byte>, serverRandom: seq<byte>)
    requires FixedLength(c)
    ensures var (k, m) := (KeyBlock(c, hash, master, clientRandom, serverRandom), if hash == MD5 then 16 else 20);
            && |k.clientMac| == |k.serverMac| == m && |k.clientKey| == |k.serverKey| == 16
            && k.clientMac + k.serverMac + k.clientKey + k.serverKey ==
               Prf(c, master, Ascii("key expansion"), serverRandom + clientRandom, 2 * m + 32)
  {
    Labels();
    var (k, m) := (KeyBlock(c, hash, master, clientRandom, serverRandom), Size(hash));
    var kb := Prf(c, master, KEY_EXPANSION, serverRandom + clientRandom, 2 * m + 32);
    assert kb == kb[..m] + kb[m..2 * m] + kb[2 * m..2 * m + 16] + kb[2 * m + 16..2 * m + 32];
  }

  /** The data of a Finished, section 7.4.9, and the master secret, section 8.1. */
  lemma FinishedIs(c: Crypto, master: seq<byte>, hs: seq<byte>)
    requires FixedLength(c)
    ensures var hashes := c.digest(MD5, hs) + c.digest(SHA1, hs);
            && FinishedData(c, master, CLIENT_FINISHED, hs) == Prf(c, master, Ascii("client finished"), hashes, 12)
            && FinishedData(c, master, SERVER_FINISHED, hs) == Prf(c, master, Ascii("server finished"), hashes, 12)
  {
    Labels();
  }

  /** The 64 bytes of key block of a handshake between the two. */
  function StandardKeys(c: Crypto, x: Setup): (r: seq<byte>)
    requires FixedLength(c)
    ensures |r| == 64
  {
    var clientRandom := seq(16, _ => 0) + x.challenge;
    var master := Prf(c, x.pre, Ascii("master secret"), clientRandom + x.serverRandom, 48);
    Prf(c, master, Ascii("key expansion"), x.serverRandom + clientRandom, 64)
  }

  /** After the handshake the client writes with the first MAC key and the first key of that block, the
      server with the second ones, and each has sent one record of 32 bytes under them. */
  lemma HandshakeKeys(c: Crypto, x: Setup)
    requires Matching(c, x) && |ServerFlight(x)| <= MAX_FRAGMENT
    ensures var (r, keys) := (Handshake(c, x), StandardKeys(c, x));
            && r.Agreed?
            && r.client.out == r.server.in_ == Some(HalfConn(keys[32..48], 32, keys[..16], MD5, 1))
            && r.server.out == r.client.in_ == Some(HalfConn(keys[48..64], 32, keys[16..32], MD5, 1))
  {
    HandshakesAgree(c, x);
    HandshakeStates(c, x);
    KeysAreStandard(c, x);
  }

  lemma KeysAreStandard(c: Crypto, x: Setup)
    requires FixedLength(c) && |x.challenge| == 16
    ensures var (k, keys) := (KeyBlock(c, MD5, Master(c, x.pre, ClientRandom(x), x.serverRandom), ClientRandom(x),
                                       x.serverRandom), StandardKeys(c, x));
            && k.clientMac == keys[..16] && k.serverMac == keys[16..32]
            && k.clientKey == keys[32..48] && k.serverKey == keys[48..64]
  {
    var master := Master(c, x.pre, ClientRandom(x), x.serverRandom);
    var k := KeyBlock(c, MD5, master, ClientRandom(x), x.serverRandom);
    Labels();
    KeyBlockParts(c, MD5, master, ClientRandom(x), x.serverRandom);
    FourParts(k.clientMac, k.serverMac, k.clientKey, k.serverKey, StandardKeys(c, x));
  }

  lemma FourParts(a: seq<byte>, b: seq<byte>, d: seq<byte>, e: seq<byte>, all: seq<byte>)
    requires |a| == |b| == |d| == |e| == 16 && all == a + b + d + e
    ensures all[..16] == a && all[16..32] == b && all[32..48] == d && all[48..64] == e
  {
  }

  // ---- Records ------------------------------------------------------------------------------

  /** The count of records, 64 bits. */
  lemma CountSaysNumber(n: uint64)
    ensures |PutBE64(n)| == 8 && Number(PutBE64(n)) == n
  {
    var (a, b) := (n / 0x1_0000_0000_0000 % 0x1_0000, n / 0x1_0000_0000 % 0x1_0000);
    var (d, e) := (n / 0x1_0000 % 0x1_0000, n % 0x1_0000);
    TwoBytes(a);
    TwoBytes(b);
    TwoBytes(d);
    TwoBytes(e);
    EightBytes(PutBE16(a), PutBE16(b), PutBE16(d), PutBE16(e));
    FourDigits(n, a, b, d, e);
  }

  lemma TwoBytes(n: nat)
    requires n < 0x1_0000
    ensures Number(PutBE16(n)) == n
  {
    BE16SaysNumber(n);
  }

  lemma FourDigits(n: uint64, a: nat, b: nat, d: nat, e: nat)
    requires a == n / 0x1_0000_0000_0000 % 0x1_0000 && b == n / 0x1_0000_0000 % 0x1_0000
    requires d == n / 0x1_0000 % 0x1_0000 && e == n % 0x1_0000
    ensures n == 0x1_0000 * (0x1_0000 * (0x1_0000 * a + b) + d) + e
  {
    var x := n / 0x1_0000;
    var y := x / 0x1_0000;
    assert n == 0x1_0000 * x + e && x == 0x1_0000 * y + d;
    assert y == n / 0x1_0000_0000 && y / 0x1_0000 == n / 0x1_0000_0000_0000;
  }

  lemma EightBytes(a: seq<byte>, b: seq<byte>, d: seq<byte>, e: seq<byte>)
    requires |a| == |b| == |d| == |e| == 2
    ensures Number(a + b + d + e) ==
            0x1_0000 * (0x1_0000 * (0x1_0000 * Number(a) + Number(b)) + Number(d)) + Number(e)
  {
    assert b == [b[0], b[1]] && d == [d[0], d[1]] && e == [e[0], e[1]];
    NumberConcat(a, b[0], b[1]);
    NumberConcat(a + b, d[0], d[1]);
    NumberConcat(a + b + d, e[0], e[1]);
  }

  /** What the MAC of a record is computed over, section 6.2.3.1: count, type, version 3.1, length, content. */
  lemma MacCovers(c: Crypto, h: HalfConn, typ: byte, data: seq<byte>) returns (head: seq<byte>)
    requires |data| < 0x1_0000
    ensures |head| == 13 && Number(head[..8]) == h.count && head[8..11] == [typ, 3, 1] && Number(head[11..]) == |data|
    ensures Mac(c, h, typ, data) == c.hmac(h.hash, h.macKey, head + data)
  {
    var (count, len) := (PutBE64(h.count), PutBE16(|data|));
    head := count + [typ, 3, 1] + len;
    CountSaysNumber(h.count);
    TwoBytes(|data|);
    assert head[..8] == count && head[8..11] == [typ, 3, 1] && head[11..] == len;
    assert |data| % 0x1_0000 == |data|;
  }

  /** A record on the wire: type, version 3.1, length; its content and MAC under the key stream, from where
      the last record ended. */
  lemma RecordIs(c: Crypto, h: HalfConn, typ: byte, frag: seq<byte>)
    requires FixedLength(c) && |frag| <= MAX_FRAGMENT
    ensures var (rec, plain) := (Record(c, Some(h), typ, frag).0, frag + Mac(c, h, typ, frag));
            && |rec| == 5 + |plain| && rec[..3] == [typ, 3, 1] && Number(rec[3..5]) == |plain|
            && forall i :: 0 <= i < |plain| ==> rec[5 + i] == Xor(plain[i], c.keystream(h.key, h.pos + i))
  {
    var body := Crypt(c, h.key, h.pos, frag + Mac(c, h, typ, frag));
    RecordOf(typ, body);
  }

  lemma RecordOf(typ: byte, body: seq<byte>)
    requires |body| < 0x1_0000
    ensures var rec := [typ, 3, 1] + PutBE16(|body|) + body;
            |rec| == 5 + |body| && rec[..3] == [typ, 3, 1] && Number(rec[3..5]) == |body| && rec[5..] == body
  {
    TwoBytes(|body|);
    var rec := [typ, 3, 1] + PutBE16(|body|) + body;
    assert rec[3..5] == PutBE16(|body|) && rec[5..] == body;
  }

  /** The next record continues the key stream, and the count goes up by one. */
  lemma RecordMovesOn(c: Crypto, h: HalfConn, typ: byte, frag: seq<byte>)
    requires FixedLength(c) && h.count + 1 < 0x1_0000_0000_0000_0000
    ensures Record(c, Some(h), typ, frag).1 ==
            Some(h.(pos := h.pos + |frag| + |Mac(c, h, typ, frag)|, count := h.count + 1))
  {
  }

  /** Before the keys a record is its header and its content. */
  lemma PlainRecordIs(c: Crypto, typ: byte, frag: seq<byte>)
    requires |frag| <= MAX_FRAGMENT
    ensures var (rec, out1) := Record(c, None, typ, frag);
            && out1 == None && |rec| == 5 + |frag| && rec[..3] == [typ, 3, 1] && Number(rec[3..5]) == |frag|
            && rec[5..] == frag
  {
    RecordOf(typ, frag);
  }

  // ---- Handshake messages -------------------------------------------------------------------

  /** A handshake message, section 7.4. */
  lemma MessageIs(typ: byte, body: seq<byte>)
    requires |body| < 0x100_0000
    ensures var msg := HsMsg(typ, body);
            |msg| == 4 + |body| && msg[0] == typ && Number(msg[1..4]) == |body| && msg[4..] == body
  {
    BE24SaysNumber(|body|);
    assert HsMsg(typ, body)[1..4] == PutBE24(|body|);
  }

  /** The client's hello, appendix E.1: RC4-MD5 and 24 suites of the old version. */
  lemma HelloBytes(challenge: seq<byte>)
    requires |challenge| == 16
    ensures var hello := ClientHello(NEW_CONN, challenge).outbox;
            && |hello| == 102 && hello[..14] == [0x80, 100, 1, 3, 1, 0, 75, 0, 0, 0, 16, 0, 0, 4]
            && (forall i :: 1 <= i <= 24 ==> hello[11 + 3 * i..14 + 3 * i] == [1, 0, i as byte])
            && hello[86..] == challenge
  {
    OldSuitesShape(24);
    var (old_, hello) := (OldSuites(24), ClientHello(NEW_CONN, challenge).outbox);
    HelloParts(hello, old_, challenge);
    forall i | 1 <= i <= 24 ensures hello[11 + 3 * i..14 + 3 * i] == [1, 0, i as byte] {
      OldSuiteAt(24, i);
    }
  }

  lemma HelloParts(hello: seq<byte>, old_: seq<byte>, challenge: seq<byte>)
    requires |old_| == 72 && |challenge| == 16
    requires hello == [] + [0x80, 100] + (HELLO_HEAD + ([0, 0, 4] + old_) + challenge)
    ensures |hello| == 102 && hello[..14] == [0x80, 100, 1, 3, 1, 0, 75, 0, 0, 0, 16, 0, 0, 4]
    ensures forall i :: 1 <= i <= 24 ==> hello[11 + 3 * i..14 + 3 * i] == old_[3 * i - 3..3 * i]
    ensures hello[86..] == challenge
  {
    assert hello == [0x80, 100, 1, 3, 1, 0, 75, 0, 0, 0, 16, 0, 0, 4] + old_ + challenge;
  }

  lemma {:induction false} OldSuiteAt(n: nat, i: nat)
    requires 1 <= i <= n < 256
    ensures |OldSuites(n)| == 3 * n && OldSuites(n)[3 * i - 3..3 * i] == [1, 0, i as byte]
  {
    OldSuitesShape(n);
    OldSuitesShape(n - 1);
    if i < n {
      OldSuiteAt(n - 1, i);
      assert OldSuites(n)[3 * i - 3..3 * i] == OldSuites(n - 1)[3 * i - 3..3 * i];
    }
  }

  /** The server's hello: version 3.1, random, no session, the suite, no compression. */
  lemma ServerHelloBytes(hash: Hash, serverRandom: seq<byte>)
    requires |serverRandom| == 32
    ensures ServerHelloBody(hash, serverRandom) == [3, 1] + serverRandom + [0, 0, if hash == MD5 then 4 else 5, 0]
  {
  }

  /** The first suite of the two that the client offers. */
  lemma SuitePreferred(offered: set<uint16>)
    ensures ChooseSuite(offered) ==
            if 0x0004 in offered then Some(MD5) else if 0x0005 in offered then Some(SHA1) else None
  {
  }

  /** The certificates of a list, None if it is not one. */
  function CertsOf(list: seq<byte>): Option<seq<seq<byte>>>
    decreases |list|
  {
    if list == [] then Some([])
    else if |list| < 3 || |list| < 3 + Number(list[..3]) then None
    else
      var n := Number(list[..3]);
      match CertsOf(list[3 + n..])
      case None => None
      case Some(more) => Some([list[3..3 + n]] + more)
  }

  /** The certificate list, section 7.4.2, is read back. */
  lemma {:induction false} CertListIsRead(certs: seq<seq<byte>>)
    requires forall cert :: cert in certs ==> |cert| < 0x100_0000
    ensures CertsOf(CertList(certs)) == Some(certs)
    decreases |certs|
  {
    if certs != [] {
      var (cert, list, more) := (certs[0], CertList(certs), CertList(certs[1..]));
      assert cert in certs;
      CertListIsRead(certs[1..]);
      BE24SaysNumber(|cert|);
      assert list == PutBE24(|cert|) + cert + more;
      assert list[..3] == PutBE24(|cert|) && list[3..3 + |cert|] == cert && list[3 + |cert|..] == more;
      assert [cert] + certs[1..] == certs;
    }
  }

  /** The three messages of the server's flight, with the list behind its length. */
  lemma FlightIs(hash: Hash, serverRandom: seq<byte>, certs: seq<seq<byte>>)
    requires |CertList(certs)| + 3 < 0x100_0000
    ensures var list := CertList(certs);
            && Flight(hash, serverRandom, certs) ==
               HsMsg(2, ServerHelloBody(hash, serverRandom)) + HsMsg(11, CertBody(certs)) + [14, 0, 0, 0]
            && |CertBody(certs)| == 3 + |list| && Number(CertBody(certs)[..3]) == |list| && CertBody(certs)[3..] == list
  {
    BE24SaysNumber(|CertList(certs)|);
    assert CertBody(certs)[..3] == PutBE24(|CertList(certs)|);
    assert HsMsg(14, []) == [14, 0, 0, 0];
  }

  /** The client's key exchange, section 7.4.7: the encrypted secret behind its length. */
  lemma KeyExchangeIs(enc: seq<byte>)
    requires |enc| < 0x1_0000
    ensures var msg := ClientKeyExchange(enc);
            && |msg| == 6 + |enc| && msg[0] == 16 && Number(msg[1..4]) == |enc| + 2 && Number(msg[4..6]) == |enc|
            && msg[6..] == enc
  {
    var body := PutBE16(|enc|) + enc;
    MessageIs(16, body);
    BE16SaysNumber(|enc|);
    var msg := HsMsg(16, body);
    assert msg[4..] == body && msg[4..6] == msg[4..][..2] == PutBE16(|enc|);
    assert msg[6..] == body[2..];
  }

  // ---- Reading what others write ------------------------------------------------------------

  /** Every hello of appendix E.1 with a challenge of at most 32 bytes is read: its suites and its challenge,
      whatever the version and the session id. */
  lemma HelloIsRead(version: seq<byte>, suites: seq<byte>, session: seq<byte>, challenge: seq<byte>, tail: seq<byte>)
    requires |version| == 2 && |challenge| <= 32 && 9 + |suites| + |session| + |challenge| < 0x8000
    ensures var body := [1] + version + PutBE16(|suites|) + PutBE16(|session|) + PutBE16(|challenge|)
                        + suites + session + challenge;
            var head := PutBE16(0x8000 + |body|);
            ParseHello(head + body + tail) == Some(Hello(body, suites, challenge, tail))
  {
    var lengths := [1] + version + PutBE16(|suites|) + PutBE16(|session|) + PutBE16(|challenge|);
    var body := lengths + suites + session + challenge;
    LengthsRead(version, |suites|, |session|, |challenge|);
    HelloFields(lengths, suites, session, challenge);
    HelloFramed(body, tail);
  }

  lemma HelloFramed(body: seq<byte>, tail: seq<byte>)
    requires |body| < 0x8000
    ensures var (wire, n) := (PutBE16(0x8000 + |body|) + body + tail, |body|);
            && wire[0] >= 128 && (wire[0] as nat - 128) * 256 + wire[1] as nat == n
            && wire[2..2 + n] == body && wire[2 + n..] == tail
  {
    HeadRead(|body|);
  }

  lemma HelloFields(lengths: seq<byte>, suites: seq<byte>, session: seq<byte>, challenge: seq<byte>)
    requires |lengths| == 9
    ensures var (body, at) := (lengths + suites + session + challenge, 9 + |suites| + |session|);
            && body[9..9 + |suites|] == suites && body[at..at + |challenge|] == challenge && body[0] == lengths[0]
            && BE16(body, 3) == BE16(lengths, 3) && BE16(body, 5) == BE16(lengths, 5)
            && BE16(body, 7) == BE16(lengths, 7)
  {
    var body := lengths + suites + session + challenge;
    assert forall i :: 0 <= i < 9 ==> body[i] == lengths[i];
    assert body[9..9 + |suites|] == suites;
  }

  lemma HeadRead(n: nat)
    requires n < 0x8000
    ensures var h := PutBE16(0x8000 + n); h[0] >= 128 && (h[0] as nat - 128) * 256 + h[1] as nat == n
  {
    var (a, b) := (n / 256, n % 256);
    assert n == 256 * a + b && a < 128;
    assert (0x8000 + n) / 256 == 128 + a && (0x8000 + n) % 256 == b;
  }

  lemma LengthsRead(version: seq<byte>, a: nat, b: nat, d: nat)
    requires |version| == 2 && a < 0x1_0000 && b < 0x1_0000 && d < 0x1_0000
    ensures var lengths := [1] + version + PutBE16(a) + PutBE16(b) + PutBE16(d);
            |lengths| == 9 && lengths[0] == 1 && BE16(lengths, 3) == a && BE16(lengths, 5) == b && BE16(lengths, 7) == d
  {
    BE16RoundTrip(a);
    BE16RoundTrip(b);
    BE16RoundTrip(d);
  }

  /** The suites offered are those of three bytes whose first is 0. */
  lemma {:induction false} OfferedExactly(suites: seq<byte>, code: uint16)
    ensures code in Offered(suites) <==>
            exists i :: 0 <= i && 3 * i + 3 <= |suites| && suites[3 * i] == 0 && SuiteAt(suites, i) == code
    decreases |suites|
  {
    if |suites| >= 3 {
      var more := suites[3..];
      OfferedExactly(more, code);
      assert SuiteAt(suites, 0) == BE16(suites, 1);
      if i :| 0 <= i && 3 * i + 3 <= |more| && more[3 * i] == 0 && SuiteAt(more, i) == code {
        assert suites[3 * (i + 1)] == 0 && SuiteAt(suites, i + 1) == code;
      }
      if i :| 0 <= i && 3 * i + 3 <= |suites| && suites[3 * i] == 0 && SuiteAt(suites, i) == code {
        if i > 0 {
          assert more[3 * (i - 1)] == 0 && SuiteAt(more, i - 1) == code;
        }
      }
    }
  }

  function SuiteAt(suites: seq<byte>, i: nat): int
    requires 3 * i + 3 <= |suites|
  {
    256 * suites[3 * i + 1] as int + suites[3 * i + 2] as int
  }

  /** A server's hello is read with any session id, and refused with another suite. */
  lemma ServerHelloIsRead(random: seq<byte>, session: seq<byte>, suite: uint16, tail: seq<byte>)
    requires |random| == 32 && |session| < 256 && tail != []
    ensures var sh := [3, 1] + random + [|session| as byte] + session + PutBE16(suite) + tail;
            ParseServerHello(2, sh) == if suite == 0x0004 then Some(random) else None
  {
    var sh := [3, 1] + random + [|session| as byte] + session + PutBE16(suite) + tail;
    BE16RoundTrip(suite);
    assert sh[34] as nat == |session| && sh[2..34] == random;
    assert sh[35 + |session|] == PutBE16(suite)[0] && sh[36 + |session|] == PutBE16(suite)[1];
  }

  /** The secret is found with its length before it or without; a random one stands for one of another size. */
  lemma PremasterIs(c: Crypto, cfg: ServerConfig, enc: seq<byte>, fallback: seq<byte>)
    requires |enc| == cfg.keySize
    ensures Premaster(c, cfg, enc, fallback) == Premaster(c, cfg, PutBE16(|enc|) + enc, fallback)
    ensures match c.decrypt(cfg.key, enc)
            case Undecryptable => Premaster(c, cfg, enc, fallback) == None
            case NoMessage => Premaster(c, cfg, enc, fallback) == Some(fallback)
            case Message(m) => Premaster(c, cfg, enc, fallback) == Some(if |m| == 48 then m else fallback)
  {
    assert (PutBE16(|enc|) + enc)[2..] == enc;
  }

  /** A handshake message cut into two records anywhere is read as one. */
  lemma MessageAcrossRecords(c: Crypto, s: Conn, typ: byte, body: seq<byte>, k: nat, tail: seq<byte>)
    requires FixedLength(c) && |HsMsg(typ, body)| <= MAX_FRAGMENT && k < |HsMsg(typ, body)|
    requires var (msg, first) := (HsMsg(typ, body), Record(c, s.in_, REC_HANDSHAKE, HsMsg(typ, body)[..k]));
             s.inbox == first.0 + (Record(c, first.1, REC_HANDSHAKE, msg[k..]).0 + tail)
    ensures var (msg, first) := (HsMsg(typ, body), Record(c, s.in_, REC_HANDSHAKE, HsMsg(typ, body)[..k]));
            var in2 := Record(c, first.1, REC_HANDSHAKE, msg[k..]).1;
            ReadHandshake(c, s, []) == HsRead(typ, body, s.(inbox := tail, in_ := in2, hs := s.hs + msg), [])
  {
    var msg := HsMsg(typ, body);
    var (rec1, in1) := Record(c, s.in_, REC_HANDSHAKE, msg[..k]);
    var (rec2, in2) := Record(c, in1, REC_HANDSHAKE, msg[k..]);
    ReadBack(c, s.in_, REC_HANDSHAKE, msg[..k], rec2 + tail);
    CutMessageIncomplete(typ, body, k);
    assert [] + msg[..k] == msg[..k];
    var s1 := s.(inbox := rec2 + tail, in_ := in1);
    assert ReadHandshake(c, s, []) == ReadHandshake(c, s1, msg[..k]);
    SecondRecord(c, s1, typ, body, k, tail);
  }

  lemma SecondRecord(c: Crypto, s: Conn, typ: byte, body: seq<byte>, k: nat, tail: seq<byte>)
    requires FixedLength(c) && |HsMsg(typ, body)| <= MAX_FRAGMENT && k < |HsMsg(typ, body)|
    requires s.inbox == Record(c, s.in_, REC_HANDSHAKE, HsMsg(typ, body)[k..]).0 + tail
    ensures var (msg, in2) := (HsMsg(typ, body), Record(c, s.in_, REC_HANDSHAKE, HsMsg(typ, body)[k..]).1);
            ReadHandshake(c, s, msg[..k]) ==
            HsRead(typ, body, s.(inbox := tail, in_ := in2, hs := s.hs + msg), [])
  {
    var msg := HsMsg(typ, body);
    CutMessageIncomplete(typ, body, k);
    ReadBack(c, s.in_, REC_HANDSHAKE, msg[k..], tail);
    assert msg[..k] + msg[k..] == msg == msg + [];
    ReadBuffered(c, s.(inbox := tail, in_ := Record(c, s.in_, REC_HANDSHAKE, msg[k..]).1), typ, body, []);
  }
}
