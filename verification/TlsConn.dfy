/** The tlsConn of pkg/dnas/tls10.go and pkg/dnas/client.go as an object changed in place. inbox and outbox
    stand for the network connection. */
module TlsConns {
  import opened Wrappers
  import opened Bytes
  import opened TlsPrf
  import opened TlsRecords
  import opened TlsHandshake

  datatype ReadError = NoError | EOF | OtherError

  /** Before any content an alert comes. */
  predicate AlertNext(c: Crypto, in_: Option<HalfConn>, wire: seq<byte>, rbuf: seq<byte>)
    decreases |wire|
  {
    rbuf == [] && ReadRecord(c, in_, wire).Read? &&
    var r := ReadRecord(c, in_, wire);
    r.typ == REC_ALERT || (r.typ == REC_APP_DATA && AlertNext(c, r.in1, r.rest, r.body))
  }

  lemma ServerHelloIs(c: Crypto, cfg: ServerConfig, s: Conn, serverRandom: seq<byte>, h: Hello, hash: Hash)
    requires ParseHello(s.inbox) == Some(h) && ChooseSuite(Offered(h.suites)) == Some(hash)
    ensures ServerHello(c, cfg, s, serverRandom) ==
            Some(ServerState(SendFlight(c, s.(inbox := h.rest, hs := s.hs + h.body),
                                        Flight(hash, serverRandom, cfg.certs)),
                             hash, Zeros(32 - |h.challenge|) + h.challenge))
  {
  }

  class TlsConn {
    const c: Crypto
    var inbox: seq<byte>
    var outbox: seq<byte>
    var in_: Option<HalfConn>
    var out: Option<HalfConn>
    var hs: seq<byte>
    var rbuf: seq<byte>

    constructor (c: Crypto)
      ensures this.c == c && View() == NEW_CONN && rbuf == []
    {
      this.c := c;
      inbox, outbox, in_, out, hs, rbuf := [], [], None, None, [], [];
    }

    ghost function View(): Conn
      reads this
    {
      Conn(inbox, outbox, in_, out, hs)
    }

    /** readRecord. */
    method ReceiveRecord() returns (ok: bool, typ: byte, body: seq<byte>)
      requires FixedLength(c)
      modifies this`inbox, this`in_
      ensures ok <==> ReadRecord(c, old(in_), old(inbox)).Read?
      ensures ok ==> ReadRecord(c, old(in_), old(inbox)) == TlsRecords.Read(typ, body, inbox, in_)
    {
      typ, body := 0, [];
      if |inbox| < 5 {
        return false, typ, body;
      }
      typ := inbox[0];
      var n: int := BE16(inbox, 3);
      if |inbox| < 5 + n {
        return false, typ, body;
      }
      body := inbox[5..5 + n];
      inbox := inbox[5 + n..];
      ok, body := OpenBody(typ, body);
    }

    /** The part of readRecord behind the framing. */
    method OpenBody(typ: byte, sealed: seq<byte>) returns (ok: bool, body: seq<byte>)
      requires FixedLength(c)
      modifies this`in_
      ensures var r := Open(c, old(in_), typ, sealed); ok == r.Some? && (ok ==> r.value == (body, in_))
    {
      body := sealed;
      if in_.Some? {
        var h := in_.value;
        body := Crypt(c, h.key, h.pos, body);
        var ms := Size(h.hash);
        if |body| < ms {
          return false, body;
        }
        var data, got := body[..|body| - ms], body[|body| - ms..];
        if got != Mac(c, h, typ, data) {
          return false, body;
        }
        in_ := Some(Used(h, |body|));
        body := data;
      }
      return true, body;
    }

    /** writeRecord: the loop cuts application data into fragments and stops after one of anything else. */
    method SendRecord(typ: byte, data: seq<byte>)
      modifies this`outbox, this`out
      ensures View() == WriteRecord(c, old(View()), typ, data)
    {
      var rest := data;
      ghost var all := Records(c, out, typ, data);
      assert old(outbox) + all.0 == outbox + all.0;
      while |rest| > 0 || typ != REC_APP_DATA
        invariant LeftToSend(typ, rest, old(outbox) + all.0, all.1)
        decreases |rest|
      {
        var n := |rest|;
        if n > 16384 {
          n := 16384;
        }
        SendFragment(typ, rest, n, old(outbox) + all.0, all.1);
        if typ != REC_APP_DATA {
          return;
        }
        rest := rest[n..];
      }
      assert outbox + [] == outbox;
    }

    /** What is sent and what the records of rest will be add up to bytes. */
    ghost predicate LeftToSend(typ: byte, rest: seq<byte>, bytes: seq<byte>, last: Option<HalfConn>)
      reads this`outbox, this`out
    {
      var records := Records(c, out, typ, rest);
      outbox + records.0 == bytes && records.1 == last
    }

    /** One round of the loop: the first n bytes as a record. */
    method SendFragment(typ: byte, rest: seq<byte>, n: nat, ghost bytes: seq<byte>, ghost last: Option<HalfConn>)
      requires n <= |rest| && rest[..n] == Fragment(rest) && (rest != [] || typ != REC_APP_DATA)
      requires LeftToSend(typ, rest, bytes, last)
      modifies this`outbox, this`out
      ensures if typ == REC_APP_DATA then LeftToSend(typ, rest[n..], bytes, last) else outbox == bytes && out == last
    {
      var (record, out1) := Record(c, out, typ, rest[..n]);
      ghost var (before, behind) := (outbox, Records(c, out1, typ, rest[n..]).0);
      outbox, out := outbox + record, out1;
      assert before + (record + behind) == outbox + behind;
    }

    /** readHandshake. */
    method ReceiveHandshake(buf: seq<byte>) returns (ok: bool, typ: byte, body: seq<byte>, buf1: seq<byte>)
      requires FixedLength(c)
      modifies this`inbox, this`in_, this`hs
      ensures ok <==> ReadHandshake(c, old(View()), buf).HsRead?
      ensures ok ==> ReadHandshake(c, old(View()), buf) == HsRead(typ, body, View(), buf1)
    {
      buf1 := buf;
      while |buf1| < 4 || |buf1| < 4 + BE24(buf1, 1)
        invariant ReadHandshake(c, View(), buf1) == ReadHandshake(c, old(View()), buf)
        decreases |inbox|
      {
        ok, typ, body := ReceiveRecord();
        if !ok || typ != REC_HANDSHAKE {
          return false, typ, body, buf1;
        }
        buf1 := buf1 + body;
      }
      var n := BE24(buf1, 1);
      var msg := buf1[..4 + n];
      buf1 := buf1[4 + n..];
      hs := hs + msg;
      return true, msg[0], msg[4..], buf1;
    }

    /** Read into a buffer of max bytes; an alert is the end of the stream. */
    method Read(max: nat) returns (err: ReadError, data: seq<byte>)
      requires FixedLength(c)
      modifies this`inbox, this`in_, this`rbuf
      ensures var filled := Fill(c, old(in_), old(inbox), old(rbuf));
              err == NoError <==> filled.Some? && filled.value.2 != []
      ensures err == EOF <==> AlertNext(c, old(in_), old(inbox), old(rbuf))
      ensures err == NoError ==> var (in1, wire1, rbuf1) := Fill(c, old(in_), old(inbox), old(rbuf)).value;
                     && inbox == wire1 && in_ == in1 && data + rbuf == rbuf1
                     && |data| == if max < |rbuf1| then max else |rbuf1|
    {
      data := [];
      while |rbuf| == 0
        invariant Fill(c, in_, inbox, rbuf) == Fill(c, old(in_), old(inbox), old(rbuf))
        invariant AlertNext(c, in_, inbox, rbuf) == AlertNext(c, old(in_), old(inbox), old(rbuf))
        decreases |inbox|
      {
        var ok, typ, body := ReceiveRecord();
        if !ok {
          return OtherError, data;
        }
        if typ == REC_ALERT {
          return EOF, data;
        }
        if typ != REC_APP_DATA {
          return OtherError, data;
        }
        rbuf := body;
      }
      var n := if max < |rbuf| then max else |rbuf|;
      data := rbuf[..n];
      rbuf := rbuf[n..];
      return NoError, data;
    }

    method Write(p: seq<byte>) returns (n: nat)
      modifies this`outbox, this`out
      ensures n == |p| && View() == WriteRecord(c, old(View()), REC_APP_DATA, p)
    {
      SendRecord(REC_APP_DATA, p);
      return |p|;
    }

    // ---- The handshakes, cut where they wait -----------------------------------------------

    /** handshake up to the flight it sends. */
    method AcceptHello(cfg: ServerConfig, serverRandom: seq<byte>)
        returns (ok: bool, hash: Hash, clientRandom: seq<byte>)
      modifies this`inbox, this`outbox, this`out, this`hs
      ensures var r := ServerHello(c, cfg, old(View()), serverRandom);
              ok == r.Some? && (ok ==> r.value == ServerState(View(), hash, clientRandom))
    {
      var body, cs, challenge;
      hash, clientRandom := MD5, [];
      ok, body, cs, challenge := ReceiveHello();
      if !ok {
        return;
      }
      var offered := CollectSuites(cs);
      ok, hash := PickSuite(offered);
      if !ok {
        return;
      }
      hs := hs + body;
      clientRandom := Zeros(32 - |challenge|) + challenge;
      ServerHelloIs(c, cfg, old(View()), serverRandom, Hello(body, cs, challenge, inbox), hash);
      assert View() == old(View()).(inbox := inbox, hs := hs);
      AnswerHello(cfg, hash, serverRandom);
    }

    method PickSuite(offered: set<uint16>) returns (ok: bool, hash: Hash)
      ensures var r := ChooseSuite(offered); ok == r.Some? && (ok ==> hash == r.value)
    {
      if SUITE_RC4_MD5 in offered {
        return true, MD5;
      } else if SUITE_RC4_SHA in offered {
        return true, SHA1;
      } else {
        return false, MD5;
      }
    }

    method ReceiveHello() returns (ok: bool, body: seq<byte>, cs: seq<byte>, challenge: seq<byte>)
      modifies this`inbox
      ensures var r := ParseHello(old(inbox));
              ok == r.Some? && (ok ==> r.value == Hello(body, cs, challenge, inbox)) && |challenge| <= 32
    {
      body, cs, challenge := [], [], [];
      if |inbox| < 2 || inbox[0] < 128 {
        return false, body, cs, challenge;
      }
      var n := (inbox[0] as nat - 128) * 256 + inbox[1] as nat;
      if |inbox| < 2 + n {
        return false, body, cs, challenge;
      }
      body := inbox[2..2 + n];
      if |body| < 9 || body[0] != 1 {
        return false, body, cs, challenge;
      }
      var csl: int, sidl: int, chl: int := BE16(body, 3), BE16(body, 5), BE16(body, 7);
      if 9 + csl + sidl + chl > |body| || chl > 32 {
        return false, body, cs, challenge;
      }
      cs, challenge := body[9..9 + csl], body[9 + csl + sidl..9 + csl + sidl + chl];
      inbox := inbox[2 + n..];
      return true, body, cs, challenge;
    }

    method CollectSuites(cs: seq<byte>) returns (offered: set<uint16>)
      ensures offered == Offered(cs)
    {
      offered := {};
      var i := 0;
      while i + 3 <= |cs|
        invariant 0 <= i <= |cs| && offered + Offered(cs[i..]) == Offered(cs)
      {
        var rest := cs[i..];
        assert rest[3..] == cs[i + 3..] && rest[0] == cs[i] && BE16(rest, 1) == BE16(cs, i + 1);
        if cs[i] == 0 {
          offered := offered + {BE16(cs, i + 1)};
        }
        i := i + 3;
      }
    }

    method AnswerHello(cfg: ServerConfig, hash: Hash, serverRandom: seq<byte>)
      modifies this`outbox, this`out, this`hs
      ensures View() == SendFlight(c, old(View()), Flight(hash, serverRandom, cfg.certs))
    {
      var sh := [3, 1] + serverRandom + [0] + PutBE16(SuiteCode(hash)) + [0];
      var certs := CollectCerts(cfg.certs);
      certs := PutBE24(|certs|) + certs;
      var flight := AppendMessages([HsMsg(2, sh), HsMsg(11, certs), HsMsg(14, [])]);
      JoinedThree([HsMsg(2, sh), HsMsg(11, certs), HsMsg(14, [])]);
      SendRecord(REC_HANDSHAKE, flight);
    }

    method CollectCerts(ders: seq<seq<byte>>) returns (certs: seq<byte>)
      ensures certs == CertList(ders)
    {
      certs := [];
      for i := 0 to |ders|
        invariant certs + CertList(ders[i..]) == CertList(ders)
      {
        var der := ders[i];
        assert ders[i..][1..] == ders[i + 1..];
        ghost var more := CertList(ders[i + 1..]);
        assert certs + (PutBE24(|der|) + der + more) == (certs + (PutBE24(|der|) + der)) + more;
        certs := certs + (PutBE24(|der|) + der);
      }
    }

    method AppendMessages(messages: seq<seq<byte>>) returns (flight: seq<byte>)
      modifies this`hs
      ensures flight == Joined(messages) && hs == old(hs) + flight
    {
      flight := [];
      ghost var hs0 := hs;
      assert hs0 + [] == hs0;
      for i := 0 to |messages|
        invariant hs == hs0 + flight
        invariant flight == Joined(messages[..i])
      {
        JoinedLast(messages[..i + 1]);
        assert messages[..i + 1][..i] == messages[..i];
        assert (hs0 + flight) + messages[i] == hs0 + (flight + messages[i]);
        hs := hs + messages[i];
        flight := flight + messages[i];
      }
      assert messages[..|messages|] == messages;
    }

    /** clientHandshake up to the hello it sends. */
    method StartHandshake(challenge: seq<byte>)
      modifies this`outbox, this`hs
      ensures View() == ClientHello(old(View()), challenge)
    {
      var body: seq<byte> := [1, 3, 1, 0, 75, 0, 0, 0, 16];
      var suites: seq<byte> := [0, 0, 4];
      ghost var first := suites;
      for i := 0 to 24
        invariant suites == first + OldSuites(i)
      {
        assert (first + OldSuites(i)) + [1, 0, (i + 1) as byte] == first + OldSuites(i + 1);
        suites := suites + [1, 0, (i + 1) as byte];
      }
      body := body + suites + challenge;
      hs := hs + body;
      outbox := outbox + [128, (|body| % 256) as byte] + body;
    }

    /** PRF results as values. */
    method ComputePrf(secret: seq<byte>, label_: seq<byte>, seed: seq<byte>, n: nat) returns (r: seq<byte>)
      requires FixedLength(c)
      ensures r == Prf(c, secret, label_, seed, n)
    {
      var a := Prf10(c, secret, label_, seed, n);
      return a[..];
    }

    method ComputeFinished(master: seq<byte>, label_: seq<byte>) returns (r: seq<byte>)
      requires FixedLength(c)
      ensures r == FinishedData(c, master, label_, hs)
    {
      r := ComputePrf(master, label_, c.digest(MD5, hs) + c.digest(SHA1, hs), 12);
    }

    method ComputeKeys(hash: Hash, pre: seq<byte>, clientRandom: seq<byte>, serverRandom: seq<byte>)
      returns (master: seq<byte>, keys: Keys)
      requires FixedLength(c)
      ensures master == Master(c, pre, clientRandom, serverRandom)
      ensures keys == KeyBlock(c, hash, master, clientRandom, serverRandom)
    {
      master := ComputePrf(pre, MASTER_SECRET, clientRandom + serverRandom, 48);
      var macLen := if hash == SHA1 then 20 else 16;
      var kb := ComputePrf(master, KEY_EXPANSION, serverRandom + clientRandom, 2 * macLen + 32);
      keys := Keys(kb[..macLen], kb[macLen..2 * macLen], kb[2 * macLen..2 * macLen + 16],
                   kb[2 * macLen + 16..2 * macLen + 32]);
    }

    /** clientHandshake from the server's flight to its own Finished. */
    method AnswerFlight(challenge: seq<byte>, pre: seq<byte>, rnd: seq<byte>)
      returns (ok: bool, buf: seq<byte>, master: seq<byte>, keys: Keys)
      requires FixedLength(c)
      modifies this`inbox, this`outbox, this`in_, this`out, this`hs
      ensures var r := ClientKeys(c, old(View()), challenge, pre, rnd);
              ok == r.Some? && (ok ==> r.value == ClientState(View(), buf, master, keys))
    {
      master, keys := [], Keys([], [], [], []);
      var serverRandom, pub;
      ok, buf, serverRandom, pub := ReceiveFlight();
      if !ok {
        return;
      }
      master, keys := AnswerKeys(Zeros(16) + challenge, serverRandom, pub, pre, rnd);
    }

    /** The key exchange, the change of ciphers and the Finished. */
    method AnswerKeys(clientRandom: seq<byte>, serverRandom: seq<byte>, pub: seq<byte>, pre: seq<byte>, rnd: seq<byte>)
      returns (master: seq<byte>, keys: Keys)
      requires FixedLength(c)
      modifies this`outbox, this`out, this`hs
      ensures forall buf :: SendKeys(c, old(View()), buf, clientRandom, serverRandom, pub, pre, rnd) ==
                            ClientState(View(), buf, master, keys)
    {
      var enc := c.encrypt(pub, rnd, pre);
      var cke := HsMsg(16, PutBE16(|enc|) + enc);
      hs := hs + cke;
      SendRecord(REC_HANDSHAKE, cke);
      master, keys := ComputeKeys(MD5, pre, clientRandom, serverRandom);
      SendRecord(REC_CCS, [1]);
      out := Some(ClientHalf(keys, MD5));
      var data := ComputeFinished(master, CLIENT_FINISHED);
      var cfin := HsMsg(20, data);
      hs := hs + cfin;
      SendRecord(REC_HANDSHAKE, cfin);
    }

    method ReceiveFlight() returns (ok: bool, buf: seq<byte>, serverRandom: seq<byte>, pub: seq<byte>)
      requires FixedLength(c)
      modifies this`inbox, this`in_, this`hs
      ensures var r := ReadFlight(c, old(View()));
              ok == r.Some? && (ok ==> r.value == (View(), buf, serverRandom, pub))
    {
      pub := [];
      ok, buf, serverRandom := ReceiveServerHello();
      if !ok {
        return;
      }
      ok, buf, pub := ReceiveCertificate(buf);
      if !ok {
        return;
      }
      ok, buf := ReceiveHelloDone(buf);
    }

    method ReceiveServerHello() returns (ok: bool, buf: seq<byte>, serverRandom: seq<byte>)
      requires FixedLength(c)
      modifies this`inbox, this`in_, this`hs
      ensures var r := ReadServerHello(c, old(View()));
              ok == r.Some? && (ok ==> r.value == (View(), buf, serverRandom))
    {
      var typ, sh;
      serverRandom := [];
      ok, typ, sh, buf := ReceiveHandshake([]);
      if !ok {
        return;
      }
      if typ != 2 || |sh| < 38 || sh[34] as nat + 37 > |sh| {
        return false, buf, serverRandom;
      }
      serverRandom := sh[2..34];
      ok := BE16(sh, 35 + sh[34] as nat) == SUITE_RC4_MD5;
    }

    method ReceiveCertificate(buf: seq<byte>) returns (ok: bool, buf1: seq<byte>, pub: seq<byte>)
      requires FixedLength(c)
      modifies this`inbox, this`in_, this`hs
      ensures var r := ReadCertificate(c, old(View()), buf);
              ok == r.Some? && (ok ==> r.value == (View(), buf1, pub))
    {
      var typ, certs;
      pub := [];
      ok, typ, certs, buf1 := ReceiveHandshake(buf);
      if !ok {
        return;
      }
      if typ != 11 || |certs| < 6 {
        return false, buf1, pub;
      }
      var n := BE24(certs, 3);
      if 6 + n > |certs| {
        return false, buf1, pub;
      }
      var leaf := c.publicKey(certs[6..6 + n]);
      if leaf.None? {
        return false, buf1, pub;
      }
      pub := leaf.value;
    }

    method ReceiveHelloDone(buf: seq<byte>) returns (ok: bool, buf1: seq<byte>)
      requires FixedLength(c)
      modifies this`inbox, this`in_, this`hs
      ensures var r := ReadHelloDone(c, old(View()), buf);
              ok == r.Some? && (ok ==> r.value == (View(), buf1))
    {
      var typ, body;
      ok, typ, body, buf1 := ReceiveHandshake(buf);
      ok := ok && typ == 14;
    }

    method ReceiveChange() returns (ok: bool)
      requires FixedLength(c)
      modifies this`inbox, this`in_
      ensures ok == ReadChange(c, old(View())).Some? && (ok ==> ReadChange(c, old(View())).value == View())
    {
      var typ, body;
      ok, typ, body := ReceiveRecord();
      ok := ok && typ == REC_CCS;
    }

    method ReceiveFinished(buf: seq<byte>, want: seq<byte>) returns (ok: bool)
      requires FixedLength(c)
      modifies this`inbox, this`in_, this`hs
      ensures ok == ReadFinished(c, old(View()), buf, want).Some?
      ensures ok ==> ReadFinished(c, old(View()), buf, want).value == View()
    {
      var typ, fin, rest;
      ok, typ, fin, rest := ReceiveHandshake(buf);
      ok := ok && typ == 20 && fin == want;
    }

    /** handshake from the client's key exchange to the end; fallback is the random premaster. */
    method Finish(cfg: ServerConfig, hash: Hash, clientRandom: seq<byte>, serverRandom: seq<byte>,
                  fallback: seq<byte>) returns (ok: bool)
      requires FixedLength(c)
      modifies this`inbox, this`outbox, this`in_, this`out, this`hs
      ensures var r := ServerFinish(c, cfg, ServerState(old(View()), hash, clientRandom), serverRandom, fallback);
              ok == r.Some? && (ok ==> r.value == View())
    {
      var typ, cke, buf;
      ok, typ, cke, buf := ReceiveHandshake([]);
      if !ok || typ != 16 {
        return false;
      }
      var pre := DecryptPremaster(cfg, cke, fallback);
      if pre.None? {
        return false;
      }
      var master, keys := ComputeKeys(hash, pre.value, clientRandom, serverRandom);
      ok := ChangeAndFinish(buf, hash, master, keys);
    }

    method DecryptPremaster(cfg: ServerConfig, cke: seq<byte>, fallback: seq<byte>) returns (pre: Option<seq<byte>>)
      ensures pre == Premaster(c, cfg, cke, fallback)
    {
      var enc := cke;
      if |cke| == cfg.keySize + 2 {
        enc := cke[2..];
      }
      pre := Some(fallback);
      match c.decrypt(cfg.key, enc) {
        case Undecryptable => return None;
        case NoMessage =>
        case Message(p) =>
          if |p| == 48 {
            pre := Some(p);
          }
      }
    }

    method ChangeAndFinish(buf: seq<byte>, hash: Hash, master: seq<byte>, keys: Keys) returns (ok: bool)
      requires FixedLength(c)
      modifies this`inbox, this`outbox, this`in_, this`out, this`hs
      ensures var r := FinishWith(c, old(View()), buf, hash, master, keys);
              ok == r.Some? && (ok ==> r.value == View())
    {
      ok := ReceiveChange();
      if !ok {
        return;
      }
      in_ := Some(ClientHalf(keys, hash));
      var want := ComputeFinished(master, CLIENT_FINISHED);
      ok := ReceiveFinished(buf, want);
      if !ok {
        return;
      }
      var data := ComputeFinished(master, SERVER_FINISHED);
      var sfin := HsMsg(20, data);
      SendRecord(REC_CCS, [1]);
      out := Some(ServerHalf(keys, hash));
      SendRecord(REC_HANDSHAKE, sfin);
    }

    /** clientHandshake from the server's Finished. */
    method CheckFinished(buf: seq<byte>, master: seq<byte>, keys: Keys) returns (ok: bool)
      requires FixedLength(c)
      modifies this`inbox, this`in_, this`hs
      ensures var r := ClientFinish(c, ClientState(old(View()), buf, master, keys));
              ok == r.Some? && (ok ==> r.value == View())
    {
      ok := ReceiveChange();
      if !ok {
        return;
      }
      in_ := Some(ServerHalf(keys, MD5));
      var want := ComputeFinished(master, SERVER_FINISHED);
      ok := ReceiveFinished(buf, want);
    }
  }

  lemma {:induction false} JoinedLast(parts: seq<seq<byte>>)
    requires parts != []
    ensures Joined(parts) == Joined(parts[..|parts| - 1]) + parts[|parts| - 1]
    decreases |parts|
  {
    if |parts| == 1 {
      assert parts[1..] == [] && parts[0] + [] == [] + parts[0];
    } else {
      JoinedLast(parts[1..]);
      var n := |parts| - 1;
      assert parts[1..][..n - 1] == parts[..n][1..];
      assert parts[0] + (Joined(parts[..n][1..]) + parts[n]) == (parts[0] + Joined(parts[..n][1..])) + parts[n];
    }
  }

  lemma JoinedThree(parts: seq<seq<byte>>)
    requires |parts| == 3
    ensures Joined(parts) == parts[0] + parts[1] + parts[2]
  {
    assert parts[1..][0] == parts[1] && parts[1..][1..][0] == parts[2] && parts[1..][1..][1..] == [];
    assert Joined(parts[1..][1..]) == parts[2] + [] == parts[2];
    assert parts[0] + (parts[1] + parts[2]) == parts[0] + parts[1] + parts[2];
  }
}
