/** The handshakes of pkg/dnas/tls10.go (server) and pkg/dnas/client.go (client), each cut where it waits
    for the other side, and their agreement. Random values are parameters. */
module TlsHandshake {
  import opened Wrappers
  import opened Bytes
  import opened TlsPrf
  import opened TlsRecords

  const SUITE_RC4_MD5: uint16 := 4
  const SUITE_RC4_SHA: uint16 := 5

  const MASTER_SECRET: seq<byte> := [109, 97, 115, 116, 101, 114, 32, 115, 101, 99, 114, 101, 116]
  const KEY_EXPANSION: seq<byte> := [107, 101, 121, 32, 101, 120, 112, 97, 110, 115, 105, 111, 110]
  const CLIENT_FINISHED: seq<byte> := [99, 108, 105, 101, 110, 116, 32, 102, 105, 110, 105, 115, 104, 101, 100]
  const SERVER_FINISHED: seq<byte> := [115, 101, 114, 118, 101, 114, 32, 102, 105, 110, 105, 115, 104, 101, 100]

  /** One end: the bytes that arrived and were not read, those sent, the record states, the transcript. */
  datatype Conn = Conn(inbox: seq<byte>, outbox: seq<byte>, in_: Option<HalfConn>, out: Option<HalfConn>, hs: seq<byte>)

  const NEW_CONN := Conn([], [], None, None, [])

  function WriteRecord(c: Crypto, s: Conn, typ: byte, data: seq<byte>): Conn {
    var (bytes, out1) := Records(c, s.out, typ, data);
    s.(outbox := s.outbox + bytes, out := out1)
  }

  // ---- Handshake messages -------------------------------------------------------------------

  function HsMsg(typ: byte, body: seq<byte>): seq<byte> {
    [typ] + PutBE24(|body|) + body
  }

  /** The length of the message buf starts with, as far as its header tells. */
  predicate Complete(buf: seq<byte>) {
    |buf| >= 4 && |buf| >= 4 + BE24(buf, 1)
  }

  datatype HsReading = HsFailed | HsRead(typ: byte, body: seq<byte>, s: Conn, buf: seq<byte>)

  /** readHandshake: records are read until buf starts with a whole message. */
  function ReadHandshake(c: Crypto, s: Conn, buf: seq<byte>): HsReading
    decreases |s.inbox|
  {
    if Complete(buf) then
      var n := 4 + BE24(buf, 1);
      HsRead(buf[0], buf[4..n], s.(hs := s.hs + buf[..n]), buf[n..])
    else
      match ReadRecord(c, s.in_, s.inbox)
      case Unreadable => HsFailed
      case Read(typ, body, rest, in1) =>
        if typ != REC_HANDSHAKE then HsFailed
        else ReadHandshake(c, s.(inbox := rest, in_ := in1), buf + body)
  }

  function FinishedData(c: Crypto, master: seq<byte>, label_: seq<byte>, hs: seq<byte>): seq<byte>
    requires FixedLength(c)
  {
    Prf(c, master, label_, c.digest(MD5, hs) + c.digest(SHA1, hs), 12)
  }

  datatype Keys = Keys(clientMac: seq<byte>, serverMac: seq<byte>, clientKey: seq<byte>, serverKey: seq<byte>)

  function Master(c: Crypto, pre: seq<byte>, clientRandom: seq<byte>, serverRandom: seq<byte>): seq<byte>
    requires FixedLength(c)
  {
    Prf(c, pre, MASTER_SECRET, clientRandom + serverRandom, 48)
  }

  function KeyBlock(c: Crypto, hash: Hash, master: seq<byte>, clientRandom: seq<byte>, serverRandom: seq<byte>): Keys
    requires FixedLength(c)
  {
    var m := Size(hash);
    var kb := Prf(c, master, KEY_EXPANSION, serverRandom + clientRandom, 2 * m + 32);
    Keys(kb[..m], kb[m..2 * m], kb[2 * m..2 * m + 16], kb[2 * m + 16..2 * m + 32])
  }

  function ClientHalf(k: Keys, hash: Hash): HalfConn {
    HalfConn(k.clientKey, 0, k.clientMac, hash, 0)
  }

  function ServerHalf(k: Keys, hash: Hash): HalfConn {
    HalfConn(k.serverKey, 0, k.serverMac, hash, 0)
  }

  // ---- Server, first part -------------------------------------------------------------------

  datatype ServerConfig = ServerConfig(certs: seq<seq<byte>>, key: seq<byte>, keySize: nat)

  /** The SSLv2-format ClientHello: its body, the offered cipher suites, the challenge, what follows. */
  datatype Hello = Hello(body: seq<byte>, suites: seq<byte>, challenge: seq<byte>, rest: seq<byte>)

  function ParseHello(wire: seq<byte>): Option<Hello> {
    if |wire| < 2 || wire[0] < 128 then None
    else
      var n := (wire[0] as nat - 128) * 256 + wire[1] as nat;
      if |wire| < 2 + n then None
      else
        var body := wire[2..2 + n];
        if |body| < 9 || body[0] != 1 then None
        else
          var (csl, sidl, chl) := (BE16(body, 3), BE16(body, 5), BE16(body, 7));
          if 9 + csl + sidl + chl > |body| || chl > 32 then None
          else
            var at := 9 + csl + sidl;
            Some(Hello(body, body[9..9 + csl], body[at..at + chl], wire[2 + n..]))
  }

  /** The TLS suites among the three-byte cipher specs. */
  function Offered(suites: seq<byte>): set<uint16> {
    if |suites| < 3 then {}
    else (if suites[0] == 0 then {BE16(suites, 1)} else {}) + Offered(suites[3..])
  }

  function ChooseSuite(offered: set<uint16>): Option<Hash> {
    if SUITE_RC4_MD5 in offered then Some(MD5)
    else if SUITE_RC4_SHA in offered then Some(SHA1)
    else None
  }

  function SuiteCode(h: Hash): uint16 {
    if h == MD5 then SUITE_RC4_MD5 else SUITE_RC4_SHA
  }

  function Zeros(n: nat): (z: seq<byte>)
    ensures |z| == n
  {
    seq(n, _ => 0)
  }

  function ServerHelloBody(hash: Hash, serverRandom: seq<byte>): seq<byte> {
    [3, 1] + serverRandom + [0] + PutBE16(SuiteCode(hash)) + [0]
  }

  function CertList(certs: seq<seq<byte>>): seq<byte> {
    if certs == [] then [] else PutBE24(|certs[0]|) + certs[0] + CertList(certs[1..])
  }

  function CertBody(certs: seq<seq<byte>>): seq<byte> {
    PutBE24(|CertList(certs)|) + CertList(certs)
  }

  function Flight(hash: Hash, serverRandom: seq<byte>, certs: seq<seq<byte>>): seq<byte> {
    HsMsg(2, ServerHelloBody(hash, serverRandom)) + HsMsg(11, CertBody(certs)) + HsMsg(14, [])
  }

  datatype ServerState = ServerState(s: Conn, hash: Hash, clientRandom: seq<byte>)

  /** From the ClientHello to the ServerHelloDone. */
  function ServerHello(c: Crypto, cfg: ServerConfig, s: Conn, serverRandom: seq<byte>): Option<ServerState> {
    match ParseHello(s.inbox)
    case None => None
    case Some(h) =>
      match ChooseSuite(Offered(h.suites))
      case None => None
      case Some(hash) =>
        var s1 := SendFlight(c, s.(inbox := h.rest, hs := s.hs + h.body), Flight(hash, serverRandom, cfg.certs));
        Some(ServerState(s1, hash, Zeros(32 - |h.challenge|) + h.challenge))
  }

  function SendFlight(c: Crypto, s: Conn, flight: seq<byte>): Conn {
    WriteRecord(c, s.(hs := s.hs + flight), REC_HANDSHAKE, flight)
  }

  // ---- Client, first and second part --------------------------------------------------------

  function OldSuites(n: nat): seq<byte>
    requires n < 256
  {
    if n == 0 then [] else OldSuites(n - 1) + [1, 0, n as byte]
  }

  const HELLO_HEAD: seq<byte> := [1, 3, 1, 0, 75, 0, 0, 0, 16]

  function ClientHelloBody(challenge: seq<byte>): seq<byte> {
    HELLO_HEAD + ([0, 0, 4] + OldSuites(24)) + challenge
  }

  function ClientHello(s: Conn, challenge: seq<byte>): Conn {
    SendHello(s, ClientHelloBody(challenge))
  }

  function SendHello(s: Conn, body: seq<byte>): Conn {
    s.(hs := s.hs + body, outbox := s.outbox + [128, (|body| % 256) as byte] + body)
  }

  datatype ClientState = ClientState(s: Conn, buf: seq<byte>, master: seq<byte>, keys: Keys)

  /** The server's random of a ServerHello that chose RC4-MD5. */
  function ParseServerHello(typ: byte, sh: seq<byte>): Option<seq<byte>> {
    if typ != 2 || |sh| < 38 || sh[34] as nat + 37 > |sh| then None
    else if BE16(sh, 35 + sh[34] as nat) != SUITE_RC4_MD5 then None
    else Some(sh[2..34])
  }

  function ParseCertificate(c: Crypto, typ: byte, certs: seq<byte>): Option<seq<byte>> {
    if typ != 11 || |certs| < 6 then None
    else
      var n := BE24(certs, 3);
      if 6 + n > |certs| then None else c.publicKey(certs[6..6 + n])
  }

  function ReadServerHello(c: Crypto, s: Conn): Option<(Conn, seq<byte>, seq<byte>)> {
    match ReadHandshake(c, s, [])
    case HsFailed => None
    case HsRead(typ, sh, s1, buf) =>
      match ParseServerHello(typ, sh)
      case None => None
      case Some(serverRandom) => Some((s1, buf, serverRandom))
  }

  function ReadCertificate(c: Crypto, s: Conn, buf: seq<byte>): Option<(Conn, seq<byte>, seq<byte>)> {
    match ReadHandshake(c, s, buf)
    case HsFailed => None
    case HsRead(typ, certs, s1, buf1) =>
      match ParseCertificate(c, typ, certs)
      case None => None
      case Some(pub) => Some((s1, buf1, pub))
  }

  function ReadHelloDone(c: Crypto, s: Conn, buf: seq<byte>): Option<(Conn, seq<byte>)> {
    match ReadHandshake(c, s, buf)
    case HsFailed => None
    case HsRead(typ, _, s1, buf1) => if typ != 14 then None else Some((s1, buf1))
  }

  /** The three messages of the server's flight: state, what follows, random and public key. */
  function ReadFlight(c: Crypto, s: Conn): Option<(Conn, seq<byte>, seq<byte>, seq<byte>)> {
    match ReadServerHello(c, s)
    case None => None
    case Some((s1, buf1, serverRandom)) =>
      match ReadCertificate(c, s1, buf1)
      case None => None
      case Some((s2, buf2, pub)) =>
        match ReadHelloDone(c, s2, buf2)
        case None => None
        case Some((s3, buf3)) => Some((s3, buf3, serverRandom, pub))
  }

  /** From the server's flight to the client's Finished. rnd is the randomness of the encryption. */
  function ClientKeys(c: Crypto, s: Conn, challenge: seq<byte>, pre: seq<byte>, rnd: seq<byte>): Option<ClientState>
    requires FixedLength(c)
  {
    match ReadFlight(c, s)
    case None => None
    case Some((s1, buf, serverRandom, pub)) =>
        Some(SendKeys(c, s1, buf, Zeros(16) + challenge, serverRandom, pub, pre, rnd))
  }

  function ClientKeyExchange(enc: seq<byte>): seq<byte> {
    HsMsg(16, PutBE16(|enc|) + enc)
  }

  /** The transcript that the client's Finished is computed over. */
  function ClientSeals(c: Crypto, s: Conn, pre: seq<byte>, rnd: seq<byte>): seq<byte> {
    match ReadFlight(c, s)
    case None => []
    case Some((s1, _, _, pub)) => s1.hs + ClientKeyExchange(c.encrypt(pub, rnd, pre))
  }

  function SendKeys(c: Crypto, s: Conn, buf: seq<byte>, clientRandom: seq<byte>, serverRandom: seq<byte>,
                    pub: seq<byte>, pre: seq<byte>, rnd: seq<byte>): ClientState
    requires FixedLength(c)
  {
    var cke := ClientKeyExchange(c.encrypt(pub, rnd, pre));
    var s1 := WriteRecord(c, s.(hs := s.hs + cke), REC_HANDSHAKE, cke);
    var master := Master(c, pre, clientRandom, serverRandom);
    var keys := KeyBlock(c, MD5, master, clientRandom, serverRandom);
    var s2 := WriteRecord(c, s1, REC_CCS, [1]).(out := Some(ClientHalf(keys, MD5)));
    var fin := HsMsg(20, FinishedData(c, master, CLIENT_FINISHED, s2.hs));
    ClientState(WriteRecord(c, s2.(hs := s2.hs + fin), REC_HANDSHAKE, fin), buf, master, keys)
  }

  // ---- Server, second part ------------------------------------------------------------------

  /** ChangeCipherSpec from the other side. */
  function ReadChange(c: Crypto, s: Conn): Option<Conn> {
    match ReadRecord(c, s.in_, s.inbox)
    case Unreadable => None
    case Read(typ, _, rest, in1) => if typ != REC_CCS then None else Some(s.(inbox := rest, in_ := in1))
  }

  /** A Finished message carrying want. */
  function ReadFinished(c: Crypto, s: Conn, buf: seq<byte>, want: seq<byte>): Option<Conn> {
    match ReadHandshake(c, s, buf)
    case HsFailed => None
    case HsRead(typ, fin, s1, _) => if typ != 20 || fin != want then None else Some(s1)
  }

  /** The premaster secret of a ClientKeyExchange, with or without length: None if decryption fails, and
      fallback if there is no message of its size inside. */
  function Premaster(c: Crypto, cfg: ServerConfig, cke: seq<byte>, fallback: seq<byte>): Option<seq<byte>> {
    var enc := if |cke| == cfg.keySize + 2 then cke[2..] else cke;
    match c.decrypt(cfg.key, enc)
    case Undecryptable => None
    case NoMessage => Some(fallback)
    case Message(p) => Some(if |p| == 48 then p else fallback)
  }

  /** From the ClientKeyExchange to the server's Finished. */
  function ServerFinish(c: Crypto, cfg: ServerConfig, st: ServerState, serverRandom: seq<byte>,
                        fallback: seq<byte>): Option<Conn>
    requires FixedLength(c)
  {
    match ReadHandshake(c, st.s, [])
    case HsFailed => None
    case HsRead(typ, cke, s1, buf) =>
      var pre := Premaster(c, cfg, cke, fallback);
      if typ != 16 || pre == None then None
      else
        var master := Master(c, pre.value, st.clientRandom, serverRandom);
        FinishWith(c, s1, buf, st.hash, master, KeyBlock(c, st.hash, master, st.clientRandom, serverRandom))
  }

  /** The transcript that the server checks the client's Finished against. */
  function ServerChecks(c: Crypto, s: Conn): seq<byte> {
    match ReadHandshake(c, s, [])
    case HsFailed => []
    case HsRead(_, _, s1, _) => s1.hs
  }

  /** From the client's ChangeCipherSpec on. */
  function FinishWith(c: Crypto, s: Conn, buf: seq<byte>, hash: Hash, master: seq<byte>, keys: Keys): Option<Conn>
    requires FixedLength(c)
  {
    match ReadChange(c, s)
    case None => None
    case Some(s1) =>
      var s2 := s1.(in_ := Some(ClientHalf(keys, hash)));
      match ReadFinished(c, s2, buf, FinishedData(c, master, CLIENT_FINISHED, s2.hs))
      case None => None
      case Some(s3) => Some(SendFinished(c, s3, hash, master, keys))
  }

  function SendFinished(c: Crypto, s: Conn, hash: Hash, master: seq<byte>, keys: Keys): Conn
    requires FixedLength(c)
  {
    var fin := HsMsg(20, FinishedData(c, master, SERVER_FINISHED, s.hs));
    var s1 := WriteRecord(c, s, REC_CCS, [1]).(out := Some(ServerHalf(keys, hash)));
    WriteRecord(c, s1, REC_HANDSHAKE, fin)
  }

  // ---- Client, last part --------------------------------------------------------------------

  function ClientFinish(c: Crypto, st: ClientState): Option<Conn>
    requires FixedLength(c)
  {
    match ReadChange(c, st.s)
    case None => None
    case Some(s1) =>
      var s2 := s1.(in_ := Some(ServerHalf(st.keys, MD5)));
      ReadFinished(c, s2, st.buf, FinishedData(c, st.master, SERVER_FINISHED, s2.hs))
  }

  // ---- Reading what was written -------------------------------------------------------------

  lemma ReadBuffered(c: Crypto, s: Conn, typ: byte, body: seq<byte>, rest: seq<byte>)
    requires |body| < 0x100_0000
    ensures ReadHandshake(c, s, HsMsg(typ, body) + rest) == HsRead(typ, body, s.(hs := s.hs + HsMsg(typ, body)), rest)
  {
    var msg := HsMsg(typ, body);
    var buf := msg + rest;
    BE24RoundTrip(|body|);
    assert buf[1] == PutBE24(|body|)[0] && buf[2] == PutBE24(|body|)[1] && buf[3] == PutBE24(|body|)[2];
    assert BE24(buf, 1) == |body|;
    assert buf[..4 + |body|] == msg && buf[4..4 + |body|] == body && buf[4 + |body|..] == rest;
  }

  /** A message at the start of a handshake record written with the reader's state. */
  lemma ReadFromRecord(c: Crypto, s: Conn, typ: byte, body: seq<byte>, rest: seq<byte>, tail: seq<byte>)
    requires FixedLength(c) && |HsMsg(typ, body) + rest| <= MAX_FRAGMENT
    requires s.inbox == Record(c, s.in_, REC_HANDSHAKE, HsMsg(typ, body) + rest).0 + tail
    ensures ReadHandshake(c, s, []) ==
            HsRead(typ, body, s.(inbox := tail, in_ := Record(c, s.in_, REC_HANDSHAKE, HsMsg(typ, body) + rest).1,
                                 hs := s.hs + HsMsg(typ, body)), rest)
  {
    var msgs := HsMsg(typ, body) + rest;
    ReadBack(c, s.in_, REC_HANDSHAKE, msgs, tail);
    assert [] + msgs == msgs;
    var s1 := s.(inbox := tail, in_ := Record(c, s.in_, REC_HANDSHAKE, msgs).1);
    ReadBuffered(c, s1, typ, body, rest);
  }

  lemma ReadChangeBack(c: Crypto, s: Conn, tail: seq<byte>)
    requires FixedLength(c) && s.inbox == Record(c, s.in_, REC_CCS, [1]).0 + tail
    ensures ReadChange(c, s) == Some(s.(inbox := tail, in_ := Record(c, s.in_, REC_CCS, [1]).1))
  {
    ReadBack(c, s.in_, REC_CCS, [1], tail);
  }

  lemma OneRecord(c: Crypto, s: Conn, typ: byte, data: seq<byte>)
    requires typ != REC_APP_DATA && |data| <= MAX_FRAGMENT
    ensures WriteRecord(c, s, typ, data) ==
            s.(outbox := s.outbox + Record(c, s.out, typ, data).0, out := Record(c, s.out, typ, data).1)
  {
  }

  // ---- The client's hello is understood -----------------------------------------------------

  lemma {:induction false} OldSuitesShape(n: nat)
    requires n < 256
    ensures |OldSuites(n)| == 3 * n
    ensures forall i :: 0 <= i < n ==> OldSuites(n)[3 * i] == 1
  {
    if n > 0 {
      OldSuitesShape(n - 1);
    }
  }

  lemma {:induction false} NoneOffered(suites: seq<byte>)
    requires |suites| % 3 == 0 && forall i :: 0 <= 3 * i < |suites| ==> suites[3 * i] == 1
    ensures Offered(suites) == {}
    decreases |suites|
  {
    if |suites| >= 3 {
      assert suites[3 * 0] == 1;
      forall i | 0 <= 3 * i < |suites[3..]|
        ensures suites[3..][3 * i] == 1
      {
        assert suites[3..][3 * i] == suites[3 * (i + 1)];
      }
      NoneOffered(suites[3..]);
    }
  }

  lemma FrameParses(body: seq<byte>)
    requires |body| == 100
    ensures var wire := [128, 100] + body;
            wire[0] == 128 && (wire[0] as nat - 128) * 256 + wire[1] as nat == 100 && wire[2..102] == body
                && wire[102..] == []
  {
  }

  lemma HelloParses(suites: seq<byte>, challenge: seq<byte>)
    requires |suites| == 75 && |challenge| == 16
    ensures var body := HELLO_HEAD + suites + challenge;
            && |body| == 100
            && ParseHello([128, 100] + body) == Some(Hello(body, suites, challenge, []))
  {
    var body := HELLO_HEAD + suites + challenge;
    FrameParses(body);
    assert body[..9] == HELLO_HEAD;
    assert body[0] == 1 && BE16(body, 3) == 75 && BE16(body, 5) == 0 && BE16(body, 7) == 16;
    assert body[9..84] == suites && body[84..100] == challenge;
  }

  lemma Rc4Md5Offered()
    ensures |[0, 0, 4] + OldSuites(24)| == 75
    ensures ChooseSuite(Offered([0, 0, 4] + OldSuites(24))) == Some(MD5)
  {
    OldSuitesShape(24);
    var old_ := OldSuites(24);
    var suites: seq<byte> := [0, 0, 4] + old_;
    NoneOffered(old_);
    assert suites[3..] == old_;
    assert suites[0] == 0 && BE16(suites, 1) == 4;
  }

  lemma ClientHelloParses(challenge: seq<byte>)
    requires |challenge| == 16
    ensures var body := ClientHelloBody(challenge);
            && |body| == 100
            && ParseHello([128, 100] + body) == Some(Hello(body, [0, 0, 4] + OldSuites(24), challenge, []))
  {
    Rc4Md5Offered();
    var suites := [0, 0, 4] + OldSuites(24);
    HelloParses(suites, challenge);
    assert ClientHelloBody(challenge) == HELLO_HEAD + suites + challenge;
  }

  // ---- Agreement ----------------------------------------------------------------------------

  /** What the two sides and their random values bring. */
  datatype Setup = Setup(cfg: ServerConfig, challenge: seq<byte>, serverRandom: seq<byte>, pre: seq<byte>,
                         rnd: seq<byte>, fallback: seq<byte>)

  /** The server's leaf certificate carries an RSA key whose private half it has, and sizes are those
      of the protocol; the certificate chain may be of any length. */
  ghost predicate Matching(c: Crypto, x: Setup) {
    && FixedLength(c)
    && |x.challenge| == 16 && |x.serverRandom| == 32 && |x.pre| == 48
    && x.cfg.certs != [] && c.publicKey(x.cfg.certs[0]).Some?
    && var enc := c.encrypt(c.publicKey(x.cfg.certs[0]).value, x.rnd, x.pre);
       && |enc| == x.cfg.keySize && x.cfg.keySize + 6 <= MAX_FRAGMENT
       && c.decrypt(x.cfg.key, enc) == Message(x.pre)
  }

  function ServerFlight(x: Setup): seq<byte> {
    Flight(MD5, x.serverRandom, x.cfg.certs)
  }

  function Hello1(x: Setup): Conn {
    ClientHello(NEW_CONN, x.challenge)
  }

  /** The server accepts the client's hello and answers with its flight, cut at 2^14 bytes. */
  lemma HelloAccepted(c: Crypto, x: Setup)
    requires |x.challenge| == 16
    ensures ServerHello(c, x.cfg, NEW_CONN.(inbox := Hello1(x).outbox), x.serverRandom) ==
            Some(ServerState(Conn([], Record(c, None, REC_HANDSHAKE, Fragment(ServerFlight(x))).0, None, None,
                                  Hello1(x).hs + ServerFlight(x)),
                             MD5, Zeros(16) + x.challenge))
  {
    ClientHelloParses(x.challenge);
    Rc4Md5Offered();
    HelloSent(x);
    AcceptHello(c, x.cfg, NEW_CONN.(inbox := Hello1(x).outbox), x.serverRandom,
                Hello(ClientHelloBody(x.challenge), [0, 0, 4] + OldSuites(24), x.challenge, []));
  }

  lemma HelloSent(x: Setup)
    requires |ClientHelloBody(x.challenge)| == 100
    ensures Hello1(x) == Conn([], [128, 100] + ClientHelloBody(x.challenge), None, None, ClientHelloBody(x.challenge))
  {
    SendFirst(ClientHelloBody(x.challenge));
  }

  lemma SendFirst(body: seq<byte>)
    requires |body| == 100
    ensures SendHello(NEW_CONN, body) == Conn([], [128, 100] + body, None, None, body)
  {
    var head: seq<byte> := [128, 100];
    assert [] + body == body;
    assert [] + head == head;
  }

  lemma AcceptHello(c: Crypto, cfg: ServerConfig, s: Conn, serverRandom: seq<byte>, h: Hello)
    requires s == NEW_CONN.(inbox := s.inbox) && ParseHello(s.inbox) == Some(h) && |h.challenge| == 16
    requires ChooseSuite(Offered(h.suites)) == Some(MD5)
    ensures var flight := Flight(MD5, serverRandom, cfg.certs);
            ServerHello(c, cfg, s, serverRandom) ==
            Some(ServerState(Conn(h.rest, Record(c, None, REC_HANDSHAKE, Fragment(flight)).0, None, None,
                                  h.body + flight),
                             MD5, Zeros(16) + h.challenge))
  {
    var flight := Flight(MD5, serverRandom, cfg.certs);
    AnswerHello(c, s.(inbox := h.rest), h.body, flight);
  }

  lemma AnswerHello(c: Crypto, s: Conn, body: seq<byte>, flight: seq<byte>)
    requires s.out == None && s.hs == s.outbox == []
    ensures SendFlight(c, s.(hs := s.hs + body), flight) ==
            s.(outbox := Record(c, None, REC_HANDSHAKE, Fragment(flight)).0, hs := body + flight)
  {
    var rec := Record(c, None, REC_HANDSHAKE, Fragment(flight));
    assert [] + rec.0 == rec.0 && [] + body == body;
  }

  lemma CertBodyParses(c: Crypto, certs: seq<seq<byte>>)
    requires certs != [] && |CertBody(certs)| < 0x100_0000
    ensures ParseCertificate(c, 11, CertBody(certs)) == c.publicKey(certs[0])
  {
    var list, leaf, len := CertList(certs), certs[0], PutBE24(|certs[0]|);
    var more := CertList(certs[1..]);
    assert list == len + leaf + more;
    var body := CertBody(certs);
    assert body == PutBE24(|list|) + len + leaf + more;
    BE24RoundTrip(|leaf|);
    assert body[3] == len[0] && body[4] == len[1] && body[5] == len[2];
    assert BE24(body, 3) == |leaf|;
    assert body[6..6 + |leaf|] == leaf;
  }

  lemma ServerHelloBodyParses(serverRandom: seq<byte>)
    requires |serverRandom| == 32
    ensures |ServerHelloBody(MD5, serverRandom)| == 38
    ensures ParseServerHello(2, ServerHelloBody(MD5, serverRandom)) == Some(serverRandom)
  {
    var sh := ServerHelloBody(MD5, serverRandom);
    assert sh[34] == 0 && sh[35] == 0 && sh[36] == 4;
    assert sh[2..34] == serverRandom;
  }

  /** The client gets random and key out of a flight that fits one record. */
  lemma FlightRead(c: Crypto, x: Setup)
    requires Matching(c, x) && |ServerFlight(x)| <= MAX_FRAGMENT
    ensures var s := Hello1(x).(inbox := Record(c, None, REC_HANDSHAKE, ServerFlight(x)).0, outbox := []);
            ReadFlight(c, s) == Some((s.(inbox := [], hs := s.hs + ServerFlight(x)), [], x.serverRandom,
                                      c.publicKey(x.cfg.certs[0]).value))
  {
    var (sh, cert) := (ServerHelloBody(MD5, x.serverRandom), CertBody(x.cfg.certs));
    var s := Hello1(x).(inbox := Record(c, None, REC_HANDSHAKE, ServerFlight(x)).0, outbox := []);
    ServerHelloBodyParses(x.serverRandom);
    CertBodyParses(c, x.cfg.certs);
    FlightReadAs(c, s, sh, cert, x.serverRandom, c.publicKey(x.cfg.certs[0]).value);
  }

  lemma FlightReadAs(c: Crypto, s: Conn, sh: seq<byte>, cert: seq<byte>, serverRandom: seq<byte>, pub: seq<byte>)
    requires FixedLength(c) && s.in_ == None
    requires var flight := HsMsg(2, sh) + HsMsg(11, cert) + HsMsg(14, []);
             |flight| <= MAX_FRAGMENT && s.inbox == Record(c, None, REC_HANDSHAKE, flight).0
    requires ParseServerHello(2, sh) == Some(serverRandom) && ParseCertificate(c, 11, cert) == Some(pub)
    ensures var flight := HsMsg(2, sh) + HsMsg(11, cert) + HsMsg(14, []);
            ReadFlight(c, s) == Some((s.(inbox := [], hs := s.hs + flight), [], serverRandom, pub))
  {
    var (m1, m2, m3) := (HsMsg(2, sh), HsMsg(11, cert), HsMsg(14, []));
    var flight := m1 + m2 + m3;
    assert flight == m1 + (m2 + m3);
    FirstOfFlight(c, s, sh, m2 + m3);
    var s1 := s.(inbox := [], hs := s.hs + m1);
    ReadBuffered(c, s1, 11, cert, m3);
    var s2 := s1.(hs := s1.hs + m2);
    LastOfFlight(c, s2);
    FlightFrom(c, s, sh, s1, m2 + m3, cert, s2, m3, s2.(hs := s2.hs + m3), [], serverRandom, pub);
    JoinThree(s.hs, m1, m2, m3);
  }

  lemma JoinThree(h: seq<byte>, a: seq<byte>, b: seq<byte>, c: seq<byte>)
    ensures h + a + b + c == h + (a + b + c)
  {
  }

  lemma FirstOfFlight(c: Crypto, s: Conn, sh: seq<byte>, rest: seq<byte>)
    requires FixedLength(c) && s.in_ == None
    requires |HsMsg(2, sh) + rest| <= MAX_FRAGMENT && s.inbox == Record(c, None, REC_HANDSHAKE, HsMsg(2, sh) + rest).0
    ensures ReadHandshake(c, s, []) == HsRead(2, sh, s.(inbox := [], hs := s.hs + HsMsg(2, sh)), rest)
  {
    assert s.inbox + [] == s.inbox;
    ReadFromRecord(c, s, 2, sh, rest, []);
  }

  lemma LastOfFlight(c: Crypto, s: Conn)
    ensures ReadHandshake(c, s, HsMsg(14, [])) == HsRead(14, [], s.(hs := s.hs + HsMsg(14, [])), [])
  {
    assert HsMsg(14, []) + [] == HsMsg(14, []);
    ReadBuffered(c, s, 14, [], []);
  }

  lemma FlightFrom(c: Crypto, s: Conn, sh: seq<byte>, s1: Conn, buf1: seq<byte>, cert: seq<byte>, s2: Conn,
                   buf2: seq<byte>,
                   s3: Conn, buf3: seq<byte>, serverRandom: seq<byte>, pub: seq<byte>)
    requires ReadHandshake(c, s, []) == HsRead(2, sh, s1, buf1) && ParseServerHello(2, sh) == Some(serverRandom)
    requires ReadHandshake(c, s1, buf1) == HsRead(11, cert, s2, buf2) && ParseCertificate(c, 11, cert) == Some(pub)
    requires ReadHandshake(c, s2, buf2) == HsRead(14, [], s3, buf3)
    ensures ReadFlight(c, s) == Some((s3, buf3, serverRandom, pub))
  {
  }

  /** What one side takes for the transcript at either Finished. */
  datatype Transcripts = Transcripts(atClients: seq<byte>, atServers: seq<byte>)

  /** The outcome of running the five parts against each other over an in-order channel. */
  datatype Outcome = Failed | Agreed(client: Conn, server: Conn, clientHas: Transcripts, serverHas: Transcripts)

  /** The parts in their order; each side gets exactly the bytes the other sent. */
  function Handshake(c: Crypto, x: Setup): Outcome
    requires FixedLength(c)
  {
    var c1 := Hello1(x);
    match ServerHello(c, x.cfg, NEW_CONN.(inbox := c1.outbox), x.serverRandom)
    case None => Failed
    case Some(s1) =>
      var atClient := c1.(inbox := s1.s.outbox, outbox := []);
      match ClientKeys(c, atClient, x.challenge, x.pre, x.rnd)
      case None => Failed
      case Some(c2) =>
        var atServer := s1.s.(inbox := c2.s.outbox, outbox := []);
        match ServerFinish(c, x.cfg, s1.(s := atServer), x.serverRandom, x.fallback)
        case None => Failed
        case Some(s2) =>
          match ClientFinish(c, c2.(s := c2.s.(inbox := s2.outbox, outbox := [])))
          case None => Failed
          case Some(c3) => Agreed(c3, s2, Transcripts(ClientSeals(c, atClient, x.pre, x.rnd), c2.s.hs),
                                  Transcripts(ServerChecks(c, atServer), s2.hs))
  }

  /** The client's last messages as the server finds them: key exchange, change, encrypted Finished. */
  lemma ClientSends(c: Crypto, s: Conn, buf: seq<byte>, cr: seq<byte>, sr: seq<byte>, pub: seq<byte>, pre: seq<byte>,
                    rnd: seq<byte>)
    requires FixedLength(c) && s.out == None && s.outbox == []
    requires |ClientKeyExchange(c.encrypt(pub, rnd, pre))| <= MAX_FRAGMENT
    ensures var st := SendKeys(c, s, buf, cr, sr, pub, pre, rnd);
            var cke := ClientKeyExchange(c.encrypt(pub, rnd, pre));
            var master := Master(c, pre, cr, sr);
            var keys := KeyBlock(c, MD5, master, cr, sr);
            var fin := HsMsg(20, FinishedData(c, master, CLIENT_FINISHED, s.hs + cke));
            var half := Some(ClientHalf(keys, MD5));
            st == ClientState(Conn(s.inbox,
                                   Record(c, None, REC_HANDSHAKE, cke).0
                                       + (Record(c, None, REC_CCS, [1]).0 + Record(c, half, REC_HANDSHAKE, fin).0),
                                   s.in_, Record(c, half, REC_HANDSHAKE, fin).1, s.hs + cke + fin),
                              buf, master, keys)
  {
    var cke := ClientKeyExchange(c.encrypt(pub, rnd, pre));
    var master := Master(c, pre, cr, sr);
    var keys := KeyBlock(c, MD5, master, cr, sr);
    WriteThree(c, s.(hs := s.hs + cke), cke, Some(ClientHalf(keys, MD5)),
               HsMsg(20, FinishedData(c, master, CLIENT_FINISHED, s.hs + cke)));
  }

  /** Two records in the clear and, after the change, one encrypted. */
  lemma WriteThree(c: Crypto, s: Conn, m1: seq<byte>, half: Option<HalfConn>, m2: seq<byte>)
    requires FixedLength(c) && s.out == None && s.outbox == [] && |m1| <= MAX_FRAGMENT && |m2| <= MAX_FRAGMENT
    ensures var s2 := WriteRecord(c, WriteRecord(c, s, REC_HANDSHAKE, m1), REC_CCS, [1]).(out := half);
            && s2.hs == s.hs
            && WriteRecord(c, s2.(hs := s2.hs + m2), REC_HANDSHAKE, m2) ==
               Conn(s.inbox,
                    Record(c, None, REC_HANDSHAKE, m1).0
                        + (Record(c, None, REC_CCS, [1]).0 + Record(c, half, REC_HANDSHAKE, m2).0),
                    s.in_, Record(c, half, REC_HANDSHAKE, m2).1, s.hs + m2)
  {
    var (a, b, d) := (Record(c, None, REC_HANDSHAKE, m1).0, Record(c, None, REC_CCS, [1]).0,
                      Record(c, half, REC_HANDSHAKE, m2).0);
    OneRecord(c, s, REC_HANDSHAKE, m1);
    var s1 := WriteRecord(c, s, REC_HANDSHAKE, m1);
    assert s1.out == None;
    OneRecord(c, s1, REC_CCS, [1]);
    var s2 := WriteRecord(c, s1, REC_CCS, [1]).(out := half);
    OneRecord(c, s2.(hs := s2.hs + m2), REC_HANDSHAKE, m2);
    JoinFromEmpty(a, b, d);
  }

  lemma JoinFromEmpty(a: seq<byte>, b: seq<byte>, d: seq<byte>)
    ensures [] + a + b + d == a + (b + d)
  {
  }

  /** The server reads them: it finds the Finished it wants and is in step with the client. */
  lemma ServerReads(c: Crypto, cfg: ServerConfig, s: Conn, cr: seq<byte>, sr: seq<byte>, fallback: seq<byte>,
                    enc: seq<byte>, pre: seq<byte>)
    requires FixedLength(c) && |pre| == 48
    requires |enc| == cfg.keySize && cfg.keySize + 6 <= MAX_FRAGMENT && c.decrypt(cfg.key, enc) == Message(pre)
    requires s.in_ == None && s.out == None && s.outbox == []
    requires var cke := ClientKeyExchange(enc);
             var master := Master(c, pre, cr, sr);
             var half := Some(ClientHalf(KeyBlock(c, MD5, master, cr, sr), MD5));
             var fin := HsMsg(20, FinishedData(c, master, CLIENT_FINISHED, s.hs + cke));
             s.inbox == Record(c, None, REC_HANDSHAKE, cke).0
                        + (Record(c, None, REC_CCS, [1]).0 + Record(c, half, REC_HANDSHAKE, fin).0)
    ensures var cke := ClientKeyExchange(enc);
            var master := Master(c, pre, cr, sr);
            var keys := KeyBlock(c, MD5, master, cr, sr);
            var half := Some(ClientHalf(keys, MD5));
            var fin := HsMsg(20, FinishedData(c, master, CLIENT_FINISHED, s.hs + cke));
            && ServerChecks(c, s) == s.hs + cke
            && ServerFinish(c, cfg, ServerState(s, MD5, cr), sr, fallback) ==
            Some(SendFinished(c, s.(inbox := [], in_ := Record(c, half, REC_HANDSHAKE, fin).1, hs := s.hs + cke + fin),
                              MD5, master, keys))
  {
    var body := PutBE16(|enc|) + enc;
    var cke := ClientKeyExchange(enc);
    var master := Master(c, pre, cr, sr);
    var keys := KeyBlock(c, MD5, master, cr, sr);
    var half := Some(ClientHalf(keys, MD5));
    var fin := HsMsg(20, FinishedData(c, master, CLIENT_FINISHED, s.hs + cke));
    var tail := Record(c, None, REC_CCS, [1]).0 + Record(c, half, REC_HANDSHAKE, fin).0;
    ReadWhole(c, s, 16, body, tail);
    assert body[2..] == enc && Premaster(c, cfg, body, fallback) == Some(pre);
    FinishReads(c, s.(inbox := tail, hs := s.hs + cke), MD5, master, keys);
  }

  lemma FinishReads(c: Crypto, s: Conn, hash: Hash, master: seq<byte>, keys: Keys)
    requires FixedLength(c) && s.in_ == None
    requires var fin := HsMsg(20, FinishedData(c, master, CLIENT_FINISHED, s.hs));
             s.inbox == Record(c, None, REC_CCS, [1]).0 + Record(c, Some(ClientHalf(keys, hash)), REC_HANDSHAKE, fin).0
    ensures var fin := HsMsg(20, FinishedData(c, master, CLIENT_FINISHED, s.hs));
            FinishWith(c, s, [], hash, master, keys) ==
            Some(SendFinished(c, s.(inbox := [], in_ := Record(c, Some(ClientHalf(keys, hash)), REC_HANDSHAKE, fin).1,
                                    hs := s.hs + fin),
                              hash, master, keys))
  {
    var half := Some(ClientHalf(keys, hash));
    var want := FinishedData(c, master, CLIENT_FINISHED, s.hs);
    var d := Record(c, half, REC_HANDSHAKE, HsMsg(20, want)).0;
    ReadChangeBack(c, s, d);
    assert d + [] == d;
    ReadWhole(c, s.(inbox := d, in_ := half), 20, want, []);
  }

  /** A record holding exactly one message. */
  lemma ReadWhole(c: Crypto, s: Conn, typ: byte, body: seq<byte>, tail: seq<byte>)
    requires FixedLength(c) && |HsMsg(typ, body)| <= MAX_FRAGMENT
    requires s.inbox == Record(c, s.in_, REC_HANDSHAKE, HsMsg(typ, body)).0 + tail
    ensures ReadHandshake(c, s, []) ==
            HsRead(typ, body, s.(inbox := tail, in_ := Record(c, s.in_, REC_HANDSHAKE, HsMsg(typ, body)).1,
                                 hs := s.hs + HsMsg(typ, body)), [])
  {
    assert HsMsg(typ, body) + [] == HsMsg(typ, body);
    ReadFromRecord(c, s, typ, body, [], tail);
  }

  /** The server's Finished reaches the client, which finds what it wants. */
  lemma ClientReads(c: Crypto, server: Conn, client: ClientState)
    requires FixedLength(c) && server.out == None && server.outbox == [] && client.s.in_ == None && client.buf == []
    requires server.hs == client.s.hs
    requires client.s.inbox == SendFinished(c, server, MD5, client.master, client.keys).outbox
    ensures var s1 := SendFinished(c, server, MD5, client.master, client.keys);
            && s1.in_ == server.in_ && s1.inbox == server.inbox && s1.hs == server.hs
            && ClientFinish(c, client).Some?
            && ClientFinish(c, client).value.in_ == s1.out
            && ClientFinish(c, client).value.out == client.s.out
            && ClientFinish(c, client).value.inbox == []
  {
    var half := Some(ServerHalf(client.keys, MD5));
    var want := FinishedData(c, client.master, SERVER_FINISHED, server.hs);
    var fin := HsMsg(20, want);
    var (b, d) := (Record(c, None, REC_CCS, [1]).0, Record(c, half, REC_HANDSHAKE, fin).0);
    OneRecord(c, server, REC_CCS, [1]);
    var s1 := WriteRecord(c, server, REC_CCS, [1]).(out := half);
    OneRecord(c, s1, REC_HANDSHAKE, fin);
    assert [] + b == b;
    assert client.s.inbox == b + d;
    ReadChangeBack(c, client.s, d);
    var c1 := client.s.(inbox := d, in_ := half);
    assert d + [] == d;
    ReadWhole(c, c1, 20, want, []);
  }

  /** With matching certificate and key and a flight of one record, the handshakes succeed against each
      other: what one computes its Finished over is what the other checks it against, and the second
      transcript is the first with the client's Finished; each side writes with exactly the state (key,
      stream position, MAC key, count) the other reads with. */
  lemma HandshakesAgree(c: Crypto, x: Setup)
    requires Matching(c, x) && |ServerFlight(x)| <= MAX_FRAGMENT
    ensures var r := Handshake(c, x);
            && r.Agreed?
            && r.client.out == r.server.in_ && r.server.out == r.client.in_
            && r.client.out.Some? && r.server.out.Some?
            && r.clientHas == r.serverHas
            && r.clientHas.atServers == r.clientHas.atClients + ClientFinished(c, x, r.clientHas.atClients)
            && r.client.inbox == [] && r.server.inbox == []
  {
    HelloAccepted(c, x);
    assert Fragment(ServerFlight(x)) == ServerFlight(x);
    var c2 := ClientAnswers(c, x);
    var s2 := ServerAnswers(c, x, c2);
    HandshakeParts(c, x, c2, s2);
  }

  /** The states the two are left in. */
  lemma HandshakeStates(c: Crypto, x: Setup)
    requires Matching(c, x) && |ServerFlight(x)| <= MAX_FRAGMENT
    ensures var r := Handshake(c, x);
            var master := Master(c, x.pre, ClientRandom(x), x.serverRandom);
            var keys := KeyBlock(c, MD5, master, ClientRandom(x), x.serverRandom);
            && r.Agreed? && r.client.out == Some(HalfConn(keys.clientKey, 32, keys.clientMac, MD5, 1))
            && r.server.out == Some(HalfConn(keys.serverKey, 32, keys.serverMac, MD5, 1))
  {
    HelloAccepted(c, x);
    assert Fragment(ServerFlight(x)) == ServerFlight(x);
    var c2 := ClientAnswers(c, x);
    var s2 := ServerAnswers(c, x, c2);
    HandshakeParts(c, x, c2, s2);
    ClientLeft(c, x, c2);
  }

  lemma ClientLeft(c: Crypto, x: Setup, c2: ClientState)
    requires Matching(c, x)
    requires c2 == SendKeys(c, Conn([], [], None, None, TranscriptOfHellos(x)), [], ClientRandom(x), x.serverRandom,
                            c.publicKey(x.cfg.certs[0]).value, x.pre, x.rnd)
    ensures c2.keys == KeyBlock(c, MD5, Master(c, x.pre, ClientRandom(x), x.serverRandom), ClientRandom(x),
                                x.serverRandom)
    ensures c2.s.out == Some(HalfConn(c2.keys.clientKey, 32, c2.keys.clientMac, MD5, 1))
  {
    var pub, hs := c.publicKey(x.cfg.certs[0]).value, TranscriptOfHellos(x);
    ClientSends(c, Conn([], [], None, None, hs), [], ClientRandom(x), x.serverRandom, pub, x.pre, x.rnd);
    FinishedSent(c, ClientHalf(c2.keys, MD5), ClientFinished(c, x, TranscriptOfKeys(c, x)));
  }

  /** The state after a Finished, 4 + 12 bytes and a MAC of 16. */
  lemma FinishedSent(c: Crypto, h: HalfConn, fin: seq<byte>)
    requires FixedLength(c) && h.hash == MD5 && |fin| == 16 && h.pos == 0 && h.count == 0
    ensures Record(c, Some(h), REC_HANDSHAKE, fin).1 == Some(HalfConn(h.key, 32, h.macKey, MD5, 1))
  {
  }

  lemma ServerLeft(c: Crypto, s: Conn, master: seq<byte>, keys: Keys)
    requires FixedLength(c) && s.out == None
    ensures SendFinished(c, s, MD5, master, keys).out == Some(HalfConn(keys.serverKey, 32, keys.serverMac, MD5, 1))
  {
    var fin := HsMsg(20, FinishedData(c, master, SERVER_FINISHED, s.hs));
    var s1 := WriteRecord(c, s, REC_CCS, [1]).(out := Some(ServerHalf(keys, MD5)));
    OneRecord(c, s1, REC_HANDSHAKE, fin);
    FinishedSent(c, ServerHalf(keys, MD5), fin);
  }

  /** The client's Finished over a transcript. */
  function ClientFinished(c: Crypto, x: Setup, transcript: seq<byte>): seq<byte>
    requires FixedLength(c)
  {
    HsMsg(20, FinishedData(c, Master(c, x.pre, ClientRandom(x), x.serverRandom), CLIENT_FINISHED, transcript))
  }

  /** The hellos, the certificate and the client's key exchange. */
  function TranscriptOfKeys(c: Crypto, x: Setup): seq<byte>
    requires Matching(c, x)
  {
    TranscriptOfHellos(x) + ClientKeyExchange(c.encrypt(c.publicKey(x.cfg.certs[0]).value, x.rnd, x.pre))
  }

  function TranscriptOfHellos(x: Setup): seq<byte> {
    Hello1(x).hs + ServerFlight(x)
  }

  function ClientRandom(x: Setup): seq<byte> {
    Zeros(16) + x.challenge
  }

  lemma ClientAnswers(c: Crypto, x: Setup) returns (c2: ClientState)
    requires Matching(c, x) && |ServerFlight(x)| <= MAX_FRAGMENT
    ensures c2 == SendKeys(c, Conn([], [], None, None, TranscriptOfHellos(x)), [], ClientRandom(x), x.serverRandom,
                           c.publicKey(x.cfg.certs[0]).value, x.pre, x.rnd)
    ensures ClientKeys(c, Hello1(x).(inbox := Record(c, None, REC_HANDSHAKE, ServerFlight(x)).0, outbox := []),
                       x.challenge, x.pre, x.rnd) == Some(c2)
    ensures ClientSeals(c, Hello1(x).(inbox := Record(c, None, REC_HANDSHAKE, ServerFlight(x)).0, outbox := []),
                        x.pre, x.rnd) == TranscriptOfKeys(c, x)
  {
    FlightRead(c, x);
    c2 := SendKeys(c, Conn([], [], None, None, TranscriptOfHellos(x)), [], ClientRandom(x), x.serverRandom,
                   c.publicKey(x.cfg.certs[0]).value, x.pre, x.rnd);
  }

  lemma ServerAnswers(c: Crypto, x: Setup, c2: ClientState) returns (s2: Conn)
    requires Matching(c, x)
    requires c2 == SendKeys(c, Conn([], [], None, None, TranscriptOfHellos(x)), [], ClientRandom(x), x.serverRandom,
                            c.publicKey(x.cfg.certs[0]).value, x.pre, x.rnd)
    ensures ServerFinish(c, x.cfg,
                         ServerState(Conn(c2.s.outbox, [], None, None, TranscriptOfHellos(x)), MD5, ClientRandom(x)),
                         x.serverRandom, x.fallback) == Some(s2)
    ensures s2.in_ == c2.s.out && s2.in_.Some? && s2.inbox == [] && s2.hs == c2.s.hs
    ensures ServerChecks(c, Conn(c2.s.outbox, [], None, None, TranscriptOfHellos(x))) == TranscriptOfKeys(c, x)
    ensures c2.s.hs == TranscriptOfKeys(c, x) + ClientFinished(c, x, TranscriptOfKeys(c, x))
    ensures s2.out == Some(HalfConn(c2.keys.serverKey, 32, c2.keys.serverMac, MD5, 1))
    ensures var r := ClientFinish(c, c2.(s := c2.s.(inbox := s2.outbox, outbox := [])));
            r.Some? && r.value.in_ == s2.out && s2.out.Some? && r.value.out == c2.s.out && r.value.inbox == []
  {
    var pub, cr, hs := c.publicKey(x.cfg.certs[0]).value, ClientRandom(x), TranscriptOfHellos(x);
    ClientSends(c, Conn([], [], None, None, hs), [], cr, x.serverRandom, pub, x.pre, x.rnd);
    ServerReads(c, x.cfg, Conn(c2.s.outbox, [], None, None, hs), cr, x.serverRandom, x.fallback,
                c.encrypt(pub, x.rnd, x.pre), x.pre);
    var before := Conn([], [], c2.s.out, None, c2.s.hs);
    s2 := SendFinished(c, before, MD5, c2.master, c2.keys);
    ServerLeft(c, before, c2.master, c2.keys);
    ClientReads(c, before, c2.(s := c2.s.(inbox := s2.outbox, outbox := [])));
  }

  lemma HandshakeParts(c: Crypto, x: Setup, c2: ClientState, s2: Conn)
    requires Matching(c, x)
    requires ServerHello(c, x.cfg, NEW_CONN.(inbox := Hello1(x).outbox), x.serverRandom) ==
             Some(ServerState(Conn([], Record(c, None, REC_HANDSHAKE, ServerFlight(x)).0, None, None,
                                   TranscriptOfHellos(x)), MD5, ClientRandom(x)))
    requires ClientKeys(c, Hello1(x).(inbox := Record(c, None, REC_HANDSHAKE, ServerFlight(x)).0, outbox := []),
                        x.challenge, x.pre, x.rnd) == Some(c2)
    requires ServerFinish(c, x.cfg,
                          ServerState(Conn(c2.s.outbox, [], None, None, TranscriptOfHellos(x)), MD5,
                                      ClientRandom(x)), x.serverRandom, x.fallback) == Some(s2)
    requires ClientSeals(c, Hello1(x).(inbox := Record(c, None, REC_HANDSHAKE, ServerFlight(x)).0, outbox := []),
                         x.pre, x.rnd) == TranscriptOfKeys(c, x)
    requires ServerChecks(c, Conn(c2.s.outbox, [], None, None, TranscriptOfHellos(x))) == TranscriptOfKeys(c, x)
    requires ClientFinish(c, c2.(s := c2.s.(inbox := s2.outbox, outbox := []))).Some?
    ensures Handshake(c, x) ==
            Agreed(ClientFinish(c, c2.(s := c2.s.(inbox := s2.outbox, outbox := []))).value, s2,
                   Transcripts(TranscriptOfKeys(c, x), c2.s.hs), Transcripts(TranscriptOfKeys(c, x), s2.hs))
  {
  }

  // ---- A flight longer than a record --------------------------------------------------------

  lemma NothingMoreToRead(c: Crypto, s: Conn, buf: seq<byte>)
    requires s.inbox == [] && !Complete(buf)
    ensures ReadHandshake(c, s, buf) == HsFailed
  {
  }

  /** The beginning of a message is not a message. */
  lemma CutMessageIncomplete(typ: byte, body: seq<byte>, k: nat)
    requires |body| < 0x100_0000 && k < |HsMsg(typ, body)|
    ensures !Complete(HsMsg(typ, body)[..k])
  {
    var msg := HsMsg(typ, body);
    if k >= 4 {
      BE24RoundTrip(|body|);
      assert msg[..k][1] == PutBE24(|body|)[0] && msg[..k][2] == PutBE24(|body|)[1]
          && msg[..k][3] == PutBE24(|body|)[2];
    }
  }

  /** The client waits in vain for the rest of a flight that was cut. */
  lemma CutFlightFails(c: Crypto, s: Conn, sh: seq<byte>, cert: seq<byte>)
    requires FixedLength(c) && s.in_ == None && |sh| == 38 && |cert| < 0x100_0000
    requires var flight := HsMsg(2, sh) + HsMsg(11, cert) + HsMsg(14, []);
             |flight| > MAX_FRAGMENT && s.inbox == Record(c, None, REC_HANDSHAKE, flight[..MAX_FRAGMENT]).0
    ensures ReadFlight(c, s) == None
  {
    var (m1, m2, m3) := (HsMsg(2, sh), HsMsg(11, cert), HsMsg(14, []));
    var flight := m1 + m2 + m3;
    var rest := (m2 + m3)[..MAX_FRAGMENT - 42];
    assert |m1| == 42 && flight[..MAX_FRAGMENT] == m1 + rest;
    FirstOfFlight(c, s, sh, rest);
    var s1 := s.(inbox := [], hs := s.hs + m1);
    var k := |rest|;
    if k < |m2| {
      assert rest == m2[..k];
      CutMessageIncomplete(11, cert, k);
      NothingMoreToRead(c, s1, rest);
    } else {
      assert rest == m2 + m3[..k - |m2|];
      ReadBuffered(c, s1, 11, cert, m3[..k - |m2|]);
      CutMessageIncomplete(14, [], k - |m2|);
      NothingMoreToRead(c, s1.(hs := s1.hs + m2), m3[..k - |m2|]);
    }
  }

  /** writeRecord sends only the first 2^14 bytes of a flight: the handshakes succeed exactly if the
      certificate chain leaves the flight that short. */
  lemma HandshakesAgreeExactly(c: Crypto, x: Setup)
    requires Matching(c, x) && |CertBody(x.cfg.certs)| < 0x100_0000
    ensures Handshake(c, x).Agreed? <==> |ServerFlight(x)| <= MAX_FRAGMENT
  {
    if |ServerFlight(x)| <= MAX_FRAGMENT {
      HandshakesAgree(c, x);
    } else {
      HelloAccepted(c, x);
      ServerHelloBodyParses(x.serverRandom);
      CutFlightFails(c, Hello1(x).(inbox := Record(c, None, REC_HANDSHAKE, ServerFlight(x)[..MAX_FRAGMENT]).0,
                                   outbox := []),
                     ServerHelloBody(MD5, x.serverRandom), CertBody(x.cfg.certs));
    }
  }

  predicate Carries(c: Crypto, out: Option<HalfConn>, in_: Option<HalfConn>, steps: seq<PipeStep>) {
    var p := RunPipe(c, Pipe(out, [], in_, [], [], []), steps);
    p.Some? && p.value.read_ <= p.value.written
  }

  /** After the handshake, whatever either side writes and the other reads, in any sizes and any order,
      goes through, in both directions. */
  lemma ConnectionCarriesData(c: Crypto, x: Setup, up: seq<PipeStep>, down: seq<PipeStep>)
    requires Matching(c, x) && |ServerFlight(x)| <= MAX_FRAGMENT
    ensures var r := Handshake(c, x);
            && r.Agreed?
            && Carries(c, r.client.out, r.server.in_, up)
            && Carries(c, r.server.out, r.client.in_, down)
  {
    HandshakesAgree(c, x);
    var r := Handshake(c, x);
    StreamRoundTrip(c, r.client.out, up);
    StreamRoundTrip(c, r.server.out, down);
  }
}
