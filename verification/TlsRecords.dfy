/** The record layer of pkg/dnas/tls10.go: records are framed, authenticated and encrypted with state that
    moves along on both sides (sections 6.2.1 and 6.2.3.1 of RFC 2246). */
module TlsRecords {
  import opened Wrappers
  import opened Bytes
  import opened TlsPrf

  const REC_CCS: byte := 20
  const REC_ALERT: byte := 21
  const REC_HANDSHAKE: byte := 22
  const REC_APP_DATA: byte := 23
  const MAX_FRAGMENT: nat := 16384

  /** One direction of an encrypted connection: the RC4 key and how far its stream is used, the MAC key
      and hash, and the record count. */
  datatype HalfConn = HalfConn(key: seq<byte>, pos: nat, macKey: seq<byte>, hash: Hash, count: uint64)

  function PutBE64(n: uint64): seq<byte> {
    PutBE16(n / 0x1_0000_0000_0000 % 0x1_0000) + PutBE16(n / 0x1_0000_0000 % 0x1_0000)
    + PutBE16(n / 0x1_0000 % 0x1_0000) + PutBE16(n % 0x1_0000)
  }

  /** halfConn.mac: HMAC over the record count, type, version, length and content. */
  function Mac(c: Crypto, h: HalfConn, typ: byte, data: seq<byte>): seq<byte> {
    c.hmac(h.hash, h.macKey, PutBE64(h.count) + [typ, 3, 1] + PutBE16(|data| % 0x1_0000) + data)
  }

  /** XORKeyStream from position pos of the key's stream. */
  function Crypt(c: Crypto, key: seq<byte>, pos: nat, data: seq<byte>): (r: seq<byte>)
    ensures |r| == |data|
  {
    seq(|data|, i requires 0 <= i < |data| => Xor(data[i], c.keystream(key, pos + i)))
  }

  lemma CryptTwice(c: Crypto, key: seq<byte>, pos: nat, data: seq<byte>)
    ensures Crypt(c, key, pos, Crypt(c, key, pos, data)) == data
  {
    forall i | 0 <= i < |data|
      ensures Xor(Xor(data[i], c.keystream(key, pos + i)), c.keystream(key, pos + i)) == data[i]
    {
      XorCancels(data[i], c.keystream(key, pos + i));
    }
  }

  /** h after a record with n encrypted bytes. */
  function Used(h: HalfConn, n: nat): HalfConn {
    h.(pos := h.pos + n, count := (h.count + 1) % 0x1_0000_0000_0000_0000)
  }

  // ---- Writing ------------------------------------------------------------------------------

  /** What goes into a record for fragment frag, and the state after it. */
  function Seal(c: Crypto, out: Option<HalfConn>, typ: byte, frag: seq<byte>): (seq<byte>, Option<HalfConn>) {
    match out
    case None => (frag, None)
    case Some(h) =>
      var plain := frag + Mac(c, h, typ, frag);
      (Crypt(c, h.key, h.pos, plain), Some(Used(h, |plain|)))
  }

  function Record(c: Crypto, out: Option<HalfConn>, typ: byte, frag: seq<byte>): (seq<byte>, Option<HalfConn>) {
    var (body, out1) := Seal(c, out, typ, frag);
    ([typ, 3, 1] + PutBE16(|body|) + body, out1)
  }

  function Fragment(data: seq<byte>): seq<byte> {
    if |data| > MAX_FRAGMENT then data[..MAX_FRAGMENT] else data
  }

  /** writeRecord: application data in fragments; of anything else only the first fragment. */
  function Records(c: Crypto, out: Option<HalfConn>, typ: byte, data: seq<byte>): (seq<byte>, Option<HalfConn>)
    decreases |data|
  {
    if typ != REC_APP_DATA then Record(c, out, typ, Fragment(data))
    else if data == [] then ([], out)
    else
      var (first, out1) := Record(c, out, typ, Fragment(data));
      var (rest, out2) := Records(c, out1, typ, data[|Fragment(data)|..]);
      (first + rest, out2)
  }

  // ---- Reading ------------------------------------------------------------------------------

  /** What reading a record gives: its type and content, the bytes behind it and the state after it. */
  datatype Reading = Unreadable | Read(typ: byte, body: seq<byte>, rest: seq<byte>, in1: Option<HalfConn>)

  /** Undoes Seal if the MAC is right. */
  function Open(c: Crypto, in_: Option<HalfConn>, typ: byte, body: seq<byte>): Option<(seq<byte>, Option<HalfConn>)> {
    match in_
    case None => Some((body, None))
    case Some(h) =>
      var plain := Crypt(c, h.key, h.pos, body);
      if |plain| < Size(h.hash) then None
      else
        var data := plain[..|plain| - Size(h.hash)];
        if plain[|data|..] != Mac(c, h, typ, data) then None
        else Some((data, Some(Used(h, |plain|))))
  }

  /** readRecord on the bytes that arrived; one that is not there completely is not readable. */
  function ReadRecord(c: Crypto, in_: Option<HalfConn>, wire: seq<byte>): (r: Reading)
    ensures r.Read? ==> |r.rest| < |wire|
  {
    if |wire| < 5 || |wire| < 5 + BE16(wire, 3) then Unreadable
    else
      var n := BE16(wire, 3);
      match Open(c, in_, wire[0], wire[5..5 + n])
      case None => Unreadable
      case Some((body, in1)) => Read(wire[0], body, wire[5 + n..], in1)
  }

  /** Reading with the writer's state gives back type and fragment, and the writer's next state. */
  lemma ReadBack(c: Crypto, half: Option<HalfConn>, typ: byte, frag: seq<byte>, rest: seq<byte>)
    requires FixedLength(c) && |frag| <= MAX_FRAGMENT
    ensures var (rec, next) := Record(c, half, typ, frag);
            ReadRecord(c, half, rec + rest) == Read(typ, frag, rest, next)
  {
    var (body, next) := Seal(c, half, typ, frag);
    var rec := Record(c, half, typ, frag).0;
    SealedSize(c, half, typ, frag);
    OpenSealed(c, half, typ, frag);
    BE16RoundTrip(|body|);
    var wire := rec + rest;
    assert wire[3] == PutBE16(|body|)[0] && wire[4] == PutBE16(|body|)[1] && wire[0] == typ;
    assert wire[5..5 + |body|] == body && wire[5 + |body|..] == rest;
  }

  lemma SealedSize(c: Crypto, half: Option<HalfConn>, typ: byte, frag: seq<byte>)
    requires FixedLength(c)
    ensures |Seal(c, half, typ, frag).0| <= |frag| + 20
  {
  }

  lemma OpenSealed(c: Crypto, half: Option<HalfConn>, typ: byte, frag: seq<byte>)
    requires FixedLength(c)
    ensures Open(c, half, typ, Seal(c, half, typ, frag).0) == Some((frag, Seal(c, half, typ, frag).1))
  {
    match half
    case None =>
    case Some(h) =>
      var mac := Mac(c, h, typ, frag);
      var plain := frag + mac;
      CryptTwice(c, h.key, h.pos, plain);
      assert |mac| == Size(h.hash);
      assert plain[..|frag|] == frag && plain[|frag|..] == mac;
  }

  // ---- A direction of application data ------------------------------------------------------

  /** The content of the application data records in wire, and the state behind them. */
  function Content(c: Crypto, in_: Option<HalfConn>, wire: seq<byte>): Option<(seq<byte>, Option<HalfConn>)>
    decreases |wire|
  {
    if wire == [] then Some(([], in_))
    else
      match ReadRecord(c, in_, wire)
      case Unreadable => None
      case Read(typ, body, rest, in1) =>
        if typ != REC_APP_DATA || |body| > MAX_FRAGMENT then None
        else
          match Content(c, in1, rest)
          case None => None
          case Some((more, in2)) => Some((body + more, in2))
  }

  lemma {:induction false} ContentOfRecords(c: Crypto, half: Option<HalfConn>, data: seq<byte>)
    requires FixedLength(c)
    ensures var (wire, half1) := Records(c, half, REC_APP_DATA, data);
            Content(c, half, wire) == Some((data, half1))
    decreases |data|
  {
    if data != [] {
      var frag := Fragment(data);
      var (first, half1) := Record(c, half, REC_APP_DATA, frag);
      var (rest, half2) := Records(c, half1, REC_APP_DATA, data[|frag|..]);
      ReadBack(c, half, REC_APP_DATA, frag, rest);
      ContentOfRecords(c, half1, data[|frag|..]);
      RecordsStep(c, half, data);
      ContentOfRecord(c, half, first + rest);
      assert frag + data[|frag|..] == data;
    }
  }

  lemma RecordsStep(c: Crypto, half: Option<HalfConn>, data: seq<byte>)
    requires data != []
    ensures var (first, half1) := Record(c, half, REC_APP_DATA, Fragment(data));
            var (rest, half2) := Records(c, half1, REC_APP_DATA, data[|Fragment(data)|..]);
            Records(c, half, REC_APP_DATA, data) == (first + rest, half2) && |Fragment(data)| <= MAX_FRAGMENT
  {
  }

  function Before(x: seq<byte>, more: Option<(seq<byte>, Option<HalfConn>)>): Option<(seq<byte>, Option<HalfConn>)> {
    match more
    case None => None
    case Some((y, half)) => Some((x + y, half))
  }

  lemma BeforeTwice(x: seq<byte>, y: seq<byte>, more: Option<(seq<byte>, Option<HalfConn>)>)
    ensures Before(x, Before(y, more)) == Before(x + y, more)
  {
    match more
    case None =>
    case Some((z, _)) => assert x + (y + z) == (x + y) + z;
  }

  /** Records behind records. */
  lemma {:induction false} ContentAppends(c: Crypto, half: Option<HalfConn>, a: seq<byte>, b: seq<byte>)
    requires Content(c, half, a).Some?
    ensures var (x, half1) := Content(c, half, a).value;
            Content(c, half, a + b) == Before(x, Content(c, half1, b))
    decreases |a|
  {
    if a == [] {
      assert a + b == b;
      BeforeTwice([], [], Content(c, half, b));
      assert forall y: seq<byte> :: [] + y == y;
    } else {
      var r := ReadRecord(c, half, a);
      ReadAhead(c, half, a, b);
      ContentAppends(c, r.in1, r.rest, b);
      var (x, half1) := Content(c, r.in1, r.rest).value;
      BeforeTwice(r.body, x, Content(c, half1, b));
      ContentOfRecord(c, half, a + b);
      ContentOfRecord(c, half, a);
    }
  }

  lemma ContentOfRecord(c: Crypto, half: Option<HalfConn>, wire: seq<byte>)
    requires wire != []
    ensures var r := ReadRecord(c, half, wire);
            Content(c, half, wire) ==
            if r.Read? && r.typ == REC_APP_DATA && |r.body| <= MAX_FRAGMENT
            then Before(r.body, Content(c, r.in1, r.rest)) else None
  {
  }

  lemma ReadAhead(c: Crypto, half: Option<HalfConn>, a: seq<byte>, b: seq<byte>)
    requires ReadRecord(c, half, a).Read?
    ensures ReadRecord(c, half, a + b) == ReadRecord(c, half, a).(rest := ReadRecord(c, half, a).rest + b)
  {
    var n := BE16(a, 3);
    assert (a + b)[3] == a[3] && (a + b)[4] == a[4];
    assert (a + b)[5..5 + n] == a[5..5 + n] && (a + b)[5 + n..] == a[5 + n..] + b;
  }

  // ---- A connection used from both ends -----------------------------------------------------

  /** One direction in use: the writer's state, the bytes under way, the reader's state and its decrypted
      bytes not yet read; written and read_ record what went through Write and Read. */
  datatype Pipe = Pipe(
    out: Option<HalfConn>,
    wire: seq<byte>,
    in_: Option<HalfConn>,
    rbuf: seq<byte>,
    written: seq<byte>,
    read_: seq<byte>)

  datatype PipeStep = WriteStep(data: seq<byte>) | ReadStep(max: nat)

  /** The reader takes records until it has content; None is an error of Read. A Read that finds nothing
      waits, which is a step without effect. */
  function Fill(c: Crypto, in_: Option<HalfConn>, wire: seq<byte>, rbuf: seq<byte>)
    : Option<(Option<HalfConn>, seq<byte>, seq<byte>)>
    decreases |wire|
  {
    if rbuf != [] || wire == [] then Some((in_, wire, rbuf))
    else
      match ReadRecord(c, in_, wire)
      case Unreadable => None
      case Read(typ, body, rest, in1) =>
        if typ != REC_APP_DATA then None else Fill(c, in1, rest, body)
  }

  function PipeApply(c: Crypto, p: Pipe, step: PipeStep): Option<Pipe> {
    match step
    case WriteStep(data) =>
      var (bytes, out1) := Records(c, p.out, REC_APP_DATA, data);
      Some(p.(out := out1, wire := p.wire + bytes, written := p.written + data))
    case ReadStep(max) =>
      match Fill(c, p.in_, p.wire, p.rbuf)
      case None => None
      case Some((in1, wire1, rbuf1)) =>
        var n := if max < |rbuf1| then max else |rbuf1|;
        Some(p.(in_ := in1, wire := wire1, rbuf := rbuf1[n..], read_ := p.read_ + rbuf1[..n]))
  }

  /** What was written is what was read, what is decrypted, and what is under way; and the reader will
      be where the writer is once it read that. */
  ghost predicate PipeInv(c: Crypto, p: Pipe) {
    && Content(c, p.in_, p.wire).Some?
    && Content(c, p.in_, p.wire).value.1 == p.out
    && p.written == p.read_ + p.rbuf + Content(c, p.in_, p.wire).value.0
  }

  lemma WriteKeeps(c: Crypto, p: Pipe, data: seq<byte>)
    requires FixedLength(c) && PipeInv(c, p)
    ensures PipeInv(c, PipeApply(c, p, WriteStep(data)).value)
  {
    var (bytes, _) := Records(c, p.out, REC_APP_DATA, data);
    ContentAppends(c, p.in_, p.wire, bytes);
    ContentOfRecords(c, p.out, data);
    Associative(p.read_ + p.rbuf, Content(c, p.in_, p.wire).value.0, data);
  }

  lemma Associative(a: seq<byte>, b: seq<byte>, c: seq<byte>)
    ensures a + (b + c) == (a + b) + c
  {
  }

  lemma {:induction false} FillKeeps(c: Crypto, in_: Option<HalfConn>, wire: seq<byte>, rbuf: seq<byte>)
    requires Content(c, in_, wire).Some?
    ensures Fill(c, in_, wire, rbuf).Some?
    ensures var (in1, wire1, rbuf1) := Fill(c, in_, wire, rbuf).value;
            && Content(c, in1, wire1).Some?
            && Content(c, in1, wire1).value.1 == Content(c, in_, wire).value.1
            && rbuf + Content(c, in_, wire).value.0 == rbuf1 + Content(c, in1, wire1).value.0
    decreases |wire|
  {
    if rbuf == [] && wire != [] {
      var r := ReadRecord(c, in_, wire);
      FillKeeps(c, r.in1, r.rest, r.body);
      assert rbuf + Content(c, in_, wire).value.0 == Content(c, in_, wire).value.0;
    }
  }

  lemma ReadKeeps(c: Crypto, p: Pipe, max: nat)
    requires PipeInv(c, p)
    ensures PipeApply(c, p, ReadStep(max)).Some? && PipeInv(c, PipeApply(c, p, ReadStep(max)).value)
  {
    FillKeeps(c, p.in_, p.wire, p.rbuf);
    var (in1, wire1, rbuf1) := Fill(c, p.in_, p.wire, p.rbuf).value;
    var n := if max < |rbuf1| then max else |rbuf1|;
    var x, y := Content(c, p.in_, p.wire).value.0, Content(c, in1, wire1).value.0;
    MoveAhead(p.read_, p.rbuf, x, rbuf1, y, n);
  }

  lemma MoveAhead(read_: seq<byte>, rbuf: seq<byte>, x: seq<byte>, rbuf1: seq<byte>, y: seq<byte>, n: nat)
    requires rbuf + x == rbuf1 + y && n <= |rbuf1|
    ensures read_ + rbuf + x == (read_ + rbuf1[..n]) + rbuf1[n..] + y
  {
    assert rbuf1 == rbuf1[..n] + rbuf1[n..];
    assert read_ + rbuf + x == read_ + (rbuf + x);
    assert (read_ + rbuf1[..n]) + rbuf1[n..] + y == read_ + (rbuf1 + y);
  }

  function RunPipe(c: Crypto, p: Pipe, steps: seq<PipeStep>): Option<Pipe>
    decreases |steps|
  {
    if steps == [] then Some(p)
    else
      match PipeApply(c, p, steps[0])
      case None => None
      case Some(p1) => RunPipe(c, p1, steps[1..])
  }

  lemma {:induction false} RunPipeKeeps(c: Crypto, p: Pipe, steps: seq<PipeStep>)
    requires FixedLength(c) && PipeInv(c, p)
    ensures RunPipe(c, p, steps).Some? && PipeInv(c, RunPipe(c, p, steps).value)
    decreases |steps|
  {
    if steps != [] {
      match steps[0] {
        case WriteStep(data) => WriteKeeps(c, p, data);
        case ReadStep(max) => ReadKeeps(c, p, max);
      }
      RunPipeKeeps(c, PipeApply(c, p, steps[0]).value, steps[1..]);
    }
  }

  /** From equal states at both ends, any interleaving of Writes and Reads of any sizes goes through
      without a MAC error: what was read is a prefix of what was written, and when nothing is under way
      all of it was, and the states (key stream positions and record counts) are equal again. */
  lemma StreamRoundTrip(c: Crypto, half: Option<HalfConn>, steps: seq<PipeStep>)
    requires FixedLength(c)
    ensures RunPipe(c, Pipe(half, [], half, [], [], []), steps).Some?
    ensures var p := RunPipe(c, Pipe(half, [], half, [], [], []), steps).value;
            && p.read_ <= p.written
            && (p.wire == [] ==> p.read_ + p.rbuf == p.written && p.in_ == p.out)
  {
    var start := Pipe(half, [], half, [], [], []);
    assert PipeInv(c, start);
    RunPipeKeeps(c, start, steps);
    var p := RunPipe(c, start, steps).value;
    var x := Content(c, p.in_, p.wire).value.0;
    assert p.written == p.read_ + (p.rbuf + x);
    if p.wire == [] {
      assert p.read_ + p.rbuf + [] == p.read_ + p.rbuf;
    }
  }

  lemma {:induction false} FillFinds(c: Crypto, in_: Option<HalfConn>, wire: seq<byte>, rbuf: seq<byte>)
    requires Content(c, in_, wire).Some? && (rbuf != [] || Content(c, in_, wire).value.0 != [])
    ensures Fill(c, in_, wire, rbuf).Some? && Fill(c, in_, wire, rbuf).value.2 != []
    decreases |wire|
  {
    if rbuf == [] {
      var r := ReadRecord(c, in_, wire);
      FillFinds(c, r.in1, r.rest, r.body);
    }
  }

  /** A Read with room gets more as long as not everything was read. */
  lemma ReadAdvances(c: Crypto, p: Pipe, max: nat)
    requires PipeInv(c, p) && max >= 1 && p.read_ != p.written
    ensures PipeApply(c, p, ReadStep(max)).Some?
    ensures var q := PipeApply(c, p, ReadStep(max)).value;
            p.read_ < q.read_ <= q.written == p.written
  {
    ReadKeeps(c, p, max);
    PartsBehind(p.read_, p.rbuf, Content(c, p.in_, p.wire).value.0);
    FillFinds(c, p.in_, p.wire, p.rbuf);
    var q := PipeApply(c, p, ReadStep(max)).value;
    PartsBehind(q.read_, q.rbuf, Content(c, q.in_, q.wire).value.0);
  }

  lemma PartsBehind(a: seq<byte>, b: seq<byte>, c: seq<byte>)
    ensures a <= a + b + c && (a + b + c == a <==> b == c == [])
  {
    assert |a + b + c| == |a| + |b| + |c|;
    assert a + b + c == a + (b + c);
  }

  function Reads(max: nat, n: nat): (steps: seq<PipeStep>)
    ensures |steps| == n
  {
    if n == 0 then [] else [ReadStep(max)] + Reads(max, n - 1)
  }

  lemma {:induction false} ReadsCatchUp(c: Crypto, p: Pipe, max: nat) returns (n: nat)
    requires PipeInv(c, p) && max >= 1 && p.read_ <= p.written
    ensures n <= |p.written| - |p.read_|
    ensures RunPipe(c, p, Reads(max, n)).Some? && RunPipe(c, p, Reads(max, n)).value.read_ == p.written
    decreases |p.written| - |p.read_|
  {
    if p.read_ == p.written {
      n := 0;
    } else {
      ReadAdvances(c, p, max);
      ReadKeeps(c, p, max);
      var m := ReadsCatchUp(c, PipeApply(c, p, ReadStep(max)).value, max);
      n := m + 1;
      assert Reads(max, n)[1..] == Reads(max, m);
    }
  }

  /** Reading gets there: after any Writes and Reads, finitely many Reads return everything written. */
  lemma EverythingIsRead(c: Crypto, half: Option<HalfConn>, steps: seq<PipeStep>, max: nat) returns (n: nat)
    requires FixedLength(c) && max >= 1
    ensures RunPipe(c, Pipe(half, [], half, [], [], []), steps).Some?
    ensures var p := RunPipe(c, Pipe(half, [], half, [], [], []), steps).value;
            && n <= |p.written| - |p.read_|
            && RunPipe(c, p, Reads(max, n)).Some? && RunPipe(c, p, Reads(max, n)).value.read_ == p.written
  {
    StreamRoundTrip(c, half, steps);
    RunPipeKeeps(c, Pipe(half, [], half, [], [], []), steps);
    n := ReadsCatchUp(c, RunPipe(c, Pipe(half, [], half, [], [], []), steps).value, max);
  }

  /** Every application data record holds at most 2^14 bytes of content: those that Write cuts do, one by
      one, and their contents are the data. */
  lemma {:induction false} FragmentsAreBounded(c: Crypto, half: Option<HalfConn>, data: seq<byte>)
    returns (frags: seq<seq<byte>>)
    ensures forall f :: f in frags ==> 0 < |f| <= MAX_FRAGMENT
    ensures Joined(frags) == data
    ensures Records(c, half, REC_APP_DATA, data) == RecordEach(c, half, frags)
    decreases |data|
  {
    if data == [] {
      frags := [];
    } else {
      var frag := Fragment(data);
      var (first, half1) := Record(c, half, REC_APP_DATA, frag);
      var rest := FragmentsAreBounded(c, half1, data[|frag|..]);
      frags := [frag] + rest;
      assert frags[1..] == rest;
      assert frag + data[|frag|..] == data;
    }
  }

  function RecordEach(c: Crypto, half: Option<HalfConn>, frags: seq<seq<byte>>): (seq<byte>, Option<HalfConn>)
    decreases |frags|
  {
    if frags == [] then ([], half)
    else
      var (first, half1) := Record(c, half, REC_APP_DATA, frags[0]);
      var (rest, half2) := RecordEach(c, half1, frags[1..]);
      (first + rest, half2)
  }
}
