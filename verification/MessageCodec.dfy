/** The lobby's messages, pkg/lobby/message/message.go: how they are written and read. */
module MessageCodec {
  import opened Bytes

  const HEADER_SIZE := 12

  /** The longest body whose end is still in 16 bits. */
  const MAX_BODY := 65523

  // ---- Messages -----------------------------------------------------------------------------

  datatype Message = Message(direction: byte, category: byte, command: uint16, bodySize: uint16, seqno: uint16,
                             status: uint32, body: seq<byte>)

  function PutBE32(n: nat): (s: seq<byte>)
    ensures |s| == 4
  {
    PutBE16(n / 0x1_0000) + PutBE16(n)
  }

  function BE32(s: seq<byte>, i: nat): uint32
    requires i + 4 <= |s|
  {
    0x1_0000 * BE16(s, i) + BE16(s, i + 2)
  }

  function Header(m: Message): (h: seq<byte>)
    ensures |h| == HEADER_SIZE
  {
    [m.direction, m.category] + PutBE16(m.command) + PutBE16(m.bodySize) + PutBE16(m.seqno) + PutBE32(m.status)
  }

  /** The message with the size its body has in 16 bits. */
  function Sized(m: Message): Message {
    m.(bodySize := |m.body| % 0x1_0000)
  }

  function Encoded(m: Message): seq<byte> {
    Header(Sized(m)) + m.body
  }

  class OutMessage {
    var m: Message

    constructor (m: Message)
      ensures this.m == m
    {
      this.m := m;
    }

    method Serialize() returns (data: seq<byte>)
      modifies this
      ensures m == Sized(old(m)) && data == Encoded(old(m))
    {
      m := m.(bodySize := |m.body| % 0x1_0000);
      data := [m.direction] + [m.category];
      data := data + PutBE16(m.command);
      data := data + PutBE16(m.bodySize);
      data := data + PutBE16(m.seqno);
      data := data + PutBE32(m.status);
      data := data + m.body;
    }
  }

  /** A message and its length, or none yet, or a slice that ends before it starts. */
  datatype Parsed = More | Got(n: nat, m: Message) | Panic

  function Deserialize(data: seq<byte>): Parsed {
    if |data| < HEADER_SIZE then More
    else
      var size := BE16(data, 4);
      if |data| < HEADER_SIZE + size then More
      else
        var end := (HEADER_SIZE + size) % 0x1_0000;
        if end < HEADER_SIZE then Panic
        else Got(end, Message(data[0], data[1], BE16(data, 2), size, BE16(data, 6), BE32(data, 8),
                              data[HEADER_SIZE..end]))
  }

  lemma HeaderReads(m: Message, rest: seq<byte>)
    ensures var d := Header(m) + rest;
            && d[0] == m.direction && d[1] == m.category && BE16(d, 2) == m.command && BE16(d, 4) == m.bodySize
            && BE16(d, 6) == m.seqno && BE32(d, 8) == m.status && d[HEADER_SIZE..] == rest
  {
    var (d, h) := (Header(m) + rest, Header(m));
    BE16RoundTrip(m.command);
    BE16RoundTrip(m.bodySize);
    BE16RoundTrip(m.seqno);
    StatusReads(m.status);
    assert h[2..4] == PutBE16(m.command) && h[4..6] == PutBE16(m.bodySize) && h[6..8] == PutBE16(m.seqno);
    assert h[8..12] == PutBE32(m.status);
    assert d[8] == PutBE32(m.status)[0] && d[9] == PutBE32(m.status)[1];
    assert d[10] == PutBE32(m.status)[2] && d[11] == PutBE32(m.status)[3];
  }

  lemma StatusReads(n: uint32)
    ensures BE32(PutBE32(n), 0) == n
  {
    var (high, low) := (n / 0x1_0000, n % 0x1_0000);
    BE16RoundTrip(high);
    BE16RoundTrip(low);
    LowHalf(n, low);
  }

  lemma LowHalf(n: nat, low: nat)
    requires low == n % 0x1_0000
    ensures PutBE16(n) == PutBE16(low)
  {
    assert n == 0x1_0000 * (n / 0x1_0000) + low;
    assert n % 256 == low % 256 && n / 256 == 256 * (n / 0x1_0000) + low / 256;
  }

  /** The layout: direction, category, command, size of the body, number, status, body; the most significant
      byte of a number comes first. */
  lemma Layout(m: Message)
    ensures var d := Encoded(m);
            && |d| == 12 + |m.body| && d[0] == m.direction && d[1] == m.category && Number(d[2..4]) == m.command
            && Number(d[4..6]) == |m.body| % 0x1_0000 && Number(d[6..8]) == m.seqno && Number(d[8..12]) == m.status
            && d[12..] == m.body
  {
    HeaderLayout(Sized(m));
    assert Encoded(m)[..12] == Header(Sized(m));
    Slices(Header(Sized(m)), m.body);
  }

  lemma HeaderLayout(m: Message)
    ensures var h := Header(m);
            && h[0] == m.direction && h[1] == m.category && Number(h[2..4]) == m.command
            && Number(h[4..6]) == m.bodySize && Number(h[6..8]) == m.seqno && Number(h[8..12]) == m.status
  {
    var h := Header(m);
    BE16SaysNumber(m.command);
    BE16SaysNumber(m.bodySize);
    BE16SaysNumber(m.seqno);
    StatusSaysNumber(m.status);
    assert h[2..4] == PutBE16(m.command) && h[4..6] == PutBE16(m.bodySize) && h[6..8] == PutBE16(m.seqno);
    assert h[8..12] == PutBE32(m.status);
  }

  lemma Slices(h: seq<byte>, body: seq<byte>)
    requires |h| == 12
    ensures var d := h + body;
            d[2..4] == h[2..4] && d[4..6] == h[4..6] && d[6..8] == h[6..8] && d[8..12] == h[8..12] && d[12..] == body
  {
  }

  lemma StatusSaysNumber(n: uint32)
    ensures Number(PutBE32(n)) == n
  {
    var (high, low) := (PutBE16(n / 0x1_0000), PutBE16(n));
    BE16SaysNumber(n / 0x1_0000);
    BE16SaysNumber(n);
    NumberConcat(high, low[0], low[1]);
    assert low == [low[0], low[1]];
  }

  /** An answer of the server. */
  lemma AnswerBytes()
    ensures Encoded(Message(0x18, 2, 0x6101, 0, 0x0203, 0x00FF_FFFF, [0xAA, 0xBB])) ==
            [0x18, 0x02, 0x61, 0x01, 0x00, 0x02, 0x02, 0x03, 0x00, 0xFF, 0xFF, 0xFF, 0xAA, 0xBB]
  {
    assert PutBE16(0x6101) == [0x61, 0x01] && PutBE16(2) == [0, 2] && PutBE16(0x0203) == [2, 3];
    assert PutBE32(0x00FF_FFFF) == [0, 0xFF, 0xFF, 0xFF];
  }

  /** A serialized message is read back with all its fields, whatever follows, exactly if its body is not
      longer than MAX_BODY. */
  lemma MessageRoundTrip(m: Message, rest: seq<byte>)
    ensures Deserialize(Encoded(m) + rest) == Got(|Encoded(m)|, Sized(m)) <==> |m.body| <= MAX_BODY
  {
    if |m.body| <= MAX_BODY {
      ShortBodyIsRead(m, rest);
    } else if |m.body| < 0x1_0000 {
      LongBodyPanics(m, rest);
    } else {
      EndIsIn16Bits(Encoded(m) + rest);
    }
  }

  lemma ShortBodyIsRead(m: Message, rest: seq<byte>)
    requires |m.body| <= MAX_BODY
    ensures Deserialize(Encoded(m) + rest) == Got(|Encoded(m)|, Sized(m))
  {
    HeaderReads(Sized(m), m.body + rest);
    var d := Header(Sized(m)) + (m.body + rest);
    assert Encoded(m) + rest == d;
    assert BE16(d, 4) == |m.body| && |d| >= HEADER_SIZE + |m.body|;
    assert d[HEADER_SIZE..HEADER_SIZE + |m.body|] == m.body;
  }

  lemma EndIsIn16Bits(data: seq<byte>)
    ensures Deserialize(data).Got? ==> Deserialize(data).n < 0x1_0000
  {
  }

  /** A body a little longer makes Deserialize slice out of range. */
  lemma LongBodyPanics(m: Message, rest: seq<byte>)
    requires MAX_BODY < |m.body| < 0x1_0000
    ensures Deserialize(Encoded(m) + rest) == Panic
  {
    HeaderReads(Sized(m), m.body + rest);
    var d := Header(Sized(m)) + (m.body + rest);
    assert Encoded(m) + rest == d;
    assert BE16(d, 4) == |m.body| && |d| >= HEADER_SIZE + |m.body|;
  }

  /** Part of a message is never taken for one. */
  lemma PartIsIncomplete(m: Message, n: nat)
    requires |m.body| < 0x1_0000 && n < |Encoded(m)|
    ensures Deserialize(Encoded(m)[..n]) == More
  {
    if n >= HEADER_SIZE {
      HeaderReads(Sized(m), m.body[..n - HEADER_SIZE]);
      assert Encoded(m)[..n] == Header(Sized(m)) + m.body[..n - HEADER_SIZE];
    }
  }

  /** Deserialize repeated until there is no whole message left. */
  function DeserializeAll(data: seq<byte>): (seq<Message>, seq<byte>)
    decreases |data|
  {
    match Deserialize(data)
    case Got(n, m) =>
      assert 0 < n <= |data|;
      var (ms, rest) := DeserializeAll(data[n..]);
      ([m] + ms, rest)
    case _ => ([], data)
  }

  function EncodedAll(ms: seq<Message>): seq<byte> {
    if ms == [] then [] else Encoded(ms[0]) + EncodedAll(ms[1..])
  }

  function SizedAll(ms: seq<Message>): (r: seq<Message>)
    ensures |r| == |ms| && forall i :: 0 <= i < |ms| ==> r[i] == Sized(ms[i])
  {
    seq(|ms|, i requires 0 <= i < |ms| => Sized(ms[i]))
  }

  lemma FirstMessage(m: Message, later: seq<byte>)
    requires |m.body| <= MAX_BODY
    ensures var (ms, rest) := DeserializeAll(later);
            DeserializeAll(Encoded(m) + later) == ([Sized(m)] + ms, rest)
  {
    MessageRoundTrip(m, later);
    assert (Encoded(m) + later)[|Encoded(m)|..] == later;
  }

  /** A stream of messages is read back, and the part of one more at its end is kept. */
  lemma {:induction false} StreamRoundTrip(ms: seq<Message>, next: Message, n: nat)
    requires forall m :: m in ms ==> |m.body| <= MAX_BODY
    requires |next.body| < 0x1_0000 && n < |Encoded(next)|
    ensures DeserializeAll(EncodedAll(ms) + Encoded(next)[..n]) == (SizedAll(ms), Encoded(next)[..n])
    decreases |ms|
  {
    var part := Encoded(next)[..n];
    if ms == [] {
      PartIsIncomplete(next, n);
      assert EncodedAll(ms) + part == part;
    } else {
      var (m, later) := (ms[0], EncodedAll(ms[1..]) + part);
      JoinThree(Encoded(m), EncodedAll(ms[1..]), part);
      assert m in ms;
      StreamRoundTrip(ms[1..], next, n);
      FirstMessage(m, later);
      assert [Sized(m)] + SizedAll(ms[1..]) == SizedAll(ms);
    }
  }

  lemma JoinThree(a: seq<byte>, b: seq<byte>, c: seq<byte>)
    ensures a + b + c == a + (b + c)
  {
  }
}
