/** pkg/proto/battlebuf.go: the send ring of a reliable UDP end and its per-user message filter. */
module BattleBuffers {
  import opened Wrappers
  import opened Bytes

  /** A battle message as it travels: the user it comes from, its number for that user, its bytes. */
  datatype BattleMessage = BattleMessage(userId: string, number: uint32, body: seq<byte>)

  const RING_SIZE: nat := 4096
  const WINDOW: nat := 50

  /** What ring slot i holds after the messages of log were pushed: message number n goes to slot n % 4096. */
  function Slot(log: seq<BattleMessage>, i: nat): Option<BattleMessage> {
    if log == [] then None
    else if |log| % RING_SIZE == i then Some(log[|log| - 1])
    else Slot(log[..|log| - 1], i)
  }

  /** The number of the newest message sharing its ring slot with message k. */
  function Latest(length: nat, k: nat): nat
    requires k <= length
  {
    length - (length - k) % RING_SIZE
  }

  /** The slot of message k holds the newest message with the same slot number. */
  lemma {:induction false} SlotHoldsLatest(log: seq<BattleMessage>, k: nat)
    requires 1 <= k <= |log|
    ensures k <= Latest(|log|, k) <= |log|
    ensures Slot(log, k % RING_SIZE) == Some(log[Latest(|log|, k) - 1])
  {
    var n := |log|;
    if n % RING_SIZE == k % RING_SIZE {
      assert (n - k) % RING_SIZE == 0;
    } else {
      SlotHoldsLatest(log[..n - 1], k);
      assert (n - k) % RING_SIZE == (n - 1 - k) % RING_SIZE + 1 by { ModStep(n, k); }
    }
  }

  lemma ModStep(n: nat, k: nat)
    requires k < n && n % RING_SIZE != k % RING_SIZE
    ensures (n - k) % RING_SIZE == (n - 1 - k) % RING_SIZE + 1
  {
  }

  /** The uint32 end of the send window: begin + 50 when that is below end, in wrapping arithmetic. */
  function WindowEnd(begin: uint32, end: uint32): uint32 {
    if (begin + WINDOW) % WORD32 < end then (begin + WINDOW) % WORD32 else end
  }

  /** How many ring slots GetSendData copies. */
  function WindowCount(begin: uint32, end: uint32): nat {
    var l, r := begin % RING_SIZE, WindowEnd(begin, end) % RING_SIZE;
    if l <= r then r - l else RING_SIZE - l + r
  }

  /** The ring slots GetSendData copies, in order. */
  function SentSlots(log: seq<BattleMessage>, begin: uint32, end: uint32): seq<Option<BattleMessage>> {
    seq(WindowCount(begin, end), i requires 0 <= i => Slot(log, (begin + i) % RING_SIZE))
  }

  /** The messages that should be sent: numbers begin .. min(end, begin + 50) - 1. */
  function Window(log: seq<BattleMessage>, begin: nat): seq<BattleMessage>
    requires 1 <= begin <= |log| + 1
  {
    log[begin - 1..if begin + WINDOW < |log| + 1 then begin + WINDOW - 1 else |log|]
  }

  function Somes(msgs: seq<BattleMessage>): seq<Option<BattleMessage>> {
    seq(|msgs|, i requires 0 <= i < |msgs| => Some(msgs[i]))
  }

  /** At most 4096 messages are outstanding and the window does not run past the last uint32. */
  predicate Sendable(length: nat, begin: nat) {
    && 1 <= begin <= length + 1
    && length + 1 < WORD32
    && begin + WINDOW < WORD32
    && (begin <= length ==> length + 1 - begin <= RING_SIZE)
  }

  /** Within capacity the ring gives exactly the log window, in the contiguous and the wrapped case. */
  lemma WindowFromRing(log: seq<BattleMessage>, begin: uint32)
    requires Sendable(|log|, begin)
    ensures SentSlots(log, begin, |log| + 1) == Somes(Window(log, begin))
    ensures WindowEnd(begin, |log| + 1) == begin + |Window(log, begin)|
  {
    var w := Window(log, begin);
    assert WindowEnd(begin, |log| + 1) == begin + |w|;
    CountIsDistance(begin, |w|);
    forall i | 0 <= i < |w|
      ensures Slot(log, (begin + i) % RING_SIZE) == Some(w[i])
    {
      SlotHoldsLatest(log, begin + i);
    }
  }

  lemma CountIsDistance(begin: nat, d: nat)
    requires d < RING_SIZE
    ensures var l, r := begin % RING_SIZE, (begin + d) % RING_SIZE;
            d == if l <= r then r - l else RING_SIZE - l + r
  {
    var l := begin % RING_SIZE;
    if l + d < RING_SIZE {
      assert (begin + d) % RING_SIZE == l + d;
    } else {
      assert (begin + d) % RING_SIZE == l + d - RING_SIZE;
    }
  }

  /** The exact condition: with pairwise different messages, GetSendData yields the log window
      precisely when at most 4096 messages are outstanding and begin + 50 does not wrap. */
  lemma WindowFromRingExactly(log: seq<BattleMessage>, begin: uint32)
    requires forall i, j :: 0 <= i < j < |log| ==> log[i] != log[j]
    requires 1 <= begin <= |log| + 1 < WORD32
    ensures SentSlots(log, begin, |log| + 1) == Somes(Window(log, begin)) <==>
            |log| + 1 - begin <= 4096 && begin + 50 < 0x1_0000_0000
  {
    if Sendable(|log|, begin) {
      WindowFromRing(log, begin);
    } else if begin + WINDOW >= WORD32 {
      WrappedWindowIsTooLong(begin, |log| + 1);
    } else {
      var w := Window(log, begin);
      CountIsDistance(begin, |w|);
      SlotHoldsLatest(log, begin);
      var k := Latest(|log|, begin);
      assert (|log| - begin) % RING_SIZE < RING_SIZE <= |log| - begin;
      assert log[k - 1] != log[begin - 1];
      assert Somes(w)[0] == Some(log[begin - 1]);
      assert SentSlots(log, begin, |log| + 1)[0] == Some(log[k - 1]);
    }
  }

  lemma WrappedWindowIsTooLong(begin: uint32, end: uint32)
    requires begin <= end && begin + WINDOW >= WORD32
    ensures WindowCount(begin, end) == WINDOW > end - begin
  {
    var e := begin + WINDOW - WORD32;
    assert (begin + WINDOW) % WORD32 == e;
    assert WORD32 % RING_SIZE == 0;
    assert begin % RING_SIZE == begin - (WORD32 - RING_SIZE);
  }

  lemma WordModRing(n: nat)
    ensures n % WORD32 % RING_SIZE == n % RING_SIZE
  {
    var (q, r) := (n / WORD32, n % WORD32);
    assert n == WORD32 * q + r;
    assert r == RING_SIZE * (r / RING_SIZE) + r % RING_SIZE;
    assert n == RING_SIZE * (0x10_0000 * q + r / RING_SIZE) + r % RING_SIZE;
    RingRemainderIs(n, 0x10_0000 * q + r / RING_SIZE, r % RING_SIZE);
  }

  lemma RingRemainderIs(n: nat, q: nat, r: nat)
    requires n == RING_SIZE * q + r && r < RING_SIZE
    ensures n % RING_SIZE == r
  {
  }

  lemma RingIndex(begin: nat, i: nat)
    requires i < RING_SIZE
    ensures var l := begin % RING_SIZE;
            (begin + i) % RING_SIZE == if l + i < RING_SIZE then l + i else l + i - RING_SIZE
  {
  }

  /** Slots l .. r - 1 of the ring, wrapping past its end. */
  function RingSlice(ring: seq<Option<BattleMessage>>, l: nat, r: nat): seq<Option<BattleMessage>>
    requires l < |ring| && r < |ring|
  {
    if l <= r then ring[l..r] else ring[l..] + ring[..r]
  }

  lemma SlotsAreContiguous(log: seq<BattleMessage>, ring: seq<Option<BattleMessage>>,
                           begin: uint32, end: uint32, data: seq<Option<BattleMessage>>)
    requires |ring| == RING_SIZE && forall i :: 0 <= i < RING_SIZE ==> ring[i] == Slot(log, i)
    requires data == RingSlice(ring, begin % RING_SIZE, WindowEnd(begin, end) % RING_SIZE)
    ensures data == SentSlots(log, begin, end)
  {
    forall i | 0 <= i < |data|
      ensures data[i] == Slot(log, (begin + i) % RING_SIZE)
    {
      RingIndex(begin, i);
    }
  }

  lemma SentData(log: seq<BattleMessage>, ring: seq<Option<BattleMessage>>,
                 begin: uint32, end: uint32, data: seq<Option<BattleMessage>>)
    requires |ring| == RING_SIZE && forall i :: 0 <= i < RING_SIZE ==> ring[i] == Slot(log, i)
    requires end == (|log| + 1) % WORD32
    requires data == RingSlice(ring, begin % RING_SIZE, WindowEnd(begin, end) % RING_SIZE)
    ensures data == SentSlots(log, begin, end)
    ensures Sendable(|log|, begin) ==>
              data == Somes(Window(log, begin)) && WindowEnd(begin, end) == begin + |Window(log, begin)|
  {
    SlotsAreContiguous(log, ring, begin, end, data);
    if Sendable(|log|, begin) {
      assert end == |log| + 1 by { SmallMod(|log| + 1); }
      WindowFromRing(log, begin);
    }
  }

  lemma SmallMod(n: nat)
    requires n < WORD32
    ensures n % WORD32 == n
  {
  }

  /** end after n pushes. */
  function EndAfter(n: nat): uint32 {
    if n == 0 then 1 else Next32(EndAfter(n - 1))
  }

  lemma {:induction false} EndAfterIsMod(n: nat)
    ensures EndAfter(n) == (n + 1) % WORD32
  {
    if n > 0 {
      EndAfterIsMod(n - 1);
      var (q, r) := (n / WORD32, n % WORD32);
      assert n == WORD32 * q + r;
      if r + 1 == WORD32 {
        RemainderIs(n + 1, q + 1, 0);
      } else {
        RemainderIs(n + 1, q, r + 1);
      }
    }
  }

  lemma RemainderIs(n: nat, q: nat, r: nat)
    requires n == WORD32 * q + r && r < WORD32
    ensures n % WORD32 == r
  {
  }

  /** pkg/proto/battlebuf.go BattleBuffer; log is every message pushed so far. */
  class BattleBuffer {
    var id: string
    var ack: uint32
    var begin: uint32
    var end: uint32
    const rbuf: array<Option<BattleMessage>>
    ghost var log: seq<BattleMessage>

    ghost predicate Valid()
      reads this, rbuf
    {
      && rbuf.Length == RING_SIZE
      && end == EndAfter(|log|)
      && (forall i :: 0 <= i < RING_SIZE ==> rbuf[i] == Slot(log, i))
    }

    constructor (id: string)
      ensures Valid() && fresh(rbuf)
      ensures this.id == id && log == [] && begin == 1 && ack == 0
    {
      this.id := id;
      ack, begin, end := 0, 1, 1;
      rbuf := new Option<BattleMessage>[RING_SIZE](_ => None);
      log := [];
    }

    method PushBattleMessage(msg: BattleMessage)
      requires Valid()
      modifies this`end, this`log, rbuf
      ensures Valid()
      ensures log == old(log) + [msg]
    {
      var index := end;
      assert index % RING_SIZE == (|log| + 1) % RING_SIZE by {
        EndAfterIsMod(|log|);
        WordModRing(|log| + 1);
      }
      rbuf[index % RING_SIZE] := Some(msg);
      end := Next32(end);
      log := log + [msg];
      assert log[..|log| - 1] == old(log);
    }

    method GetSendData() returns (data: seq<Option<BattleMessage>>, seqNumber: uint32, ackNumber: uint32)
      requires Valid()
      ensures data == SentSlots(log, begin, end)
      ensures seqNumber == (WindowEnd(begin, end) - 1) % WORD32
      ensures ackNumber == ack
      ensures Sendable(|log|, begin) ==>
                data == Somes(Window(log, begin)) && seqNumber == begin + |Window(log, begin)| - 1
    {
      var l := begin % RING_SIZE;
      var e := end;
      if (begin + 50) % WORD32 < e {
        e := (begin + 50) % WORD32;
      }
      assert e == WindowEnd(begin, end);
      var r := e % RING_SIZE;
      ghost var ring := rbuf[..];
      if l <= r {
        data := rbuf[l..r];
      } else {
        data := [];
        data := data + rbuf[l..];
        data := data + rbuf[..r];
      }
      assert data == RingSlice(ring, l, r);
      seqNumber, ackNumber := (e - 1) % WORD32, ack;
      EndAfterIsMod(|log|);
      SentData(log, ring, begin, end, data);
      if Sendable(|log|, begin) {
        SmallMod(e - 1);
      }
    }

    method ApplySeqAck(seqNumber: uint32, ackNumber: uint32)
      modifies this`begin, this`ack
      ensures begin == Next32(ackNumber) && ack == seqNumber
    {
      begin := Next32(ackNumber);
      ack := seqNumber;
    }
  }

  // ---- MessageFilter ------------------------------------------------------------------------

  /** Whether a filter with counters recv lets msg through; a counter of 0 lets any number through. */
  predicate Passes(recv: map<string, uint32>, msg: BattleMessage) {
    msg.userId in recv && (recv[msg.userId] == 0 || msg.number == Next32(recv[msg.userId]))
  }

  function Counted(recv: map<string, uint32>, msg: BattleMessage): map<string, uint32> {
    if Passes(recv, msg) then recv[msg.userId := msg.number] else recv
  }

  /** The counters after msgs were filtered in order, and the messages let through. */
  function FilterAll(recv: map<string, uint32>, msgs: seq<BattleMessage>): (map<string, uint32>, seq<BattleMessage>) {
    if msgs == [] then (recv, [])
    else
      var (recv1, passed) := FilterAll(Counted(recv, msgs[0]), msgs[1..]);
      (recv1, (if Passes(recv, msgs[0]) then [msgs[0]] else []) + passed)
  }

  lemma {:induction false} FilterAllAppend(recv: map<string, uint32>, msgs: seq<BattleMessage>, msg: BattleMessage)
    ensures var (r, p) := FilterAll(recv, msgs);
            FilterAll(recv, msgs + [msg]) == (Counted(r, msg), p + if Passes(r, msg) then [msg] else [])
  {
    if msgs == [] {
      assert msgs + [msg] == [msg] && [msg][1..] == [];
      var head := if Passes(recv, msg) then [msg] else [];
      assert head + [] == head == [] + head;
    } else {
      assert (msgs + [msg])[1..] == msgs[1..] + [msg];
      FilterAllAppend(Counted(recv, msgs[0]), msgs[1..], msg);
      var first := if Passes(recv, msgs[0]) then [msgs[0]] else [];
      var (r, p) := FilterAll(Counted(recv, msgs[0]), msgs[1..]);
      var last := if Passes(r, msg) then [msg] else [];
      assert first + (p + last) == (first + p) + last;
    }
  }

  function FromUser(msgs: seq<BattleMessage>, user: string): seq<BattleMessage> {
    if msgs == [] then []
    else (if msgs[0].userId == user then [msgs[0]] else []) + FromUser(msgs[1..], user)
  }

  lemma {:induction false} FromUserConcat(a: seq<BattleMessage>, b: seq<BattleMessage>, user: string)
    ensures FromUser(a + b, user) == FromUser(a, user) + FromUser(b, user)
  {
    if a == [] {
      assert a + b == b;
    } else {
      assert (a + b)[1..] == a[1..] + b && (a + b)[0] == a[0];
      FromUserConcat(a[1..], b, user);
      var head := if a[0].userId == user then [a[0]] else [];
      assert FromUser(a, user) == head + FromUser(a[1..], user);
      assert head + (FromUser(a[1..], user) + FromUser(b, user)) == (head + FromUser(a[1..], user)) + FromUser(b, user);
    }
  }

  predicate Consecutive(msgs: seq<BattleMessage>) {
    forall i :: 0 <= i < |msgs| ==> msgs[i].number == msgs[0].number + i >= 1
  }

  /** p is numbered consecutively from the number that follows user's counter, from anywhere if that is 0. */
  predicate Follows(recv: map<string, uint32>, user: string, p: seq<BattleMessage>) {
    && Consecutive(p)
    && (p != [] ==> user in recv && (recv[user] == 0 || p[0].number == Next32(recv[user])))
  }

  /** Whatever arrives, over whatever path, in whatever order and however often: the messages of one
      user that a filter lets through are numbered consecutively, following its counter unless that is 0. */
  lemma {:induction false} PassedAreConsecutive(recv: map<string, uint32>, msgs: seq<BattleMessage>, user: string)
    requires forall m :: m in msgs ==> m.number >= 1
    ensures Follows(recv, user, FromUser(FilterAll(recv, msgs).1, user))
  {
    if msgs != [] {
      var recv1 := Counted(recv, msgs[0]);
      PassedAreConsecutive(recv1, msgs[1..], user);
      var tail := FilterAll(recv1, msgs[1..]).1;
      assert FilterAll(recv, msgs).1 == (if Passes(recv, msgs[0]) then [msgs[0]] else []) + tail;
      assert msgs[0] in msgs;
      FollowsOneMore(recv, msgs[0], tail, user);
    }
  }

  lemma FollowsOneMore(recv: map<string, uint32>, msg: BattleMessage, tail: seq<BattleMessage>, user: string)
    requires msg.number >= 1
    requires Follows(Counted(recv, msg), user, FromUser(tail, user))
    ensures Follows(recv, user, FromUser((if Passes(recv, msg) then [msg] else []) + tail, user))
  {
    if !Passes(recv, msg) {
      assert [] + tail == tail;
    } else {
      var q := FromUser(tail, user);
      FromUserConcat([msg], tail, user);
      FromUserOne(msg, user);
      if msg.userId == user {
        Prepend(msg, q);
      } else {
        assert [] + q == q;
      }
    }
  }

  lemma FromUserOne(msg: BattleMessage, user: string)
    ensures FromUser([msg], user) == if msg.userId == user then [msg] else []
  {
    assert FromUser([msg][1..], user) == [];
  }

  lemma Prepend(msg: BattleMessage, q: seq<BattleMessage>)
    requires msg.number >= 1
    requires Consecutive(q)
    requires q != [] ==> q[0].number == Next32(msg.number)
    ensures Consecutive([msg] + q)
  {
    var p := [msg] + q;
    forall i | 0 < i < |p|
      ensures p[i].number == p[0].number + i
    {
      assert p[i] == q[i - 1] && q[0].number >= 1;
    }
  }

  class MessageFilter {
    var nextNumber: uint32
    var recvSeq: map<string, uint32>

    constructor (acceptIds: seq<string>)
      ensures nextNumber == 1
      ensures recvSeq == map id | id in acceptIds :: 0
    {
      nextNumber := 1;
      var counters: map<string, uint32> := map[];
      for i := 0 to |acceptIds|
        invariant counters == map id | id in acceptIds[..i] :: 0
      {
        counters := counters[acceptIds[i] := 0];
      }
      recvSeq := counters;
    }

    method GenerateMessage(userId: string, data: seq<byte>) returns (msg: BattleMessage)
      modifies this`nextNumber
      ensures msg == BattleMessage(userId, old(nextNumber), data)
      ensures nextNumber == Next32(old(nextNumber))
    {
      msg := BattleMessage(userId, nextNumber, data);
      nextNumber := Next32(nextNumber);
    }

    method Filter(msg: BattleMessage) returns (ok: bool)
      modifies this`recvSeq
      ensures ok == Passes(old(recvSeq), msg)
      ensures recvSeq == Counted(old(recvSeq), msg)
    {
      if msg.userId !in recvSeq {
        return false;
      }
      var ack := recvSeq[msg.userId];
      if ack == 0 || msg.number == Next32(ack) {
        recvSeq := recvSeq[msg.userId := msg.number];
        return true;
      }
      return false;
    }
  }
}
