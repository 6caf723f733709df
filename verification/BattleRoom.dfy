/** pkg/battle/udp_peer.go and pkg/battle/room.go: the server end of a reliable UDP connection and the
    fan-out of what it delivers to the other players of the room. */
module BattleRooms {
  import opened Wrappers
  import opened Bytes
  import opened BattleBuffers
  import opened ReliableLink
  import Framing

  /** IsFinData (pkg/battle/logic.go): the body is exactly the battle end frame. */
  predicate IsFinData(body: seq<byte>) {
    |body| == 4 && body[0] == 4 && body[1] == 240 && body[2] == 0 && body[3] == 0
  }

  /** It is the frame that ends TCP streams, too. */
  lemma EndFrame(body: seq<byte>)
    ensures IsFinData(body) <==> body == Framing.FIN
    ensures Framing.FIN == [0x04, 0xF0, 0x00, 0x00]
  {
  }

  class UDPPeer {
    const rudp: BattleBuffer
    const filter: MessageFilter
    var position: nat
    var roomId: int
    var reading: seq<BattleMessage>
    var reading2: seq<BattleMessage>

    constructor (userId: string)
      ensures fresh(rudp) && fresh(rudp.rbuf) && fresh(filter)
      ensures rudp.Valid() && rudp.log == [] && rudp.begin == 1 && rudp.ack == 0
      ensures filter.recvSeq == map[userId := 0]
      ensures reading == reading2 == []
    {
      rudp := new BattleBuffer(userId);
      filter := new MessageFilter([userId]);
      position, roomId := 0, 0;
      reading, reading2 := [], [];
    }

    /** The peer is the server's end e of a connection whose passed messages were taken up to taken. */
    ghost predicate Is(e: End, taken: nat)
      reads this`reading, rudp`log, rudp`begin, rudp`ack, filter`recvSeq
    {
      && (e.log, e.begin, e.ack, e.recv, e.pending) == (rudp.log, rudp.begin, rudp.ack, filter.recvSeq, [])
      && taken <= |e.passed| && e.passed[taken..] == reading
    }

    method OnReceive(pkt: Packet)
      modifies rudp`begin, rudp`ack, filter`recvSeq, this`reading
      ensures rudp.begin == Next32(pkt.ackNumber) && rudp.ack == pkt.seqNumber
      ensures (filter.recvSeq, reading) ==
              (FilterAll(old(filter.recvSeq), pkt.data).0, old(reading) + FilterAll(old(filter.recvSeq), pkt.data).1)
      ensures forall e: End, taken: nat :: old(Is(e, taken)) ==> Is(Finished(StartReceive(e, pkt)), taken)
    {
      rudp.ApplySeqAck(pkt.seqNumber, pkt.ackNumber);
      assert old(reading) + [] == old(reading);
      for i := 0 to |pkt.data|
        invariant rudp.begin == Next32(pkt.ackNumber) && rudp.ack == pkt.seqNumber
        invariant filter.recvSeq == FilterAll(old(filter.recvSeq), pkt.data[..i]).0
        invariant reading == old(reading) + FilterAll(old(filter.recvSeq), pkt.data[..i]).1
      {
        var msg := pkt.data[i];
        assert pkt.data[..i + 1] == pkt.data[..i] + [msg];
        FilterAllAppend(old(filter.recvSeq), pkt.data[..i], msg);
        var ok := filter.Filter(msg);
        if ok {
          reading := reading + [msg];
        }
      }
      assert pkt.data[..|pkt.data|] == pkt.data;
      forall e: End, taken: nat | old(Is(e, taken)) ensures Is(Finished(StartReceive(e, pkt)), taken) {
        PacketRead(e, pkt, taken);
      }
    }

    method AddSendMessage(msg: BattleMessage)
      requires rudp.Valid()
      modifies rudp`end, rudp`log, rudp.rbuf
      ensures rudp.Valid() && rudp.log == old(rudp.log) + [msg]
    {
      rudp.PushBattleMessage(msg);
    }

    /** The send branch of Serve. */
    method Flush() returns (data: seq<Option<BattleMessage>>, seqNumber: uint32, ackNumber: uint32)
      requires rudp.Valid()
      ensures forall e: End, taken: nat :: Is(e, taken) && Sendable(|e.log|, e.begin) ==>
                data == Somes(Sent(e).data) && (seqNumber, ackNumber) == (Sent(e).seqNumber, Sent(e).ackNumber)
    {
      data, seqNumber, ackNumber := rudp.GetSendData();
    }

    /** The receive branch of Serve once the peer joined: forwards what was read up to a battle end frame. */
    method ServeReading(room: Room) returns (fin: bool)
      requires room.Valid() && this in room.peers
      modifies this`reading, this`reading2, room.Buffers()`end, room.Buffers()`log, room.Rings()
      ensures fin == HasFin(old(reading))
      ensures reading == old(reading2) && (!fin ==> reading2 == [])
      ensures room.Valid() && room.Pushed(old(room.Logs()), position, BeforeFin(old(reading)))
    {
      reading, reading2 := reading2, reading;
      fin := room.Forward(this, reading2);
      if !fin {
        reading2 := [];
      }
    }
  }

  lemma PacketRead(e: End, pkt: Packet, taken: nat)
    requires taken <= |e.passed|
    ensures var (e1, filtered) := (Finished(StartReceive(e, pkt)), FilterAll(e.recv, pkt.data));
            && (e1.log, e1.begin, e1.ack, e1.recv, e1.pending) ==
               (e.log, Next32(pkt.ackNumber), pkt.seqNumber, filtered.0, [])
            && e1.passed == e.passed + filtered.1 && e1.passed[taken..] == e.passed[taken..] + filtered.1
  {
    FinishedIsFilterAll(StartReceive(e, pkt));
    FinishedKeeps(StartReceive(e, pkt));
  }

  lemma {:induction false} FinishedKeeps(e: End)
    ensures var e1 := Finished(e); (e1.log, e1.begin, e1.ack, e1.pending) == (e.log, e.begin, e.ack, [])
    decreases |e.pending|
  {
    if e.pending != [] {
      FinishedKeeps(FilterNext(e));
    }
  }

  /** The messages before the first battle end frame. */
  function BeforeFin(batch: seq<BattleMessage>): (r: seq<BattleMessage>)
    ensures r <= batch
    ensures forall m :: m in r ==> m.body != Framing.FIN
    ensures |r| < |batch| ==> batch[|r|].body == Framing.FIN
  {
    if batch == [] || IsFinData(batch[0].body) then [] else [batch[0]] + BeforeFin(batch[1..])
  }

  /** Some message is the battle end frame. */
  predicate HasFin(batch: seq<BattleMessage>) {
    exists msg :: msg in batch && msg.body == Framing.FIN
  }

  lemma FinFound(batch: seq<BattleMessage>)
    ensures |BeforeFin(batch)| < |batch| <==> HasFin(batch)
  {
    var r := BeforeFin(batch);
    if |r| < |batch| {
      assert batch[|r|] in batch;
    }
  }

  /** None of the first n messages is a battle end frame. */
  predicate FinFree(batch: seq<BattleMessage>, n: nat)
    requires n <= |batch|
  {
    n == 0 || (FinFree(batch, n - 1) && !IsFinData(batch[n - 1].body))
  }

  lemma {:induction false} FinFreeAt(batch: seq<BattleMessage>, n: nat, k: nat)
    requires k < n <= |batch| && FinFree(batch, n)
    ensures !IsFinData(batch[k].body)
    decreases n
  {
    if k < n - 1 {
      FinFreeAt(batch, n - 1, k);
    }
  }

  lemma {:induction false} BeforeFinIs(batch: seq<BattleMessage>, n: nat)
    requires n <= |batch| && forall k :: 0 <= k < n ==> batch[k].body != Framing.FIN
    requires n < |batch| ==> batch[n].body == Framing.FIN
    ensures BeforeFin(batch) == batch[..n]
    decreases n
  {
    if n > 0 {
      BeforeFinIs(batch[1..], n - 1);
      assert batch[..n] == [batch[0]] + batch[1..][..n - 1];
    }
  }

  /** The first n messages, one by one. */
  ghost function FirstOf(batch: seq<BattleMessage>, n: nat): seq<BattleMessage>
    requires n <= |batch|
  {
    if n == 0 then [] else FirstOf(batch, n - 1) + [batch[n - 1]]
  }

  lemma {:induction false} FirstOfIs(batch: seq<BattleMessage>, n: nat)
    requires n <= |batch|
    ensures FirstOf(batch, n) == batch[..n]
  {
    if n > 0 {
      FirstOfIs(batch, n - 1);
    }
  }

  /** Every taken place but k grew by msgs. */
  ghost predicate Grew(places: seq<UDPPeer?>, logs: seq<seq<BattleMessage>>, logs1: seq<seq<BattleMessage>>,
                       k: nat, msgs: seq<BattleMessage>) {
    && |logs| == |logs1| == |places|
    && forall i :: 0 <= i < |places| && places[i] != null ==> logs1[i] == logs[i] + if i == k then [] else msgs
  }

  lemma NoneGrew(places: seq<UDPPeer?>, logs: seq<seq<BattleMessage>>, k: nat, msgs: seq<BattleMessage>)
    requires |logs| == |places| && msgs == []
    ensures Grew(places, logs, logs, k, msgs)
  {
  }

  lemma GrewMore(places: seq<UDPPeer?>, logs: seq<seq<BattleMessage>>, logs1: seq<seq<BattleMessage>>,
                 logs2: seq<seq<BattleMessage>>, k: nat, msgs: seq<BattleMessage>, msg: BattleMessage)
    requires Grew(places, logs, logs1, k, msgs) && Grew(places, logs1, logs2, k, [msg])
    ensures Grew(places, logs, logs2, k, msgs + [msg])
  {
    forall i | 0 <= i < |places| && places[i] != null
      ensures logs2[i] == logs[i] + if i == k then [] else msgs + [msg]
    {
      assert logs1[i] == logs[i] + if i == k then [] else msgs;
      assert (logs[i] + msgs) + [msg] == logs[i] + (msgs + [msg]);
    }
  }

  class Room {
    const id: int
    var peers: seq<UDPPeer?>

    constructor (id: int)
      ensures this.id == id && peers == [] && Valid()
    {
      this.id := id;
      peers := [];
    }

    ghost function Members(): set<UDPPeer>
      reads this
    {
      set p: UDPPeer | p in peers
    }

    /** What was pushed to each place so far. */
    ghost function Logs(): (logs: seq<seq<BattleMessage>>)
      reads this, Buffers()
      ensures |logs| == |peers|
      ensures forall i :: 0 <= i < |peers| && peers[i] != null ==> logs[i] == peers[i].rudp.log
    {
      seq(|peers|, i requires 0 <= i < |peers| reads this, Buffers() =>
        if peers[i] == null then [] else (assert peers[i] in peers; peers[i].rudp.log))
    }

    ghost function Buffers(): set<BattleBuffer>
      reads this
    {
      set p | p in peers && p != null :: p.rudp
    }

    ghost function Rings(): set<array<Option<BattleMessage>>>
      reads this
    {
      set p | p in peers && p != null :: p.rudp.rbuf
    }

    /** The index of a peer is its position, and no two peers share a send buffer. */
    ghost predicate Valid()
      reads this, Members()`position, Buffers(), Rings()
    {
      && (forall i :: 0 <= i < |peers| && peers[i] != null ==> peers[i].position == i && peers[i].rudp.Valid())
      && (forall i, j :: 0 <= i < |peers| && 0 <= j < |peers| && i != j && peers[i] != null && peers[j] != null ==>
            peers[i].rudp != peers[j].rudp && peers[i].rudp.rbuf != peers[j].rudp.rbuf)
    }

    /** Starting from logs, everyone but the player at position k got msgs, and no buffer lost anything. */
    ghost predicate Pushed(logs: seq<seq<BattleMessage>>, k: nat, msgs: seq<BattleMessage>)
      reads this, Buffers()
    {
      Grew(peers, logs, Logs(), k, msgs)
    }

    method SendMessage(peer: UDPPeer, msg: BattleMessage)
      requires Valid()
      modifies Buffers()`end, Buffers()`log, Rings()
      ensures Valid() && Pushed(old(Logs()), peer.position, [msg])
    {
      var k := peer.position;
      for i := 0 to |peers|
        invariant Valid()
        invariant forall j :: 0 <= j < |peers| && peers[j] != null ==>
                    peers[j].rudp.log == old(peers[j].rudp.log) + if j < i && j != k then [msg] else []
      {
        if i == k {
          continue;
        }
        SendTo(i, msg);
      }
    }

    /** One round of the loop. */
    method SendTo(i: nat, msg: BattleMessage)
      requires Valid() && i < |peers|
      modifies Buffers()`end, Buffers()`log, Rings()
      ensures Valid()
      ensures forall j :: 0 <= j < |peers| && peers[j] != null ==>
                peers[j].rudp.log == old(peers[j].rudp.log) + if j == i then [msg] else []
    {
      var other := peers[i];
      if other != null {
        other.AddSendMessage(msg);
      }
    }

    /** The loop of Serve's receive branch over what was read. */
    method Forward(peer: UDPPeer, batch: seq<BattleMessage>) returns (fin: bool)
      requires Valid()
      modifies Buffers()`end, Buffers()`log, Rings()
      ensures fin == HasFin(batch)
      ensures Valid() && Pushed(old(Logs()), peer.position, BeforeFin(batch))
    {
      var i: nat;
      ghost var sent;
      i, sent := ForwardPrefix(peer, batch);
      FirstOfIs(batch, i);
      forall k | 0 <= k < i ensures batch[k].body != Framing.FIN {
        FinFreeAt(batch, i, k);
      }
      if i < |batch| {
        EndFrame(batch[i].body);
      }
      BeforeFinIs(batch, i);
      FinFound(batch);
      return i < |batch|;
    }

    /** Sends messages until a battle end frame or the end; i is how many. */
    method ForwardPrefix(peer: UDPPeer, batch: seq<BattleMessage>) returns (i: nat, ghost sent: seq<BattleMessage>)
      requires Valid()
      modifies Buffers()`end, Buffers()`log, Rings()
      ensures i <= |batch| && FinFree(batch, i)
      ensures i < |batch| ==> IsFinData(batch[i].body)
      ensures sent == FirstOf(batch, i)
      ensures Valid() && Pushed(old(Logs()), peer.position, sent)
    {
      ghost var logs := Logs();
      i, sent := 0, [];
      NoneGrew(peers, logs, peer.position, sent);
      while i < |batch|
        invariant i <= |batch| && Valid()
        invariant sent == FirstOf(batch, i)
        invariant Pushed(logs, peer.position, sent)
        invariant FinFree(batch, i)
      {
        if IsFinData(batch[i].body) {
          return;
        }
        SendOneMore(peer, batch[i], logs, sent);
        sent := sent + [batch[i]];
        i := i + 1;
      }
    }

    /** One round of the loop: msg after sent. */
    method SendOneMore(peer: UDPPeer, msg: BattleMessage, ghost logs: seq<seq<BattleMessage>>,
                       ghost sent: seq<BattleMessage>)
      requires Valid() && Pushed(logs, peer.position, sent)
      modifies Buffers()`end, Buffers()`log, Rings()
      ensures Valid() && Pushed(logs, peer.position, sent + [msg])
    {
      ghost var before := Logs();
      SendMessage(peer, msg);
      GrewMore(peers, logs, before, Logs(), peer.position, sent, msg);
    }

    method Clear()
      modifies this`peers
      ensures peers == [] && Valid()
    {
      for i := 0 to |peers|
        invariant |peers| == |old(peers)|
      {
        peers := peers[i := null];
      }
      peers := peers[..0];
    }

    method Join(p: UDPPeer)
      requires Valid() && p !in peers && p.rudp.Valid()
      requires forall q :: q in peers && q != null ==> q.rudp != p.rudp && q.rudp.rbuf != p.rudp.rbuf
      modifies this`peers, p`position, p`roomId
      ensures Valid() && peers == old(peers) + [p] && p.roomId == id
    {
      p.roomId := id;
      p.position := |peers|;
      peers := peers + [p];
    }

    /** The peer's place stays empty, and the room starts over once every place is. */
    method Leave(p: UDPPeer)
      requires Valid()
      modifies this`peers
      ensures Valid()
      ensures var left := Vacated(old(peers), p.position);
              peers == if forall j :: 0 <= j < |left| ==> left[j] == null then [] else left
    {
      var pos := p.position;
      if pos < |peers| {
        peers := peers[pos := null];
      }
      var empty := true;
      for i := 0 to |peers|
        invariant empty && forall j :: 0 <= j < i ==> peers[j] == null
        invariant peers == Vacated(old(peers), pos)
      {
        if peers[i] != null {
          empty := false;
          break;
        }
      }
      if empty {
        Clear();
      }
    }
  }

  function Vacated(peers: seq<UDPPeer?>, pos: nat): seq<UDPPeer?> {
    if pos < |peers| then peers[pos := null] else peers
  }
}
