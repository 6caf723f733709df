/** One reliable UDP connection: two ends, and a network that loses, duplicates and reorders packets.
    The packet reader of an end runs concurrently with its sender, so receiving is not atomic: the
    acknowledgement is stored first and the messages are then filtered one at a time. */
module ReliableLink {
  import opened Wrappers
  import opened Bytes
  import opened BattleBuffers

  datatype Packet = Packet(data: seq<BattleMessage>, seqNumber: uint32, ackNumber: uint32)

  /** An end: its send buffer (log, begin, ack), its filter counters, the messages it let through, and
      the messages of the packet being read that were not filtered yet. frontier is a history variable
      no step looks at: how many messages of the other end's log were filtered so far. */
  datatype End = End(
    log: seq<BattleMessage>,
    begin: uint32,
    ack: uint32,
    recv: map<string, uint32>,
    passed: seq<BattleMessage>,
    pending: seq<BattleMessage>,
    frontier: nat)

  function NewEnd(accept: set<string>): End {
    End([], 1, 0, map id | id in accept :: 0, [], [], 0)
  }

  predicate InRange(log: seq<BattleMessage>) {
    |log| + 1 + WINDOW < WORD32
  }

  // ---- The operations of an end -------------------------------------------------------------

  function Push(e: End, msg: BattleMessage): End {
    e.(log := e.log + [msg])
  }

  function Sent(e: End): Packet
    requires Sendable(|e.log|, e.begin)
  {
    var w := Window(e.log, e.begin);
    Packet(w, e.begin + |w| - 1, e.ack)
  }

  /** ApplySeqAck, and the packet's messages wait for the filter. */
  function StartReceive(e: End, pkt: Packet): End {
    e.(begin := Next32(pkt.ackNumber), ack := pkt.seqNumber, pending := pkt.data)
  }

  function FilterNext(e: End): End
    requires e.pending != []
  {
    var msg := e.pending[0];
    var number := e.ack - |e.pending| + 1;
    e.(recv := Counted(e.recv, msg),
       passed := if Passes(e.recv, msg) then e.passed + [msg] else e.passed,
       pending := e.pending[1..],
       frontier := if number > e.frontier then number else e.frontier)
  }

  // ---- Numbering ----------------------------------------------------------------------------

  /** The number of user's last message in log, 0 if there is none. */
  function LastNumber(log: seq<BattleMessage>, user: string): uint32 {
    if log == [] then 0
    else if log[|log| - 1].userId == user then log[|log| - 1].number
    else LastNumber(log[..|log| - 1], user)
  }

  /** msg continues the numbering of its user in log; a user may start anywhere above 0. */
  predicate Continues(log: seq<BattleMessage>, msg: BattleMessage) {
    var last := LastNumber(log, msg.userId);
    msg.number >= 1 && (last == 0 || msg.number == last + 1)
  }

  predicate WellNumbered(log: seq<BattleMessage>) {
    forall k :: 0 <= k < |log| ==> Continues(log[..k], log[k])
  }

  lemma WellNumberedAppend(log: seq<BattleMessage>, msg: BattleMessage)
    requires WellNumbered(log) && Continues(log, msg)
    ensures WellNumbered(log + [msg])
  {
    var log1 := log + [msg];
    forall k | 0 <= k < |log1|
      ensures Continues(log1[..k], log1[k])
    {
      assert log1[..k] == log[..k];
    }
  }

  /** The counters a filter for accept holds after the messages of log. */
  function Counters(log: seq<BattleMessage>, accept: set<string>): map<string, uint32> {
    map id | id in accept :: LastNumber(log, id)
  }

  /** The accepted ones of the first n messages. */
  function Accepted(log: seq<BattleMessage>, n: nat, accept: set<string>): seq<BattleMessage>
    requires n <= |log|
  {
    if n == 0 then []
    else Accepted(log, n - 1, accept) + if log[n - 1].userId in accept then [log[n - 1]] else []
  }

  lemma {:induction false} AcceptedOfMore(log: seq<BattleMessage>, msg: BattleMessage, n: nat, accept: set<string>)
    requires n <= |log|
    ensures Accepted(log + [msg], n, accept) == Accepted(log, n, accept)
  {
    if n > 0 {
      AcceptedOfMore(log, msg, n - 1, accept);
    }
  }

  /** Message number k + 1 of the log is not above its user's counter once n > k messages were counted. */
  lemma {:induction false} OldMessageNumber(log: seq<BattleMessage>, k: nat, n: nat)
    requires WellNumbered(log) && k < n <= |log|
    ensures 1 <= log[k].number <= LastNumber(log[..n], log[k].userId)
    decreases n
  {
    assert log[..n][..n - 1] == log[..n - 1];
    if k < n - 1 {
      OldMessageNumber(log, k, n - 1);
      assert Continues(log[..n - 1], log[n - 1]);
    } else {
      assert Continues(log[..k], log[k]);
    }
  }

  // ---- The two-way invariant ----------------------------------------------------------------

  /** How much of the other end's log r will have filtered when the packet being read is finished. */
  function Target(r: End): nat {
    if r.pending != [] && r.ack > r.frontier then r.ack else r.frontier
  }

  /** pkt carries messages seqNumber - |data| + 1 .. seqNumber of log, leaving no gap after reached. */
  predicate Carries(pkt: Packet, log: seq<BattleMessage>, reached: nat) {
    && |pkt.data| <= pkt.seqNumber <= |log|
    && pkt.data == log[pkt.seqNumber - |pkt.data|..pkt.seqNumber]
    && pkt.seqNumber - |pkt.data| <= reached
  }

  /** Data flows from s to r: every packet under way to r, old or new, starts at most one past what r
      will have filtered, and no acknowledgement stored or under way to s exceeds it. */
  ghost predicate Flow(s: End, r: End, data: set<Packet>, acks: set<Packet>, accept: set<string>) {
    && WellNumbered(s.log) && InRange(s.log)
    && r.frontier <= |s.log|
    && r.passed == Accepted(s.log, r.frontier, accept)
    && r.recv == Counters(s.log[..r.frontier], accept)
    && (forall pkt :: pkt in data ==> Carries(pkt, s.log, Target(r)))
    && (r.pending != [] ==> Carries(Packet(r.pending, r.ack, 0), s.log, r.frontier))
    && r.ack <= Target(r)
    && (forall pkt :: pkt in acks ==> pkt.ackNumber <= Target(r))
    && 1 <= s.begin <= Target(r) + 1
  }

  lemma {:induction false} FlowStarts(accept: set<string>, other: set<string>)
    ensures Flow(NewEnd(other), NewEnd(accept), {}, {}, accept)
  {
    assert Accepted([], 0, accept) == [];
  }

  lemma FlowPush(s: End, r: End, data: set<Packet>, acks: set<Packet>, accept: set<string>, msg: BattleMessage)
    requires Flow(s, r, data, acks, accept)
    requires Continues(s.log, msg) && InRange(Push(s, msg).log)
    ensures Flow(Push(s, msg), r, data, acks, accept)
  {
    var log1 := s.log + [msg];
    WellNumberedAppend(s.log, msg);
    AcceptedOfMore(s.log, msg, r.frontier, accept);
    assert log1[..r.frontier] == s.log[..r.frontier];
    forall pkt | pkt in data
      ensures Carries(pkt, log1, Target(r))
    {
      CarriesMore(pkt, s.log, msg, Target(r));
    }
    if r.pending != [] {
      CarriesMore(Packet(r.pending, r.ack, 0), s.log, msg, r.frontier);
    }
  }

  /** What r itself sends does not matter to what it receives. */
  lemma FlowIgnoresReceiverLog(s: End, r: End, r1: End, data: set<Packet>, acks: set<Packet>, accept: set<string>)
    requires Flow(s, r, data, acks, accept) && r1 == r.(log := r1.log)
    ensures Flow(s, r1, data, acks, accept)
  {
    assert Target(r1) == Target(r);
  }

  /** What s itself receives does not matter to what it sends. */
  lemma FlowIgnoresSenderFilter(s: End, s1: End, r: End, data: set<Packet>, acks: set<Packet>, accept: set<string>)
    requires Flow(s, r, data, acks, accept) && s1.log == s.log && s1.begin == s.begin
    ensures Flow(s1, r, data, acks, accept)
  {
  }

  lemma CarriesMore(pkt: Packet, log: seq<BattleMessage>, msg: BattleMessage, reached: nat)
    requires Carries(pkt, log, reached)
    ensures Carries(pkt, log + [msg], reached)
  {
    var a, b := pkt.seqNumber - |pkt.data|, pkt.seqNumber;
    assert (log + [msg])[a..b] == log[a..b];
  }

  /** A data packet under way. */
  lemma FlowSend(s: End, r: End, data: set<Packet>, acks: set<Packet>, accept: set<string>)
    requires Flow(s, r, data, acks, accept)
    requires Sendable(|s.log|, s.begin)
    ensures Flow(s, r, data + {Sent(s)}, acks, accept)
  {
    var pkt := Sent(s);
    assert Carries(pkt, s.log, Target(r));
  }

  /** An acknowledgement under way. */
  lemma FlowAcknowledge(s: End, r: End, data: set<Packet>, acks: set<Packet>, accept: set<string>)
    requires Flow(s, r, data, acks, accept)
    requires Sendable(|r.log|, r.begin)
    ensures Flow(s, r, data, acks + {Sent(r)}, accept)
  {
  }

  /** Any packet ever sent may arrive, again and in any order: r takes its data. */
  lemma FlowReceiveData(s: End, r: End, data: set<Packet>, acks: set<Packet>, accept: set<string>, pkt: Packet)
    requires Flow(s, r, data, acks, accept)
    requires pkt in data && r.pending == []
    ensures Flow(s, StartReceive(r, pkt), data, acks, accept)
    ensures Target(StartReceive(r, pkt)) >= Target(r)
  {
    assert Carries(pkt, s.log, Target(r));
    var r1 := StartReceive(r, pkt);
    assert Carries(Packet(r1.pending, r1.ack, 0), s.log, r.frontier);
    forall p | p in data
      ensures Carries(p, s.log, Target(r1))
    {
      assert Carries(p, s.log, Target(r));
    }
  }

  /** ... and s takes its acknowledgement, even one older than what it has. */
  lemma FlowReceiveAck(s: End, r: End, data: set<Packet>, acks: set<Packet>, accept: set<string>, pkt: Packet)
    requires Flow(s, r, data, acks, accept)
    requires pkt in acks
    ensures Flow(StartReceive(s, pkt), r, data, acks, accept)
  {
    assert pkt.ackNumber + 1 < WORD32;
  }

  lemma FlowFilter(s: End, r: End, data: set<Packet>, acks: set<Packet>, accept: set<string>)
    requires Flow(s, r, data, acks, accept)
    requires r.pending != []
    ensures Flow(s, FilterNext(r), data, acks, accept)
    ensures Target(FilterNext(r)) == Target(r)
    ensures r.passed <= FilterNext(r).passed
  {
    FilteredNext(s.log, r, accept);
  }

  /** Counters and result advance with frontier. */
  lemma FilteredNext(log: seq<BattleMessage>, r: End, accept: set<string>)
    requires WellNumbered(log) && r.pending != [] && r.frontier <= |log|
    requires Carries(Packet(r.pending, r.ack, 0), log, r.frontier)
    requires r.passed == Accepted(log, r.frontier, accept) && r.recv == Counters(log[..r.frontier], accept)
    ensures var r1 := FilterNext(r);
            && r1.frontier <= |log|
            && r1.passed == Accepted(log, r1.frontier, accept) && r1.recv == Counters(log[..r1.frontier], accept)
            && (r1.pending != [] ==> Carries(Packet(r1.pending, r1.ack, 0), log, r1.frontier))
            && Target(r1) == Target(r) && r.passed <= r1.passed
  {
    var (r1, k, n) := (FilterNext(r), r.ack - |r.pending|, r.frontier);
    PendingAdvances(log, r);
    MessageFiltered(log, k, n, accept);
    assert r1.recv == Counted(r.recv, log[k]);
    assert r1.passed == if Passes(r.recv, log[k]) then r.passed + [log[k]] else r.passed;
  }

  /** The packet being read shrinks from the front and still leaves no gap. */
  lemma PendingAdvances(log: seq<BattleMessage>, r: End)
    requires r.pending != [] && r.frontier <= |log|
    requires Carries(Packet(r.pending, r.ack, 0), log, r.frontier)
    ensures var (r1, k) := (FilterNext(r), r.ack - |r.pending|);
            && k <= r.frontier && r.pending[0] == log[k]
            && r1.frontier == (if k < r.frontier then r.frontier else r.frontier + 1) <= |log|
            && (r1.pending != [] ==> Carries(Packet(r1.pending, r1.ack, 0), log, r1.frontier))
            && Target(r1) == Target(r)
  {
    var k := r.ack - |r.pending|;
    assert r.pending[1..] == log[k + 1..r.ack];
  }

  /** Filtering message k + 1 when n >= k were: it advances counters and result exactly if it is the next. */
  lemma MessageFiltered(log: seq<BattleMessage>, k: nat, n: nat, accept: set<string>)
    requires WellNumbered(log) && k <= n <= |log| && k < |log|
    ensures var (recv, passed) := (Counters(log[..n], accept), Accepted(log, n, accept));
            var n1 := if k < n then n else n + 1;
            && Counted(recv, log[k]) == Counters(log[..n1], accept)
            && (if Passes(recv, log[k]) then passed + [log[k]] else passed) == Accepted(log, n1, accept)
  {
    if k < n {
      RepeatedMessageRejected(log, k, n, accept);
    } else {
      NextMessageCounted(log, n, accept);
      var passed := Accepted(log, n, accept);
      assert passed + [] == passed;
    }
  }

  /** A message filtered before does not pass again. */
  lemma RepeatedMessageRejected(log: seq<BattleMessage>, k: nat, n: nat, accept: set<string>)
    requires WellNumbered(log) && k < n <= |log|
    ensures !Passes(Counters(log[..n], accept), log[k])
  {
    OldMessageNumber(log, k, n);
  }

  /** The next message passes exactly if its user is accepted, and the counters follow. */
  lemma NextMessageCounted(log: seq<BattleMessage>, n: nat, accept: set<string>)
    requires WellNumbered(log) && n < |log|
    ensures Passes(Counters(log[..n], accept), log[n]) <==> log[n].userId in accept
    ensures Counted(Counters(log[..n], accept), log[n]) == Counters(log[..n + 1], accept)
    ensures Accepted(log, n + 1, accept) ==
            Accepted(log, n, accept) + if log[n].userId in accept then [log[n]] else []
  {
    assert Continues(log[..n], log[n]);
    assert log[..n + 1][..n] == log[..n];
    var before, after := log[..n], log[..n + 1];
    forall id | id in accept
      ensures LastNumber(after, id) == if id == log[n].userId then log[n].number else LastNumber(before, id)
    {
    }
  }

  // ---- Runs ---------------------------------------------------------------------------------

  datatype Side = Client | Server

  /** up and down hold every packet ever sent: one may be delivered never, once or many times. */
  datatype Link = Link(client: End, server: End, up: set<Packet>, down: set<Packet>)
  {
    function At(side: Side): End {
      if side == Client then client else server
    }

    function With(side: Side, e: End): Link {
      if side == Client then this.(client := e) else this.(server := e)
    }

    function To(side: Side): set<Packet> {
      if side == Client then down else up
    }
  }

  datatype LinkStep =
    | PushStep(side: Side, msg: BattleMessage)
    | SendStep(side: Side)
    | ReceiveStep(side: Side, pkt: Packet)
    | FilterStep(side: Side)

  predicate Enabled(l: Link, step: LinkStep) {
    var e := l.At(step.side);
    match step
    case PushStep(_, msg) => Continues(e.log, msg) && InRange(Push(e, msg).log)
    case SendStep(_) => Sendable(|e.log|, e.begin)
    case ReceiveStep(_, pkt) => pkt in l.To(step.side) && e.pending == []
    case FilterStep(_) => e.pending != []
  }

  function Apply(l: Link, step: LinkStep): Link
    requires Enabled(l, step)
  {
    var e := l.At(step.side);
    match step
    case PushStep(side, msg) => l.With(side, Push(e, msg))
    case SendStep(Client) => l.(up := l.up + {Sent(e)})
    case SendStep(Server) => l.(down := l.down + {Sent(e)})
    case ReceiveStep(side, pkt) => l.With(side, StartReceive(e, pkt))
    case FilterStep(side) => l.With(side, FilterNext(e))
  }

  function NewLink(toServer: set<string>, toClient: set<string>): Link {
    Link(NewEnd(toClient), NewEnd(toServer), {}, {})
  }

  /** toServer and toClient are the users whose messages each end accepts. */
  ghost predicate LinkInv(l: Link, toServer: set<string>, toClient: set<string>) {
    && Flow(l.client, l.server, l.up, l.down, toServer)
    && Flow(l.server, l.client, l.down, l.up, toClient)
  }

  lemma LinkStarts(toServer: set<string>, toClient: set<string>)
    ensures LinkInv(NewLink(toServer, toClient), toServer, toClient)
  {
    FlowStarts(toServer, toClient);
    FlowStarts(toClient, toServer);
  }

  lemma LinkKeepsInv(l: Link, step: LinkStep, toServer: set<string>, toClient: set<string>)
    requires LinkInv(l, toServer, toClient) && Enabled(l, step)
    ensures LinkInv(Apply(l, step), toServer, toClient)
    ensures l.client.passed <= Apply(l, step).client.passed
    ensures l.server.passed <= Apply(l, step).server.passed
  {
    match step
    case PushStep(side, msg) =>
      if side == Client {
        FlowPush(l.client, l.server, l.up, l.down, toServer, msg);
        FlowIgnoresReceiverLog(l.server, l.client, Push(l.client, msg), l.down, l.up, toClient);
      } else {
        FlowPush(l.server, l.client, l.down, l.up, toClient, msg);
        FlowIgnoresReceiverLog(l.client, l.server, Push(l.server, msg), l.up, l.down, toServer);
      }
    case SendStep(side) =>
      if side == Client {
        FlowSend(l.client, l.server, l.up, l.down, toServer);
        FlowAcknowledge(l.server, l.client, l.down, l.up, toClient);
      } else {
        FlowSend(l.server, l.client, l.down, l.up, toClient);
        FlowAcknowledge(l.client, l.server, l.up, l.down, toServer);
      }
    case ReceiveStep(side, pkt) =>
      if side == Client {
        FlowReceiveData(l.server, l.client, l.down, l.up, toClient, pkt);
        FlowReceiveAck(l.client, l.server, l.up, l.down, toServer, pkt);
      } else {
        FlowReceiveData(l.client, l.server, l.up, l.down, toServer, pkt);
        FlowReceiveAck(l.server, l.client, l.down, l.up, toClient, pkt);
      }
    case FilterStep(side) =>
      if side == Client {
        FlowFilter(l.server, l.client, l.down, l.up, toClient);
        FlowIgnoresSenderFilter(l.client, FilterNext(l.client), l.server, l.up, l.down, toServer);
      } else {
        FlowFilter(l.client, l.server, l.up, l.down, toServer);
        FlowIgnoresSenderFilter(l.server, FilterNext(l.server), l.client, l.down, l.up, toClient);
      }
  }

  /** The state after the steps, None if one of them was not possible. */
  function Run(l: Link, steps: seq<LinkStep>): Option<Link>
    decreases |steps|
  {
    if steps == [] then Some(l)
    else if !Enabled(l, steps[0]) then None
    else Run(Apply(l, steps[0]), steps[1..])
  }

  lemma {:induction false} RunKeepsInv(l: Link, steps: seq<LinkStep>, toServer: set<string>, toClient: set<string>)
    requires LinkInv(l, toServer, toClient) && Run(l, steps).Some?
    ensures LinkInv(Run(l, steps).value, toServer, toClient)
    decreases |steps|
  {
    if steps != [] {
      LinkKeepsInv(l, steps[0], toServer, toClient);
      RunKeepsInv(Apply(l, steps[0]), steps[1..], toServer, toClient);
    }
  }

  /** Safety of every run: what each end let through is, in order and once each, the accepted messages
      among the first so many the other end pushed; the filter drops none of those. */
  lemma DeliveredIsPrefix(toServer: set<string>, toClient: set<string>, steps: seq<LinkStep>)
    requires Run(NewLink(toServer, toClient), steps).Some?
    ensures var l := Run(NewLink(toServer, toClient), steps).value;
            && (exists n: nat :: n <= |l.client.log| && l.server.passed == Accepted(l.client.log, n, toServer))
            && (exists n: nat :: n <= |l.server.log| && l.client.passed == Accepted(l.server.log, n, toClient))
  {
    LinkStarts(toServer, toClient);
    RunKeepsInv(NewLink(toServer, toClient), steps, toServer, toClient);
  }

  /** What r passed is the accepted part of the first frontier messages of s. Target is where frontier will
      be once the packet being read is finished: no begin passes it by more than one, no acknowledgement
      stored or under way exceeds it, and no packet under way starts behind it with a gap. */
  predicate InStep(s: End, r: End, data: set<Packet>, acks: set<Packet>, accept: set<string>) {
    && r.frontier <= Target(r) <= |s.log| && (r.pending == [] ==> Target(r) == r.frontier)
    && r.passed == Accepted(s.log, r.frontier, accept)
    && 1 <= s.begin <= Target(r) + 1 && r.ack <= Target(r)
    && (forall pkt :: pkt in acks ==> pkt.ackNumber <= Target(r))
    && (forall pkt :: pkt in data ==> pkt.seqNumber - |pkt.data| <= Target(r))
  }

  /** The acknowledgement side of the same runs, in both directions and also while a packet is being read,
      although begin and acknowledgements can move backwards. */
  lemma AcknowledgedWasFiltered(toServer: set<string>, toClient: set<string>, steps: seq<LinkStep>)
    requires Run(NewLink(toServer, toClient), steps).Some?
    ensures var l := Run(NewLink(toServer, toClient), steps).value;
            && InStep(l.client, l.server, l.up, l.down, toServer)
            && InStep(l.server, l.client, l.down, l.up, toClient)
  {
    LinkStarts(toServer, toClient);
    RunKeepsInv(NewLink(toServer, toClient), steps, toServer, toClient);
    var l := Run(NewLink(toServer, toClient), steps).value;
    FlowInStep(l.client, l.server, l.up, l.down, toServer);
    FlowInStep(l.server, l.client, l.down, l.up, toClient);
  }

  lemma FlowInStep(s: End, r: End, data: set<Packet>, acks: set<Packet>, accept: set<string>)
    requires Flow(s, r, data, acks, accept)
    ensures InStep(s, r, data, acks, accept)
  {
    forall pkt | pkt in data ensures pkt.seqNumber - |pkt.data| <= Target(r) {
      assert Carries(pkt, s.log, Target(r));
    }
  }

  /** Some run leads from l to l1. */
  ghost predicate Reaches(l: Link, l1: Link) {
    exists steps :: Run(l, steps) == Some(l1)
  }

  lemma ReachesSelf(l: Link)
    ensures Reaches(l, l)
  {
    assert Run(l, []) == Some(l);
  }

  lemma ReachesStep(l: Link, m: Link, step: LinkStep)
    requires Reaches(l, m) && Enabled(m, step)
    ensures Reaches(l, Apply(m, step))
  {
    var steps :| Run(l, steps) == Some(m);
    RunAppend(l, steps, step);
  }

  lemma ReachesTransitively(l: Link, m: Link, l1: Link)
    requires Reaches(l, m) && Reaches(m, l1)
    ensures Reaches(l, l1)
  {
    var a :| Run(l, a) == Some(m);
    var b :| Run(m, b) == Some(l1);
    RunConcat(l, a, b);
  }

  /** Begin does move backwards: the acknowledgement of an overtaken packet may arrive last. */
  lemma BeginMovesBackwards(m: BattleMessage, toServer: set<string>, toClient: set<string>)
    returns (before: Link, late: LinkStep)
    requires m.number == 1
    ensures Reaches(NewLink(toServer, toClient), before)
    ensures Enabled(before, late) && Apply(before, late).client.begin < before.client.begin
  {
    var l := FirstPacketsCross(m, toServer, toClient);
    before := SecondAcknowledged(NewLink(toServer, toClient), l, m);
    late := ReceiveStep(Client, Packet([], 0, 0));
  }

  /** Exactly a packet whose acknowledgement is older lowers begin. */
  lemma BeginFallsExactly(l: Link, step: LinkStep, side: Side)
    requires Enabled(l, step)
    ensures Apply(l, step).At(side).begin < l.At(side).begin <==>
            step.ReceiveStep? && step.side == side && Next32(step.pkt.ackNumber) < l.At(side).begin
  {
  }

  /** The first packets of both ends are under way. */
  lemma FirstPacketsCross(m: BattleMessage, toServer: set<string>, toClient: set<string>)
    returns (l: Link)
    requires m.number == 1
    ensures Reaches(NewLink(toServer, toClient), l)
    ensures Packet([m], 1, 0) in l.up && Packet([], 0, 0) in l.down
    ensures l.client.pending == [] && l.server == NewEnd(toServer)
  {
    var l0 := NewLink(toServer, toClient);
    ReachesSelf(l0);
    assert Continues([], m);
    l := Step(l0, l0, PushStep(Client, m));
    FirstPackets(m, l.client);
    l := Step(l0, l, SendStep(Client));
    FirstPackets(m, l.server);
    l := Step(l0, l, SendStep(Server));
  }

  lemma SecondAcknowledged(l0: Link, l: Link, m: BattleMessage) returns (l1: Link)
    requires Reaches(l0, l)
    requires Packet([m], 1, 0) in l.up && Packet([], 0, 0) in l.down
    requires l.client.pending == [] && l.server.log == l.server.pending == [] && l.server.begin == 1
    ensures Reaches(l0, l1) && l1.client.begin == 2
    ensures l1.client.pending == [] && Packet([], 0, 0) in l1.down
  {
    l1 := Step(l0, l, ReceiveStep(Server, Packet([m], 1, 0)));
    FirstPackets(m, l1.server);
    l1 := Step(l0, l1, SendStep(Server));
    assert Packet([], 0, 1) in l1.down;
    l1 := Step(l0, l1, ReceiveStep(Client, Packet([], 0, 1)));
  }

  lemma Step(l0: Link, l: Link, step: LinkStep) returns (l1: Link)
    requires Reaches(l0, l) && Enabled(l, step)
    ensures l1 == Apply(l, step) && Reaches(l0, l1)
  {
    l1 := Apply(l, step);
    ReachesStep(l0, l, step);
  }

  /** What an end sends first, before and after it has a message. */
  lemma FirstPackets(m: BattleMessage, e: End)
    requires e.begin == 1 && (e.log == [] || e.log == [m])
    ensures Sendable(|e.log|, e.begin) && Sent(e) == Packet(e.log, |e.log|, e.ack)
  {
    assert Window(e.log, 1) == e.log;
  }

  lemma {:induction false} RunAppend(l: Link, steps: seq<LinkStep>, step: LinkStep)
    requires Run(l, steps).Some? && Enabled(Run(l, steps).value, step)
    ensures Run(l, steps + [step]) == Some(Apply(Run(l, steps).value, step))
    decreases |steps|
  {
    if steps == [] {
      assert (steps + [step])[1..] == [];
    } else {
      assert (steps + [step])[1..] == steps[1..] + [step];
      RunAppend(Apply(l, steps[0]), steps[1..], step);
    }
  }

  // ---- Draining -----------------------------------------------------------------------------

  lemma {:induction false} RunConcat(l: Link, a: seq<LinkStep>, b: seq<LinkStep>)
    requires Run(l, a).Some?
    ensures Run(l, a + b) == Run(Run(l, a).value, b)
    decreases |a|
  {
    if a == [] {
      assert a + b == b;
    } else {
      assert (a + b)[1..] == a[1..] + b;
      RunConcat(Apply(l, a[0]), a[1..], b);
    }
  }

  function Other(side: Side): Side {
    if side == Client then Server else Client
  }

  function Min(a: int, b: int): int {
    if a < b then a else b
  }

  /** e with the packet it is reading filtered to the end. */
  function Finished(e: End): End
    decreases |e.pending|
  {
    if e.pending == [] then e else Finished(FilterNext(e))
  }

  predicate CanTransfer(l: Link, side: Side) {
    Sendable(|l.At(side).log|, l.At(side).begin) && l.At(Other(side)).pending == []
  }

  /** side sends, and the other end reads the whole packet. */
  function Transferred(l: Link, side: Side): Link
    requires CanTransfer(l, side)
  {
    var arrived := StartReceive(l.At(Other(side)), Sent(l.At(side)));
    Apply(l, SendStep(side)).With(Other(side), Finished(arrived))
  }

  /** l1 is l after a lossless round trip from the client to the server and back. */
  predicate RoundTripTo(l: Link, l1: Link) {
    && CanTransfer(l, Client)
    && var m := Transferred(l, Client);
       CanTransfer(m, Server) && l1 == Transferred(m, Server)
  }

  /** The filtering that finishes the packet side is reading is part of a run. */
  lemma {:induction false} FinishPacket(l: Link, side: Side, toServer: set<string>, toClient: set<string>)
    requires LinkInv(l, toServer, toClient)
    ensures var (e, e1) := (l.At(side), Finished(l.At(side)));
            && Reaches(l, l.With(side, e1)) && LinkInv(l.With(side, e1), toServer, toClient)
            && e1.pending == [] && e1.frontier == Target(e)
            && (e1.log, e1.begin, e1.ack) == (e.log, e.begin, e.ack)
    decreases |l.At(side).pending|
  {
    ReachesSelf(l);
    if l.At(side).pending == [] {
      assert l.With(side, l.At(side)) == l;
    } else {
      var step := FilterStep(side);
      LinkKeepsInv(l, step, toServer, toClient);
      var m := Apply(l, step);
      FinishPacket(m, side, toServer, toClient);
      var e1 := Finished(l.At(side));
      assert m.With(side, e1) == l.With(side, e1);
      ReachesStep(l, l, step);
      ReachesTransitively(l, m, l.With(side, e1));
      if side == Client {
        FlowFilter(l.server, l.client, l.down, l.up, toClient);
      } else {
        FlowFilter(l.client, l.server, l.up, l.down, toServer);
      }
    }
  }

  /** What reading the whole packet leaves of the reader, its filter aside. */
  predicate HasRead(r: End, pkt: Packet, r1: End) {
    && r1.log == r.log && r1.pending == []
    && r1.begin == Next32(pkt.ackNumber) && r1.ack == pkt.seqNumber
    && r1.frontier == if pkt.data != [] && pkt.seqNumber > r.frontier then pkt.seqNumber else r.frontier
  }

  lemma Transfer(l: Link, side: Side, toServer: set<string>, toClient: set<string>)
    requires LinkInv(l, toServer, toClient) && CanTransfer(l, side)
    ensures var l1 := Transferred(l, side);
            && Reaches(l, l1) && LinkInv(l1, toServer, toClient)
            && l1.At(side) == l.At(side)
            && HasRead(l.At(Other(side)), Sent(l.At(side)), l1.At(Other(side)))
  {
    var pkt := Sent(l.At(side));
    var send, receive := SendStep(side), ReceiveStep(Other(side), pkt);
    LinkKeepsInv(l, send, toServer, toClient);
    ReachesSelf(l);
    var sent := Step(l, l, send);
    LinkKeepsInv(sent, receive, toServer, toClient);
    var received := Step(l, sent, receive);
    FinishPacket(received, Other(side), toServer, toClient);
    var l1 := received.With(Other(side), Finished(received.At(Other(side))));
    assert l1 == Transferred(l, side);
    ReachesTransitively(l, received, l1);
  }

  /** Nothing is being read, and the client's unacknowledged messages and the server's fit the rings. */
  predicate Quiet(l: Link) {
    && l.client.pending == [] && l.server.pending == []
    && Sendable(|l.client.log|, l.client.begin)
    && l.client.ack <= |l.server.log| && Sendable(|l.server.log|, l.client.ack + 1)
  }

  /** What a round trip changes: begin passes the window sent, and its messages were filtered. */
  predicate Advanced(l: Link, count: nat, l1: Link) {
    && l1.client.log == l.client.log && l1.server.log == l.server.log
    && l1.client.begin == l.client.begin + Min(count, |l.client.log| + 1 - l.client.begin)
  }

  /** One lossless round trip is possible, is a run, and moves begin over the whole window sent. */
  lemma RoundTrip(l: Link, toServer: set<string>, toClient: set<string>) returns (l1: Link)
    requires LinkInv(l, toServer, toClient) && Quiet(l)
    ensures WindowTrip(l, l1) && Reaches(l, l1)
    ensures LinkInv(l1, toServer, toClient) && Quiet(l1)
  {
    Transfer(l, Client, toServer, toClient);
    var m := Transferred(l, Client);
    assert HasRead(l.server, Sent(l.client), m.server);
    ServerCanAnswer(l, m.server);
    Transfer(m, Server, toServer, toClient);
    l1 := Transferred(m, Server);
    ReachesTransitively(l, m, l1);
    BeginAdvances(l, m, l1);
  }

  lemma ServerCanAnswer(l: Link, server: End)
    requires Quiet(l) && HasRead(l.server, Sent(l.client), server)
    ensures Sendable(|server.log|, server.begin)
  {
    SmallMod(l.client.ack + 1);
  }

  lemma BeginAdvances(l: Link, m: Link, l1: Link)
    requires Quiet(l)
    requires |l.client.log| + 1 + WINDOW < WORD32 && |l.server.log| + 1 + WINDOW < WORD32
    requires m.client == l.client && HasRead(l.server, Sent(l.client), m.server)
    requires Sendable(|m.server.log|, m.server.begin)
    requires l1.server == m.server && HasRead(m.client, Sent(m.server), l1.client)
    ensures Quiet(l1) && Advanced(l, WINDOW, l1)
  {
    SmallMod(l.client.ack + 1);
    SmallMod(m.server.ack + 1);
  }

  /** Each of the states is its predecessor after a lossless round trip that acknowledged a whole window. */
  predicate RoundTripsThrough(states: seq<Link>) {
    forall i, j :: 0 <= i < |states| - 1 && j == i + 1 ==> WindowTrip(states[i], states[j])
  }

  predicate WindowTrip(l: Link, l1: Link) {
    RoundTripTo(l, l1) && Advanced(l, WINDOW, l1)
  }

  /** n windows further, or at the end. */
  lemma {:induction false} AdvancedBy(states: seq<Link>, n: nat)
    requires RoundTripsThrough(states) && n < |states|
    requires states[0].client.begin <= |states[0].client.log| + 1
    ensures Advanced(states[0], 50 * n, states[n])
    decreases n
  {
    if n > 0 {
      AdvancedBy(states, n - 1);
      assert WindowTrip(states[n - 1], states[n]);
    }
  }

  lemma RoundTripsAppend(states: seq<Link>, l1: Link)
    requires states != [] && RoundTripsThrough(states) && WindowTrip(states[|states| - 1], l1)
    ensures RoundTripsThrough(states + [l1])
    ensures (states + [l1])[0] == states[0] && (states + [l1])[|states|] == l1
  {
  }

  /** With no new messages, any number of round trips is possible, each acknowledging a whole window. */
  lemma {:induction false} RoundTrips(l: Link, n: nat, toServer: set<string>, toClient: set<string>)
    returns (states: seq<Link>)
    requires LinkInv(l, toServer, toClient) && Quiet(l)
    ensures |states| == n + 1 && states[0] == l && RoundTripsThrough(states)
    ensures Reaches(l, states[n]) && LinkInv(states[n], toServer, toClient) && Quiet(states[n])
    decreases n
  {
    if n == 0 {
      states := [l];
      ReachesSelf(l);
    } else {
      var trips := RoundTrips(l, n - 1, toServer, toClient);
      var l1 := RoundTrip(trips[n - 1], toServer, toClient);
      RoundTripsAppend(trips, l1);
      ReachesTransitively(l, trips[n - 1], l1);
      states := trips + [l1];
    }
  }

  /** ceil(outstanding / 50) lossless round trips acknowledge and deliver every message pushed. */
  lemma DrainedAfter(l: Link, toServer: set<string>, toClient: set<string>) returns (states: seq<Link>)
    requires LinkInv(l, toServer, toClient) && Quiet(l)
    ensures states != [] && states[0] == l && RoundTripsThrough(states)
    ensures |states| - 1 == (|l.client.log| + 1 - l.client.begin + 49) / 50
    ensures var l1 := states[|states| - 1];
            && Reaches(l, l1)
            && LinkInv(l1, toServer, toClient)
            && l1.client.log == l.client.log && l1.server.log == l.server.log
            && l1.client.begin == |l.client.log| + 1
            && l1.server.passed == Accepted(l.client.log, |l.client.log|, toServer)
  {
    var trips := (|l.client.log| + 1 - l.client.begin + 49) / 50;
    states := RoundTrips(l, trips, toServer, toClient);
    AdvancedBy(states, trips);
    AllFiltered(states[trips], toServer, toClient);
  }

  lemma AllFiltered(l: Link, toServer: set<string>, toClient: set<string>)
    requires LinkInv(l, toServer, toClient)
    requires l.server.pending == [] && l.client.begin == |l.client.log| + 1
    ensures l.server.passed == Accepted(l.client.log, |l.client.log|, toServer)
  {
    assert l.client.log[..l.server.frontier] == l.client.log;
  }

  /** Reading a packet to its end is the loop of OnReceive: one FilterAll over its messages. */
  lemma {:induction false} FinishedIsFilterAll(e: End)
    ensures (Finished(e).recv, Finished(e).passed) ==
            (FilterAll(e.recv, e.pending).0, e.passed + FilterAll(e.recv, e.pending).1)
    decreases |e.pending|
  {
    if e.pending == [] {
      assert e.passed + [] == e.passed;
    } else {
      var e1 := FilterNext(e);
      FinishedIsFilterAll(e1);
      var first := if Passes(e.recv, e.pending[0]) then [e.pending[0]] else [];
      var rest := FilterAll(e1.recv, e1.pending).1;
      assert e1.passed == e.passed + first;
      assert e.passed + (first + rest) == (e.passed + first) + rest;
    }
  }
}
