/** What the room's methods do to their peers' buffers are the steps of the battle. */
module RoomSteps {
  import opened Wrappers
  import opened Bytes
  import opened BattleBuffers
  import opened ReliableLink
  import opened BattleRooms
  import opened TwoHop

  /** The places of a room whose peers serve the users that name gives. */
  ghost function PlacesOf(peers: seq<UDPPeer?>, name: UDPPeer -> string): (places: seq<Option<string>>)
    ensures |places| == |peers|
    ensures forall i :: 0 <= i < |peers| ==> places[i] == if peers[i] == null then None else Some(name(peers[i]))
  {
    seq(|peers|, i requires 0 <= i < |peers| => if peers[i] == null then None else Some(name(peers[i])))
  }

  /** The battle's places are those of the room, and its players' send buffers are those of the peers. */
  ghost predicate Shows(peers: seq<UDPPeer?>, logs: seq<seq<BattleMessage>>, name: UDPPeer -> string, b: Battle) {
    && |logs| == |peers| && b.places == PlacesOf(peers, name)
    && forall i :: 0 <= i < |peers| && peers[i] != null ==>
         name(peers[i]) in b.players && b.players[name(peers[i])].link.server.log == logs[i]
  }

  /** Room.SendMessage is the step that forwards a player's next message. */
  lemma SendMessageIsForward(peers: seq<UDPPeer?>, logs: seq<seq<BattleMessage>>, logs1: seq<seq<BattleMessage>>,
                             name: UDPPeer -> string, b: Battle, u: string)
    requires Seated(b.players, b.places) && CanStep(b, Forward(u)) && Shows(peers, logs, name, b)
    requires var p := b.players[u]; Grew(peers, logs, logs1, p.pos, [p.link.server.passed[p.processed]])
    ensures Shows(peers, logs1, name, Next(b, Forward(u)))
  {
    ForwardIsForwardedTo(b, u);
    var k := b.players[u].pos;
    forall i | 0 <= i < |peers| && peers[i] != null
      ensures Receives(b.places, name(peers[i]), k) <==> i != k
    {
      assert b.places[i] == Some(name(peers[i])) && SeatedAt(b.players[name(peers[i])], i);
    }
  }

  function Forwards(u: string, n: nat): seq<BattleStep> {
    if n == 0 then [] else [Forward(u)] + Forwards(u, n - 1)
  }

  /** The peers' buffers grew by the next n messages of u. */
  ghost predicate GrewBy(peers: seq<UDPPeer?>, logs: seq<seq<BattleMessage>>, logs1: seq<seq<BattleMessage>>,
                         p: Player, n: nat) {
    && p.processed + n <= |p.link.server.passed|
    && Grew(peers, logs, logs1, p.pos, p.link.server.passed[p.processed..p.processed + n])
  }

  /** The loop of Serve over n messages is as many such steps. */
  lemma {:induction false} ForwardIsRun(peers: seq<UDPPeer?>, logs: seq<seq<BattleMessage>>,
                                        logs1: seq<seq<BattleMessage>>, name: UDPPeer -> string, b: Battle, u: string,
                                        n: nat, b1: Battle)
    requires BattleInv(b) && u in b.players && Shows(peers, logs, name, b)
    requires RunBattle(b, Forwards(u, n)) == Some(b1) && GrewBy(peers, logs, logs1, b.players[u], n)
    ensures Shows(peers, logs1, name, b1)
    decreases n
  {
    if n == 0 {
      NothingGrew(peers, logs, logs1, b.players[u]);
    } else {
      FirstOfRun(b, u, n);
      var next, mid := OneForwarded(peers, logs, logs1, name, b, u, n);
      ForwardIsRun(peers, mid, logs1, name, next, u, n - 1, b1);
    }
  }

  lemma FirstOfRun(b: Battle, u: string, n: nat)
    requires n >= 1 && RunBattle(b, Forwards(u, n)).Some?
    ensures CanStep(b, Forward(u))
    ensures RunBattle(b, Forwards(u, n)) == RunBattle(Next(b, Forward(u)), Forwards(u, n - 1))
  {
    assert Forwards(u, n)[1..] == Forwards(u, n - 1);
  }

  lemma OneForwarded(peers: seq<UDPPeer?>, logs: seq<seq<BattleMessage>>, logs1: seq<seq<BattleMessage>>,
                     name: UDPPeer -> string, b: Battle, u: string, n: nat)
    returns (next: Battle, mid: seq<seq<BattleMessage>>)
    requires BattleInv(b) && CanStep(b, Forward(u)) && Shows(peers, logs, name, b)
    requires n >= 1 && GrewBy(peers, logs, logs1, b.players[u], n)
    ensures next == Next(b, Forward(u)) && BattleInv(next) && u in next.players
    ensures Shows(peers, mid, name, next) && GrewBy(peers, mid, logs1, next.players[u], n - 1)
  {
    var p := b.players[u];
    next := Next(b, Forward(u));
    mid := GrewFirst(peers, logs, logs1, p, n);
    SendMessageIsForward(peers, logs, mid, name, b, u);
    ForwardKeeps(b, u);
    ForwardTakes(b, u);
  }

  lemma NothingGrew(peers: seq<UDPPeer?>, logs: seq<seq<BattleMessage>>, logs1: seq<seq<BattleMessage>>, p: Player)
    requires GrewBy(peers, logs, logs1, p, 0)
    ensures forall i :: 0 <= i < |peers| && peers[i] != null ==> logs1[i] == logs[i]
  {
  }

  /** The logs after the first of the messages. */
  lemma GrewFirst(peers: seq<UDPPeer?>, logs: seq<seq<BattleMessage>>, logs1: seq<seq<BattleMessage>>, p: Player,
                  n: nat)
    returns (mid: seq<seq<BattleMessage>>)
    requires n >= 1 && GrewBy(peers, logs, logs1, p, n)
    ensures Grew(peers, logs, mid, p.pos, [p.link.server.passed[p.processed]])
    ensures GrewBy(peers, mid, logs1, p.(processed := p.processed + 1), n - 1)
  {
    var (k, passed) := (p.processed, p.link.server.passed);
    mid := seq(|peers|, i requires 0 <= i < |peers| => logs[i] + if i == p.pos then [] else [passed[k]]);
    assert [passed[k]] + passed[k + 1..k + n] == passed[k..k + n];
  }

  lemma ForwardTakes(b: Battle, u: string)
    requires Seated(b.players, b.places) && CanStep(b, Forward(u))
    ensures var (p, b1) := (b.players[u], Next(b, Forward(u)));
            u in b1.players && b1.players[u] == p.(processed := p.processed + 1)
  {
    NotInOwnBuffer(b, u);
    ForwardIsForwardedTo(b, u);
  }

  /** Room.Join is the step that gives a player the next place. */
  lemma JoinIsStep(peers: seq<UDPPeer?>, logs: seq<seq<BattleMessage>>, name: UDPPeer -> string, b: Battle, p: UDPPeer)
    requires Shows(peers, logs, name, b) && CanStep(b, Join(name(p)))
    ensures Next(b, Join(name(p))).players[name(p)].pos == |peers|
    ensures Shows(peers + [p], logs + [b.players[name(p)].link.server.log], name, Next(b, Join(name(p))))
  {
    assert PlacesOf(peers + [p], name) == b.places + [Some(name(p))];
  }

  /** Room.Leave is the step that vacates a player's place, and if that leaves the room empty it is followed
      by the one that clears it. */
  lemma LeaveIsSteps(peers: seq<UDPPeer?>, logs: seq<seq<BattleMessage>>, name: UDPPeer -> string, b: Battle, u: string)
    requires Shows(peers, logs, name, b) && CanStep(b, Leave(u))
    ensures var (left, b1) := (Vacated(peers, b.players[u].pos), Next(b, Leave(u)));
            if forall i :: 0 <= i < |left| ==> left[i] == null
            then CanStep(b1, Clear) && Shows([], [], name, Next(b1, Clear))
            else Shows(left, logs, name, b1) && b1.clearing == b.clearing
  {
    var left := Vacated(peers, b.players[u].pos);
    assert PlacesOf(left, name) == Vacate(b.places, b.players[u].pos);
    var places := PlacesOf(left, name);
    assert forall i :: 0 <= i < |left| ==> (left[i] == null <==> places[i] == None);
  }
}
